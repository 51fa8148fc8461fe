# BlurImageView and its real-time executor, in Dafny

This project models the core of an Android image view that shows a blurred
copy of its source drawable. It also models the small executor that runs the
blurs in the background.

- **Module `BlurView`** (`blur_image_view.dfy`) models `BlurImageView`:
  - the two parameter clamps: radius into [0, 25], compress scale into [0, 1];
  - the fields they write;
  - the smart-update gate that decides whether a setter re-blurs;
  - the five paths of a blur update: no source, zero radius or scale, a
    drawable that is not a bitmap, main-thread mode, and a background job;
  - the detached flag that gates delivery of background results.

  The view is a class whose methods update its fields in place. The effect
  of one blur update is given by a pure function, `BlurEffect`, on a
  `Screen` value: the shown drawable, the redraw count, the executor's
  pending jobs and its shut-down flag. `DoBlur` and the setters are proved
  against that function.
- **Module `Executor`** (`realtime_executor.dfy`) models `RealtimeExecutor`
  and the thread pool it drives:
  - the pool is reduced to a bounded work queue and a shut-down flag;
  - `Submit` first replaces a shut-down pool with a fresh one;
  - it then polls the oldest pending tasks until there is room, and
    enqueues the new task;
  - `ShutdownNow` discards the pending tasks.

  The queue a submission leaves is specified by the functions `DropOldest`
  and `AfterSubmit`. Lemmas prove what they keep: exactly the newest tasks,
  in order, with the new task last. Another lemma covers a whole burst of
  submissions.
- **Module `Wrappers`** holds an `Option` type that stands for a nullable
  reference.

Threads are explicit steps of the view:

- `StartNextBlur`: a worker takes the oldest pending job and adds it to the
  view's `running` jobs.
- `FinishBlur`: a worker finishes one of the `running` jobs, removes it, and
  posts the result, unless the view is detached at that moment. Only a job
  a worker took can finish, so a job dropped by a submission or drained by a
  shutdown is never run.
- `RunPosted`: the UI thread runs the oldest posted update.

Floats are modelled as `real`, since the code only compares them. The
RenderScript blur is an opaque function, `blur`, given to the view when it
is built.

Three behaviours of the code are kept as they are:

- A submission after `shutdownNow` builds a fresh pool and accepts the task
  (`CheckExecutor`, `Submit`).
- Liveness is checked once, on the worker, before the result is posted. A
  result posted before the view is detached is still shown after the detach
  (`DetachAfterCompletion`).
- `onAttachedToWindow` clears the detached flag again, so a view can be
  detached and attached any number of times (`OnAttachedToWindow`).

## Model

| member | source | states |
|---|---|---|
| `BlurView.CheckBlurRadius` | imageblur/src/main/java/com/liangguo/imageblur/BlurImageView.java:190-195 | the result lies in [0, 25]; a radius below 0 gives 0, above 25 gives 25, and one in range is returned unchanged |
| `BlurView.CheckCompressScale` | imageblur/src/main/java/com/liangguo/imageblur/BlurImageView.java:197-202 | the result lies in [0, 1]; below 0 gives 0, above 1 gives 1, and a scale in range is returned unchanged |
| `BlurView.CheckBlurRadiusIsNearest` | imageblur/src/main/java/com/liangguo/imageblur/BlurImageView.java:190-195 | the clamped radius is the valid radius nearest to the requested one |
| `BlurView.CheckCompressScaleIsNearest` | imageblur/src/main/java/com/liangguo/imageblur/BlurImageView.java:197-202 | the clamped scale is the valid scale nearest to the requested one |
| `BlurView.NearestInRangeIsUnique` | imageblur/src/main/java/com/liangguo/imageblur/BlurImageView.java:190-202 | the nearest point of a range is unique, so each clamp is fully determined by being nearest |
| `BlurView.ChecksAreIdempotent` | imageblur/src/main/java/com/liangguo/imageblur/BlurImageView.java:190-202 | clamping twice gives the same value as clamping once, for both the radius and the scale |
| `BlurView.SameRadiusTwiceUpdatesOnce` | imageblur/src/main/java/com/liangguo/imageblur/BlurImageView.java:155-157 | with smart update on, a second radius setter call with the same radius passes the gate without blurring |
| `BlurView.BlurEffectShape` | imageblur/src/main/java/com/liangguo/imageblur/BlurImageView.java:204-227 | a blur update with no source changes nothing; otherwise it redraws once and shows the old drawable, the source, or its blurred bitmap; it touches the executor only to queue, last, the job for a bitmap with non-zero parameters in background mode, leaving the executor live and its queue within capacity |
| `BlurView.FastPathShowsSource` | imageblur/src/main/java/com/liangguo/imageblur/BlurImageView.java:207-209 | with a zero radius or scale, or a source that is not a bitmap, the source is shown unchanged and no job is queued |
| `BlurView.BackgroundBlurSubmitsOneJob` | imageblur/src/main/java/com/liangguo/imageblur/BlurImageView.java:214-223 | in background mode a bitmap with non-zero parameters keeps the shown drawable and adds exactly one submission of its job to the executor's queue |
| `BlurView.BlurImageView.constructor` | imageblur/src/main/java/com/liangguo/imageblur/BlurImageView.java:30-52 | the defaults: scale 0.2, radius 0, no source, attached, background mode, smart update on, a fresh executor with a live empty pool of capacity 3, no updates or redraws yet |
| `BlurView.BlurImageView.SetEnableBlurInMainThread` | imageblur/src/main/java/com/liangguo/imageblur/BlurImageView.java:92-94 | the main-thread flag takes the given value and nothing else changes |
| `BlurView.BlurImageView.SetEnableSmartUpdate` | imageblur/src/main/java/com/liangguo/imageblur/BlurImageView.java:114-116 | the smart-update flag takes the given value and nothing else changes |
| `BlurView.BlurImageView.SetSrcDrawable` | imageblur/src/main/java/com/liangguo/imageblur/BlurImageView.java:77-80 | the drawable is stored, and exactly one blur update of it runs whatever smart update says |
| `BlurView.BlurImageView.UpdateSrcDrawable` | imageblur/src/main/java/com/liangguo/imageblur/BlurImageView.java:70-72 | the drawable currently shown becomes the source, and one blur update of it runs |
| `BlurView.BlurImageView.SetBlurAndCompress` | imageblur/src/main/java/com/liangguo/imageblur/BlurImageView.java:142-150 | the fields hold the clamped values; one blur update runs when smart update is off or a clamped value changed, and otherwise the screen, the executor and its pool are untouched |
| `BlurView.BlurImageView.SetBlurRadius` | imageblur/src/main/java/com/liangguo/imageblur/BlurImageView.java:155-157 | the radius is clamped; the stored scale is re-clamped and so is unchanged when it was already in [0, 1]; the same gate decides the update |
| `BlurView.BlurImageView.SetCompressScale` | imageblur/src/main/java/com/liangguo/imageblur/BlurImageView.java:128-130 | the scale is clamped; the stored radius is re-clamped and so is unchanged when it was already in [0, 25]; the same gate decides the update |
| `BlurView.BlurImageView.UpdateBlur` | imageblur/src/main/java/com/liangguo/imageblur/BlurImageView.java:169-171 | one blur update of the stored source with the stored parameters |
| `BlurView.BlurImageView.DoBlur` | imageblur/src/main/java/com/liangguo/imageblur/BlurImageView.java:204-227 | the new screen and executor state is `BlurEffect` of the old one, for the given source and parameters and the current mode |
| `BlurView.BlurImageView.QueueBlur` | imageblur/src/main/java/com/liangguo/imageblur/BlurImageView.java:215-226 | the job is submitted to the executor, with the executor's drop-oldest queue update, and one redraw is requested |
| `BlurView.BlurImageView.OnAttachedToWindow` | imageblur/src/main/java/com/liangguo/imageblur/BlurImageView.java:174-177 | the detached flag is cleared again |
| `BlurView.BlurImageView.OnDetachedFromWindow` | imageblur/src/main/java/com/liangguo/imageblur/BlurImageView.java:230-234 | the view is marked detached and the executor's pool is shut down with no pending jobs |
| `BlurView.BlurImageView.StartNextBlur` | imageblur/src/main/java/com/liangguo/imageblur/BlurImageView.java:215-216 | a worker takes the oldest pending job and starts running it, or takes nothing when the queue is empty |
| `BlurView.BlurImageView.FinishBlur` | imageblur/src/main/java/com/liangguo/imageblur/BlurImageView.java:216-221 | a running job finishes and stops running; its blurred bitmap is posted when the view is attached, and nothing is posted when it is detached |
| `BlurView.BlurImageView.RunPosted` | imageblur/src/main/java/com/liangguo/imageblur/BlurImageView.java:219 | the UI thread shows the oldest posted bitmap, with no further liveness check |
| `BlurView.DetachBeforeCompletion` | imageblur/src/main/java/com/liangguo/imageblur/BlurImageView.java:218-234 | a running job that finishes after the detach posts nothing, and the shown drawable stays what it was |
| `BlurView.DetachAfterCompletion` | imageblur/src/main/java/com/liangguo/imageblur/BlurImageView.java:217-219 | a running job that finishes before the detach is still shown after it |
| `BlurView.DetachDropsPending` | imageblur/src/main/java/com/liangguo/imageblur/BlurImageView.java:230-234 | after a detach no worker can start a job, because the pending jobs were drained |
| `BlurView.ZeroRadiusShowsSource` | imageblur/src/main/java/com/liangguo/imageblur/BlurImageView.java:207-209 | with radius 0 a new bitmap source is shown at once, and the executor's queue and state are unchanged |
| `BlurView.SameRadiusTwice` | imageblur/src/main/java/com/liangguo/imageblur/BlurImageView.java:155-157 | with smart update on, two radius setter calls with the same radius blur at most once |
| `BlurView.SmartUpdateOffBlursTwice` | imageblur/src/main/java/com/liangguo/imageblur/BlurImageView.java:147-149 | with smart update off, two radius setter calls with the same radius blur exactly twice |
| `Executor.DropOldest` | imageblur/src/main/java/com/liangguo/imageblur/RealtimeExecutor.kt:58-60 | the drop-oldest loop leaves the newest min(n, capacity - 1) of the n pending tasks, in their order |
| `Executor.AfterSubmit` | imageblur/src/main/java/com/liangguo/imageblur/RealtimeExecutor.kt:58-61 | after a submission the queue is the newest min(n + 1, capacity) tasks of the old queue followed by the new task |
| `Executor.AfterSubmitKeepsNewTask` | imageblur/src/main/java/com/liangguo/imageblur/RealtimeExecutor.kt:58-61 | a submission never drops its own task, which ends up last; the queue stays within capacity; exactly max(0, n - capacity + 1) of the oldest tasks are dropped; the survivors keep their order |
| `Executor.AfterSubmitAllKeepsNewest` | imageblur/src/main/java/com/liangguo/imageblur/RealtimeExecutor.kt:14-15 | after any burst of submissions the queue holds exactly the newest min(n + k, capacity) tasks, oldest first |
| `Executor.ThreadPool.constructor` | imageblur/src/main/java/com/liangguo/imageblur/RealtimeExecutor.kt:44-51 | a new pool is live, with an empty queue of the given capacity |
| `Executor.ThreadPool.Poll` | imageblur/src/main/java/com/liangguo/imageblur/RealtimeExecutor.kt:59 | removes and returns the head of the queue, or nothing when the queue is empty |
| `Executor.ThreadPool.Execute` | imageblur/src/main/java/com/liangguo/imageblur/RealtimeExecutor.kt:61 | a live pool with room appends the task at the tail |
| `Executor.ThreadPool.ShutdownNow` | imageblur/src/main/java/com/liangguo/imageblur/RealtimeExecutor.kt:70 | the pool is shut down, its queue is empty, and the tasks that were pending are returned |
| `Executor.RealtimeExecutor.constructor` | imageblur/src/main/java/com/liangguo/imageblur/RealtimeExecutor.kt:21-30 | defaults are queue capacity 3, core size 1 and largest size 3; the first pool is live and empty |
| `Executor.RealtimeExecutor.CheckExecutor` | imageblur/src/main/java/com/liangguo/imageblur/RealtimeExecutor.kt:35-39 | a shut-down pool is replaced by a fresh, live, empty one, and a live pool is kept as it is |
| `Executor.RealtimeExecutor.Submit` | imageblur/src/main/java/com/liangguo/imageblur/RealtimeExecutor.kt:56-62 | the pool is live afterwards (a fresh one if it had been shut down) and its queue is `AfterSubmit` of the old pending tasks (none after a shutdown); the loop ends because each pass shrinks the queue |
| `Executor.RealtimeExecutor.ShutdownNow` | imageblur/src/main/java/com/liangguo/imageblur/RealtimeExecutor.kt:68-74 | the current pool is shut down with no pending tasks |

## Left out

- `blurRenderScript` and all of `BlurUtils.kt`: RenderScript calls and float sizing. The blur is the opaque function `blur`, and its radius precondition is not modelled.
- DoBlur, FinishBlur: the blur never fails in the model. In the code, a bitmap so small that its rounded scaled width or height is 0 makes the platform throw while scaling. In main-thread mode the exception leaves the setter after the fields are stored and before the redraw. In background mode the worker swallows it and posts nothing. The model always shows or posts a blurred bitmap.
- Real threading: spawning threads up to the largest pool size, the 60-second keep-alive, and concurrent interleavings. Worker and UI-thread progress are the explicit steps `StartNextBlur`, `FinishBlur` and `RunPosted`. The model lets any number of jobs run at once and finish in any order. In the code the pool has one core thread, and the drop-oldest loop means a submission never meets a full queue, so no extra thread starts: each pool runs one job at a time, in queue order. The model allows more interleavings than the code, so every property it proves also holds for the code.
- The pool's direct hand-off of a task to a newly started core thread, without queuing it. Every task goes through the queue.
- The pool's rejection of a task: the drop-oldest loop always leaves room, and a live pool is always used, so rejection is not reachable in the model.
- `WeakReference`: it is created inside a lambda that already holds the view, so it never yields null there. `FinishBlur` checks only the detached flag.
- Executor.RealtimeExecutor.constructor: requires a queue capacity of at least 1, a largest pool size of at least 1 and a core size no larger than the largest. In the code the pool's constructor throws on those inputs; that exception is not modelled. The view always uses the defaults 3, 1 and 3.
- `ShutdownNow`'s catch and log of an exception: the model's shutdown cannot fail. Interrupting a blur that is already running is not modelled.
- `initAttrs` and the constructors that take layout attributes. The model's constructor is the one without attributes. `initAttrs` could write unclamped values, so the view's invariant does not bound the radius or the scale.
- The getters (`getSrcDrawable`, `getCompressScale`, `getBlurRadius`, `isEnableBlurInMainThread`, `isEnableSmartUpdate`): each returns a field the model exposes directly.
- Float corner cases: NaN passes both clamps unchanged, and -0.0 exists. Reals have neither.
- Drawing: `invalidate()` is only counted as a redraw request.
- `MainActivity.kt` is not part of this model.
