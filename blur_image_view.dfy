/**
 * The blurring image view: it keeps a source drawable, a blur radius and a
 * compress scale, decides when a change of these needs a new blur, and either
 * shows the source as it is, blurs it inline, or hands a blur job to its
 * real-time executor and shows the result when a worker delivers it.
 *
 * Worker threads and the UI thread's message queue are explicit steps here:
 * StartNextBlur (a worker takes the next pending job and runs it), FinishBlur
 * (the worker completes a job it took and posts the result unless the view is
 * detached) and RunPosted (the UI thread runs the oldest posted action).
 */
module BlurView {
  import opened Wrappers
  import opened Executor

  /** An opaque handle to a platform bitmap. */
  datatype Bitmap = Bitmap(id: nat)

  /** A drawable: one that wraps a bitmap, or one of any other kind. */
  datatype Drawable = BitmapDrawable(bitmap: Bitmap) | OtherDrawable(id: nat)

  /** What a background blur captures when it is submitted. */
  datatype BlurJob = BlurJob(source: Bitmap, radius: real, compressScale: real)

  const MAX_BLUR_RADIUS: real := 25.0
  const MIN_BLUR_RADIUS: real := 0.0
  const DEFAULT_COMPRESS_SCALE: real := 0.2

  /** The radius actually used for a requested one. */
  function CheckBlurRadius(blurRadius: real): (r: real)
    ensures MIN_BLUR_RADIUS <= r <= MAX_BLUR_RADIUS
    ensures blurRadius < MIN_BLUR_RADIUS ==> r == MIN_BLUR_RADIUS
    ensures blurRadius > MAX_BLUR_RADIUS ==> r == MAX_BLUR_RADIUS
    ensures MIN_BLUR_RADIUS <= blurRadius <= MAX_BLUR_RADIUS ==> r == blurRadius
  {
    if blurRadius < MIN_BLUR_RADIUS then MIN_BLUR_RADIUS
    else if blurRadius > MAX_BLUR_RADIUS then MAX_BLUR_RADIUS
    else blurRadius
  }

  /** The compress scale actually used for a requested one. */
  function CheckCompressScale(compressScale: real): (r: real)
    ensures 0.0 <= r <= 1.0
    ensures compressScale < 0.0 ==> r == 0.0
    ensures compressScale > 1.0 ==> r == 1.0
    ensures 0.0 <= compressScale <= 1.0 ==> r == compressScale
  {
    if compressScale < 0.0 then 0.0
    else if compressScale > 1.0 then 1.0
    else compressScale
  }

  function Dist(a: real, b: real): real
  {
    if a < b then b - a else a - b
  }

  /** r is a point of [lo, hi] that no other point of [lo, hi] is closer to x than. */
  ghost predicate IsNearestInRange(x: real, lo: real, hi: real, r: real)
  {
    lo <= r <= hi && forall v :: lo <= v <= hi ==> Dist(x, r) <= Dist(x, v)
  }

  /** A range holds at most one point nearest to x. */
  lemma NearestInRangeIsUnique(x: real, lo: real, hi: real, a: real, b: real)
    requires IsNearestInRange(x, lo, hi, a) && IsNearestInRange(x, lo, hi, b)
    ensures a == b
  {
    assert Dist(x, a) <= Dist(x, b) && Dist(x, b) <= Dist(x, a);
    var m := (a + b) / 2.0;
    assert Dist(x, a) <= Dist(x, m);
  }

  /** Clamping the radius picks the valid radius nearest to the requested one. */
  lemma CheckBlurRadiusIsNearest(blurRadius: real)
    ensures IsNearestInRange(blurRadius, MIN_BLUR_RADIUS, MAX_BLUR_RADIUS, CheckBlurRadius(blurRadius))
  {
  }

  /** Clamping the scale picks the valid scale nearest to the requested one. */
  lemma CheckCompressScaleIsNearest(compressScale: real)
    ensures IsNearestInRange(compressScale, 0.0, 1.0, CheckCompressScale(compressScale))
  {
  }

  /** Clamping a value twice clamps it once. */
  lemma ChecksAreIdempotent(blurRadius: real, compressScale: real)
    ensures CheckBlurRadius(CheckBlurRadius(blurRadius)) == CheckBlurRadius(blurRadius)
    ensures CheckCompressScale(CheckCompressScale(compressScale)) == CheckCompressScale(compressScale)
  {
  }

  /**
   * The smart-update gate of a setter: a new blur is needed when smart update
   * is off, or when either clamped value differs from the value before.
   */
  predicate NeedsUpdate(smartUpdate: bool, preRadius: real, preScale: real, radius: real, scale: real)
  {
    !smartUpdate || preRadius != radius || preScale != scale
  }

  /**
   * With smart update on, a second radius setter call with the same radius
   * finds both clamped values equal to the stored ones (the first call left
   * the scale clamped, and clamping is idempotent), so it does not blur.
   */
  lemma SameRadiusTwiceUpdatesOnce(scale0: real, r: real)
    ensures var (radius1, scale1) := (CheckBlurRadius(r), CheckCompressScale(scale0));
            !NeedsUpdate(true, radius1, scale1, CheckBlurRadius(r), CheckCompressScale(scale1))
  {
    ChecksAreIdempotent(r, scale0);
  }

  /**
   * What one blur update acts on: the drawable shown, the number of redraw
   * requests, the executor's pending jobs and whether its pool is shut down.
   */
  datatype Screen = Screen(shown: Option<Drawable>, redraws: nat, pending: seq<BlurJob>, shutDown: bool)

  /**
   * The effect of blurring `src` with `radius` and `scale` on a screen:
   * nothing for no source; otherwise one redraw, and the source itself for a
   * zero radius or scale or a drawable that is not a bitmap, the blurred
   * bitmap at once in main-thread mode, or else one job submitted to the
   * executor (which is live afterwards) with the shown drawable kept.
   */
  function BlurEffect(s: Screen, src: Option<Drawable>, radius: real, scale: real, inMainThread: bool,
                      blur: (Bitmap, real, real) -> Bitmap, capacity: nat): Screen
    requires capacity >= 1
  {
    match src
    case None => s
    case Some(d) =>
      var s' := s.(redraws := s.redraws + 1);
      if scale == 0.0 || radius == 0.0 || !d.BitmapDrawable? then
        s'.(shown := src)
      else if inMainThread then
        s'.(shown := Some(BitmapDrawable(blur(d.bitmap, radius, scale))))
      else
        s'.(pending := AfterSubmit(if s.shutDown then [] else s.pending, capacity, BlurJob(d.bitmap, radius, scale)),
            shutDown := false)
  }

  /**
   * Whatever the source and mode, a blur update redraws once if there is a
   * source and nothing otherwise; it shows the old drawable, the source or
   * its blurred bitmap; and it touches the executor only to queue, last, the
   * job for a bitmap with non-zero parameters in background mode, leaving the
   * executor live and its queue within capacity.
   */
  lemma BlurEffectShape(s: Screen, src: Option<Drawable>, radius: real, scale: real, inMainThread: bool,
                        blur: (Bitmap, real, real) -> Bitmap, capacity: nat)
    requires capacity >= 1
    ensures var r := BlurEffect(s, src, radius, scale, inMainThread, blur, capacity);
            (src == None ==> r == s) &&
            (src != None ==> r.redraws == s.redraws + 1) &&
            (r.shown == s.shown || r.shown == src ||
             (src.Some? && src.value.BitmapDrawable? && r.shown == Some(BitmapDrawable(blur(src.value.bitmap, radius, scale))))) &&
            (r.pending != s.pending || r.shutDown != s.shutDown ==>
               src.Some? && src.value.BitmapDrawable? && radius != 0.0 && scale != 0.0 && !inMainThread &&
               r.shown == s.shown && !r.shutDown && 1 <= |r.pending| <= capacity &&
               r.pending[|r.pending| - 1] == BlurJob(src.value.bitmap, radius, scale))
  {
    if src.Some? && src.value.BitmapDrawable? && radius != 0.0 && scale != 0.0 && !inMainThread {
      AfterSubmitKeepsNewTask(if s.shutDown then [] else s.pending, capacity, BlurJob(src.value.bitmap, radius, scale));
    }
  }

  /**
   * A zero radius or a zero scale shows a source unchanged and creates no
   * job; so does any source that is not a bitmap.
   */
  lemma FastPathShowsSource(s: Screen, d: Drawable, radius: real, scale: real, inMainThread: bool,
                            blur: (Bitmap, real, real) -> Bitmap, capacity: nat)
    requires capacity >= 1
    requires radius == 0.0 || scale == 0.0 || !d.BitmapDrawable?
    ensures var r := BlurEffect(s, Some(d), radius, scale, inMainThread, blur, capacity);
            r.shown == Some(d) && r.pending == s.pending && r.shutDown == s.shutDown
  {
  }

  /**
   * In background mode a bitmap with a non-zero radius and scale leaves the
   * shown drawable alone and submits exactly one job, which is queued last.
   */
  lemma BackgroundBlurSubmitsOneJob(s: Screen, b: Bitmap, radius: real, scale: real,
                                    blur: (Bitmap, real, real) -> Bitmap, capacity: nat)
    requires capacity >= 1 && radius != 0.0 && scale != 0.0
    ensures var r := BlurEffect(s, Some(BitmapDrawable(b)), radius, scale, false, blur, capacity);
            r.shown == s.shown && !r.shutDown &&
            r.pending == AfterSubmit(if s.shutDown then [] else s.pending, capacity, BlurJob(b, radius, scale))
  {
  }

  class BlurImageView {
    var mCompressScale: real
    var mBlurRadius: real
    var mSrcDrawable: Option<Drawable>
    var mIsDetached: bool
    var mEnableBlurInMainThread: bool
    var enableSmartUpdate: bool
    const mExecutor: RealtimeExecutor<BlurJob>
    /** The platform blur primitive: bitmap, radius and scale to a blurred bitmap. */
    const blur: (Bitmap, real, real) -> Bitmap
    /** The drawable the image view shows. */
    var drawable: Option<Drawable>
    /** Image updates posted to the UI thread and not yet run, oldest first. */
    var posted: seq<Bitmap>
    /** Blur jobs that workers have taken from the queue and not yet finished. */
    var running: seq<BlurJob>
    /** How many times a blur update has run. */
    ghost var updates: nat
    /** How many times a redraw has been requested. */
    ghost var invalidations: nat

    ghost predicate Valid()
      reads mExecutor, mExecutor.executor
    {
      mExecutor.Valid() && mExecutor.maxTaskQueueSize == DEFAULT_MAX_TASK_QUEUE_SIZE
    }

    /** A view created without layout attributes: the defaults, nothing shown, a fresh executor. */
    constructor (blur: (Bitmap, real, real) -> Bitmap)
      ensures Valid() && fresh(mExecutor) && fresh(mExecutor.executor)
      ensures mCompressScale == DEFAULT_COMPRESS_SCALE && mBlurRadius == MIN_BLUR_RADIUS
      ensures mSrcDrawable == None && !mIsDetached
      ensures !mEnableBlurInMainThread && enableSmartUpdate
      ensures this.blur == blur && drawable == None && posted == [] && running == []
      ensures updates == 0 && invalidations == 0
      ensures mExecutor.corePoolSize == DEFAULT_CORE_POOL_SIZE
      ensures mExecutor.maxPoolSize == DEFAULT_MAX_POOL_SIZE
      ensures mExecutor.executor.queue == [] && !mExecutor.executor.isShutdown
    {
      mCompressScale := DEFAULT_COMPRESS_SCALE;
      mBlurRadius := MIN_BLUR_RADIUS;
      mSrcDrawable := None;
      mIsDetached := false;
      mEnableBlurInMainThread := false;
      enableSmartUpdate := true;
      mExecutor := new RealtimeExecutor();
      this.blur := blur;
      drawable := None;
      posted := [];
      running := [];
      updates := 0;
      invalidations := 0;
    }

    /** The part of the state a blur update acts on. */
    ghost function Snapshot(): Screen
      reads this`drawable, this`invalidations, mExecutor`executor, mExecutor.executor
    {
      Screen(drawable, invalidations, mExecutor.executor.queue, mExecutor.executor.isShutdown)
    }

    /** The screen a blur update of `src` with `radius` and `scale` turns `s` into. */
    ghost function Blurred(s: Screen, src: Option<Drawable>, radius: real, scale: real): Screen
      reads this`mEnableBlurInMainThread
    {
      BlurEffect(s, src, radius, scale, mEnableBlurInMainThread, blur, DEFAULT_MAX_TASK_QUEUE_SIZE)
    }

    method SetEnableBlurInMainThread(enableBlurInMainThread: bool)
      modifies this`mEnableBlurInMainThread
      ensures mEnableBlurInMainThread == enableBlurInMainThread
    {
      mEnableBlurInMainThread := enableBlurInMainThread;
    }

    method SetEnableSmartUpdate(enableSmartUpdate: bool)
      modifies this`enableSmartUpdate
      ensures this.enableSmartUpdate == enableSmartUpdate
    {
      this.enableSmartUpdate := enableSmartUpdate;
    }

    /** Stores the drawable and always blurs it, whatever smart update says. */
    method SetSrcDrawable(d: Option<Drawable>)
      requires Valid()
      modifies this`mSrcDrawable, this`drawable, this`invalidations, this`updates, mExecutor, mExecutor.executor
      ensures Valid()
      ensures mExecutor.executor == old(mExecutor.executor) || fresh(mExecutor.executor)
      ensures mSrcDrawable == d && updates == old(updates) + 1
      ensures Snapshot() == Blurred(old(Snapshot()), d, mBlurRadius, mCompressScale)
    {
      mSrcDrawable := d;
      UpdateBlur();
    }

    /** Blurs again whatever the view shows now. */
    method UpdateSrcDrawable()
      requires Valid()
      modifies this`mSrcDrawable, this`drawable, this`invalidations, this`updates, mExecutor, mExecutor.executor
      ensures Valid()
      ensures mExecutor.executor == old(mExecutor.executor) || fresh(mExecutor.executor)
      ensures mSrcDrawable == old(drawable) && updates == old(updates) + 1
      ensures Snapshot() == Blurred(old(Snapshot()), old(drawable), mBlurRadius, mCompressScale)
    {
      SetSrcDrawable(drawable);
    }

    /**
     * Sets both parameters at once, clamped, and blurs at most once: only
     * when smart update is off or a clamped value changed.
     */
    method SetBlurAndCompress(blurRadius: real, compressScale: real)
      requires Valid()
      modifies this`mBlurRadius, this`mCompressScale, this`drawable, this`invalidations, this`updates
      modifies mExecutor, mExecutor.executor
      ensures Valid()
      ensures mExecutor.executor == old(mExecutor.executor) || fresh(mExecutor.executor)
      ensures mBlurRadius == CheckBlurRadius(blurRadius)
      ensures mCompressScale == CheckCompressScale(compressScale)
      ensures NeedsUpdate(enableSmartUpdate, old(mBlurRadius), old(mCompressScale), mBlurRadius, mCompressScale) ==>
                updates == old(updates) + 1 && Snapshot() == Blurred(old(Snapshot()), mSrcDrawable, mBlurRadius, mCompressScale)
      ensures !NeedsUpdate(enableSmartUpdate, old(mBlurRadius), old(mCompressScale), mBlurRadius, mCompressScale) ==>
                updates == old(updates) && Snapshot() == old(Snapshot()) &&
                mExecutor.executor == old(mExecutor.executor)
    {
      var preBlurRadius := mBlurRadius;
      var preCompressScale := mCompressScale;
      mBlurRadius := CheckBlurRadius(blurRadius);
      mCompressScale := CheckCompressScale(compressScale);
      if !enableSmartUpdate || preBlurRadius != mBlurRadius || preCompressScale != mCompressScale {
        UpdateBlur();
      }
    }

    /** Sets the radius, clamped; the scale goes through its own clamp again. */
    method SetBlurRadius(blurRadius: real)
      requires Valid()
      modifies this`mBlurRadius, this`mCompressScale, this`drawable, this`invalidations, this`updates
      modifies mExecutor, mExecutor.executor
      ensures Valid()
      ensures mExecutor.executor == old(mExecutor.executor) || fresh(mExecutor.executor)
      ensures mBlurRadius == CheckBlurRadius(blurRadius)
      ensures mCompressScale == CheckCompressScale(old(mCompressScale))
      ensures 0.0 <= old(mCompressScale) <= 1.0 ==> mCompressScale == old(mCompressScale)
      ensures NeedsUpdate(enableSmartUpdate, old(mBlurRadius), old(mCompressScale), mBlurRadius, mCompressScale) ==>
                updates == old(updates) + 1 && Snapshot() == Blurred(old(Snapshot()), mSrcDrawable, mBlurRadius, mCompressScale)
      ensures !NeedsUpdate(enableSmartUpdate, old(mBlurRadius), old(mCompressScale), mBlurRadius, mCompressScale) ==>
                updates == old(updates) && Snapshot() == old(Snapshot()) &&
                mExecutor.executor == old(mExecutor.executor)
    {
      SetBlurAndCompress(blurRadius, mCompressScale);
    }

    /** Sets the scale, clamped; the radius goes through its own clamp again. */
    method SetCompressScale(compressScale: real)
      requires Valid()
      modifies this`mBlurRadius, this`mCompressScale, this`drawable, this`invalidations, this`updates
      modifies mExecutor, mExecutor.executor
      ensures Valid()
      ensures mExecutor.executor == old(mExecutor.executor) || fresh(mExecutor.executor)
      ensures mCompressScale == CheckCompressScale(compressScale)
      ensures mBlurRadius == CheckBlurRadius(old(mBlurRadius))
      ensures MIN_BLUR_RADIUS <= old(mBlurRadius) <= MAX_BLUR_RADIUS ==> mBlurRadius == old(mBlurRadius)
      ensures NeedsUpdate(enableSmartUpdate, old(mBlurRadius), old(mCompressScale), mBlurRadius, mCompressScale) ==>
                updates == old(updates) + 1 && Snapshot() == Blurred(old(Snapshot()), mSrcDrawable, mBlurRadius, mCompressScale)
      ensures !NeedsUpdate(enableSmartUpdate, old(mBlurRadius), old(mCompressScale), mBlurRadius, mCompressScale) ==>
                updates == old(updates) && Snapshot() == old(Snapshot()) &&
                mExecutor.executor == old(mExecutor.executor)
    {
      SetBlurAndCompress(mBlurRadius, compressScale);
    }

    /** Blurs the current source with the current parameters. */
    method UpdateBlur()
      requires Valid()
      modifies this`drawable, this`invalidations, this`updates, mExecutor, mExecutor.executor
      ensures Valid()
      ensures mExecutor.executor == old(mExecutor.executor) || fresh(mExecutor.executor)
      ensures updates == old(updates) + 1
      ensures Snapshot() == Blurred(old(Snapshot()), old(mSrcDrawable), old(mBlurRadius), old(mCompressScale))
    {
      var src, radius, scale := mSrcDrawable, mBlurRadius, mCompressScale;
      DoBlur(src, radius, scale);
      updates := updates + 1;
    }

    method OnAttachedToWindow()
      modifies this`mIsDetached
      ensures !mIsDetached
    {
      mIsDetached := false;
    }

    /** Marks the view detached and shuts the executor's pool down, dropping its pending jobs. */
    method OnDetachedFromWindow()
      requires Valid()
      modifies this`mIsDetached, mExecutor.executor
      ensures Valid() && mIsDetached
      ensures mExecutor.executor.isShutdown && mExecutor.executor.queue == []
    {
      mIsDetached := true;
      mExecutor.ShutdownNow();
    }

    /**
     * Blurs `src`: the source itself for a zero radius or scale or a
     * drawable that is not a bitmap, the blurred bitmap at once in main-thread
     * mode, or else a job submitted to the executor; then a redraw.
     */
    method DoBlur(src: Option<Drawable>, radius: real, compressScale: real)
      requires Valid()
      modifies this`drawable, this`invalidations, mExecutor, mExecutor.executor
      ensures Valid()
      ensures mExecutor.executor == old(mExecutor.executor) || fresh(mExecutor.executor)
      ensures src == None ==> mExecutor.executor == old(mExecutor.executor)
      ensures Snapshot() == Blurred(old(Snapshot()), src, radius, compressScale)
    {
      ghost var before := Snapshot();
      ghost var after := Blurred(before, src, radius, compressScale);
      if src == None {
        return;
      }
      var d := src.value;
      if compressScale == 0.0 || radius == 0.0 || !d.BitmapDrawable? {
        drawable := src;
      } else if mEnableBlurInMainThread {
        drawable := Some(BitmapDrawable(blur(d.bitmap, radius, compressScale)));
      } else {
        var job := BlurJob(d.bitmap, radius, compressScale);
        ghost var base := if mExecutor.executor.isShutdown then [] else mExecutor.executor.queue;
        assert after == Screen(drawable, invalidations + 1, AfterSubmit(base, DEFAULT_MAX_TASK_QUEUE_SIZE, job), false);
        QueueBlur(job);
        assert Snapshot() == after;
        return;
      }
      invalidations := invalidations + 1;
    }

    /** The background branch of a blur: submits the job, then requests a redraw. */
    method QueueBlur(job: BlurJob)
      requires Valid()
      modifies this`invalidations, mExecutor, mExecutor.executor
      ensures Valid()
      ensures mExecutor.executor == old(mExecutor.executor) || fresh(mExecutor.executor)
      ensures invalidations == old(invalidations) + 1 && !mExecutor.executor.isShutdown
      ensures mExecutor.executor.queue ==
        AfterSubmit(if old(mExecutor.executor.isShutdown) then [] else old(mExecutor.executor.queue),
                    DEFAULT_MAX_TASK_QUEUE_SIZE, job)
    {
      mExecutor.Submit(job);
      assert Valid();
      invalidations := invalidations + 1;
    }

    /**
     * A worker of the current pool takes the oldest pending blur job, if any,
     * and starts running it.
     */
    method StartNextBlur() returns (job: Option<BlurJob>)
      requires Valid()
      modifies this`running, mExecutor.executor
      ensures Valid() && mExecutor.executor.isShutdown == old(mExecutor.executor.isShutdown)
      ensures old(mExecutor.executor.queue) == [] ==>
                job == None && mExecutor.executor.queue == [] && running == old(running)
      ensures old(mExecutor.executor.queue) != [] ==>
                job == Some(old(mExecutor.executor.queue)[0]) &&
                mExecutor.executor.queue == old(mExecutor.executor.queue)[1..] &&
                running == old(running) + [old(mExecutor.executor.queue)[0]]
    {
      job := mExecutor.executor.Poll();
      if job.Some? {
        running := running + [job.value];
      }
    }

    /**
     * The worker running the i-th started job finishes it: the result is
     * posted to the UI thread only if the view is not detached at this moment.
     */
    method FinishBlur(i: nat)
      requires i < |running|
      modifies this`posted, this`running
      ensures running == old(running[..i] + running[i + 1..])
      ensures mIsDetached ==> posted == old(posted)
      ensures !mIsDetached ==>
                posted == old(posted) + [blur(old(running[i]).source, old(running[i]).radius, old(running[i]).compressScale)]
    {
      var job := running[i];
      running := running[..i] + running[i + 1..];
      var blurred := blur(job.source, job.radius, job.compressScale);
      if !mIsDetached {
        posted := posted + [blurred];
      }
    }

    /**
     * The UI thread runs the oldest posted update: it shows the blurred
     * bitmap, whether or not the view has been detached since it was posted.
     */
    method RunPosted()
      modifies this`posted, this`drawable
      ensures old(posted) == [] ==> posted == [] && drawable == old(drawable)
      ensures old(posted) != [] ==>
                posted == old(posted)[1..] && drawable == Some(BitmapDrawable(old(posted)[0]))
    {
      if posted != [] {
        drawable := Some(BitmapDrawable(posted[0]));
        posted := posted[1..];
      }
    }
  }

  /**
   * A running blur job that a worker finishes after the view was detached is
   * never shown: the view keeps showing what it showed before.
   */
  method DetachBeforeCompletion(v: BlurImageView)
    requires v.Valid() && v.posted == [] && v.running != []
    modifies v`mIsDetached, v`posted, v`running, v`drawable, v.mExecutor.executor
    ensures v.mIsDetached && v.posted == [] && v.drawable == old(v.drawable)
  {
    v.OnDetachedFromWindow();
    v.FinishBlur(0);
    v.RunPosted();
  }

  /**
   * A running blur job that a worker finishes while the view is attached is
   * posted; if the view is detached before the UI thread runs the post, the
   * result is still shown.
   */
  method DetachAfterCompletion(v: BlurImageView)
    requires v.Valid() && !v.mIsDetached && v.posted == [] && v.running != []
    modifies v`mIsDetached, v`posted, v`running, v`drawable, v.mExecutor.executor
    ensures v.mIsDetached && v.posted == []
    ensures var job := old(v.running[0]);
            v.drawable == Some(BitmapDrawable(v.blur(job.source, job.radius, job.compressScale)))
  {
    v.FinishBlur(0);
    v.OnDetachedFromWindow();
    v.RunPosted();
  }

  /**
   * Detaching drains the pending jobs: no worker can start one of them
   * afterwards, so none of them is ever run or shown.
   */
  method DetachDropsPending(v: BlurImageView) returns (job: Option<BlurJob>)
    requires v.Valid()
    modifies v`mIsDetached, v`running, v.mExecutor.executor
    ensures job == None && v.running == old(v.running)
  {
    v.OnDetachedFromWindow();
    job := v.StartNextBlur();
  }

  /**
   * With smart update off, every radius setter call blurs: two calls with the
   * same radius run two blur updates.
   */
  method SmartUpdateOffBlursTwice(v: BlurImageView, r: real)
    requires v.Valid() && !v.enableSmartUpdate
    modifies v`mBlurRadius, v`mCompressScale, v`drawable, v`invalidations, v`updates
    modifies v.mExecutor, v.mExecutor.executor
    ensures v.updates == old(v.updates) + 2
  {
    v.SetBlurRadius(r);
    v.SetBlurRadius(r);
  }

  /** With a zero radius a new bitmap source is shown at once and no job is created. */
  method ZeroRadiusShowsSource(v: BlurImageView, image: Bitmap)
    requires v.Valid() && v.mBlurRadius == 0.0
    modifies v`mSrcDrawable, v`drawable, v`invalidations, v`updates, v.mExecutor, v.mExecutor.executor
    ensures v.drawable == Some(BitmapDrawable(image))
    ensures v.mExecutor.executor.queue == old(v.mExecutor.executor.queue)
    ensures v.mExecutor.executor.isShutdown == old(v.mExecutor.executor.isShutdown)
  {
    v.SetSrcDrawable(Some(BitmapDrawable(image)));
  }

  /**
   * With smart update on, setting the same radius twice blurs at most once:
   * the second call changes nothing.
   */
  method SameRadiusTwice(v: BlurImageView, r: real)
    requires v.Valid() && v.enableSmartUpdate
    modifies v`mBlurRadius, v`mCompressScale, v`drawable, v`invalidations, v`updates
    modifies v.mExecutor, v.mExecutor.executor
    ensures v.updates <= old(v.updates) + 1
  {
    v.SetBlurRadius(r);
    ghost var (scale0, once) := (old(v.mCompressScale), v.updates);
    SameRadiusTwiceUpdatesOnce(scale0, r);
    v.SetBlurRadius(r);
    assert v.updates == once;
  }
}
