/**
 * What the fragment's steps promise: each launcher result reaches its callback once and
 * clears it, crop completion forgets both uris, onDestroy cancels every pending operation,
 * a missing permission changes nothing, and the saved state keeps the authority only.
 */
module FragmentLemmas {
  import opened Platform
  import opened ContextExt
  import opened PhotoOp
  import opened Fragment

  // ---------------------------------------------------------------------------
  // Reading a trace

  /** The number of times `cb` was invoked. */
  function Invocations(trace: seq<Event>, cb: PhotoOpCallback): nat
    decreases |trace|
  {
    if trace == [] then 0
    else
      var e := trace[|trace| - 1];
      Invocations(trace[..|trace| - 1], cb) + (if e.Invoked? && e.callback == cb then 1 else 0)
  }

  /** The results continuation `k` was resumed with, in order. */
  function ResultsFor(trace: seq<Event>, k: Continuation): seq<PhotoOpResult>
    decreases |trace|
  {
    if trace == [] then []
    else
      var e := trace[|trace| - 1];
      ResultsFor(trace[..|trace| - 1], k) + (if e.Resumed? && e.continuation == k then [e.result] else [])
  }

  /** The events a step added. */
  function Appended(s: State, t: State): seq<Event>
    requires s.trace <= t.trace
  {
    t.trace[|s.trace|..]
  }

  lemma {:induction false} InvocationsAppend(a: seq<Event>, b: seq<Event>, cb: PhotoOpCallback)
    ensures Invocations(a + b, cb) == Invocations(a, cb) + Invocations(b, cb)
    decreases |b|
  {
    if b != [] {
      assert (a + b)[..|a + b| - 1] == a + b[..|b| - 1];
      assert (a + b)[|a + b| - 1] == b[|b| - 1];
      assert Invocations(a + b, cb) == Invocations(a + b[..|b| - 1], cb) + (if (a + b)[|a + b| - 1].Invoked? && (a + b)[|a + b| - 1].callback == cb then 1 else 0);
      InvocationsAppend(a, b[..|b| - 1], cb);
    } else {
      assert a + b == a;
    }
  }

  lemma {:induction false} ResultsForAppend(a: seq<Event>, b: seq<Event>, k: Continuation)
    ensures ResultsFor(a + b, k) == ResultsFor(a, k) + ResultsFor(b, k)
    decreases |b|
  {
    if b != [] {
      assert (a + b)[..|a + b| - 1] == a + b[..|b| - 1];
      assert (a + b)[|a + b| - 1] == b[|b| - 1];
      assert ResultsFor(a + b, k) == ResultsFor(a + b[..|b| - 1], k) + (if (a + b)[|a + b| - 1].Resumed? && (a + b)[|a + b| - 1].continuation == k then [(a + b)[|a + b| - 1].result] else []);
      ResultsForAppend(a, b[..|b| - 1], k);
    } else {
      assert a + b == a;
    }
  }

  lemma {:induction false} NoInvocations(a: seq<Event>, cb: PhotoOpCallback)
    requires forall i :: 0 <= i < |a| && a[i].Invoked? ==> a[i].callback != cb
    ensures Invocations(a, cb) == 0
    decreases |a|
  {
    if a != [] {
      NoInvocations(a[..|a| - 1], cb);
    }
  }

  lemma {:induction false} NoResults(a: seq<Event>, k: Continuation)
    requires forall i :: 0 <= i < |a| ==> !a[i].Resumed?
    ensures ResultsFor(a, k) == []
    decreases |a|
  {
    if a != [] {
      NoResults(a[..|a| - 1], k);
    }
  }

  /** A trace grows by appending: the events of two successive steps are those of each. */
  lemma AppendedTwice(s: State, t: State, u: State)
    requires s.trace <= t.trace && t.trace <= u.trace
    ensures s.trace <= u.trace && Appended(s, u) == Appended(s, t) + Appended(t, u)
  {
  }

  /** Invoking a callback that starts no crop invokes it once and resumes at most its own continuation. */
  lemma OutcomeCounts(cb: PhotoOpCallback, r: PhotoOpResult, c: PhotoOpCallback, k: Continuation)
    requires !React(cb, r).StartCrop?
    ensures Invocations(Outcome(cb, r), c) == if c == cb then 1 else 0
    ensures ResultsFor(Outcome(cb, r), k)
            == if React(cb, r).Resume? && React(cb, r).continuation == k then [r] else []
  {
    var o := Outcome(cb, r);
    if React(cb, r).Resume? {
      assert o[..1] == [Invoked(cb, r)];
      assert o[..1][..0] == [];
      assert ResultsFor(o[..1], k) == [];
      assert Invocations(o[..1], c) == if c == cb then 1 else 0;
      assert ResultsFor(o, k) == ResultsFor(o[..1], k) + (if React(cb, r).continuation == k then [r] else []);
    } else {
      assert o[..0] == [];
    }
  }

  // ---------------------------------------------------------------------------
  // Invoking a callback

  /** Invoking with anything but a success never starts a crop, whatever the platform. */
  lemma InvokeNonSuccessIsNotify(s: State, cb: PhotoOpCallback, r: PhotoOpResult, env: Env)
    requires !r.Success?
    ensures !React(cb, r).StartCrop? && InvokeStep(s, cb, r, env) == NotifyStep(s, cb, r)
  {
  }

  /** One invocation of `cb`, however far a chained crop goes. */
  lemma InvokeInvokesOnce(s: State, cb: PhotoOpCallback, r: PhotoOpResult, env: Env)
    ensures var t := InvokeStep(s, cb, r, env); Invocations(Appended(s, t), cb) == 1
  {
    var t := InvokeStep(s, cb, r, env);
    var a := React(cb, r);
    if a.StartCrop? {
      var s1 := s.(trace := s.trace + [Invoked(cb, r)]);
      assert t == CropStep(s1, a.uri, a.next, env, a.fromCamera);
      assert Appended(s, t) == [Invoked(cb, r)] + Appended(s1, t);
      assert a.next != cb;
      NoInvocations(Appended(s1, t), cb);
      InvocationsAppend([Invoked(cb, r)], Appended(s1, t), cb);
      assert [Invoked(cb, r)][..0] == [];
    } else {
      assert Appended(s, t) == Outcome(cb, r);
      OutcomeCounts(cb, r, cb, 0);
    }
  }

  // ---------------------------------------------------------------------------
  // Launcher results

  /** The uri a launcher's success carries: the capture file, the result intent's data, the crop file. */
  function LauncherUri(s: State, kind: Launcher, data: Option<Uri>): Option<Uri> {
    match kind
    case CaptureLauncher => s.captureFileUri
    case PickLauncher => data
    case CropLauncher => s.cropFileUri
  }

  predicate NoCrash(a: seq<Event>) {
    forall i :: 0 <= i < |a| ==> !a[i].Crashed?
  }

  lemma FireEvents(s: State, slot: Option<PhotoOpCallback>, r: PhotoOpResult, env: Env)
    ensures var t := Fire(s, slot, r, env);
      && s.trace <= t.trace
      && t.authority == s.authority && t.delPhoto == s.delPhoto && t.captureFileUri == s.captureFileUri
      && t.captureCallback == s.captureCallback && t.pickCallback == s.pickCallback
      && (slot.Some? ==> |Appended(s, t)| > 0 && Appended(s, t)[0] == Invoked(slot.value, r)
                         && Invocations(Appended(s, t), slot.value) == 1)
      && (slot.None? ==> t == s)
      && forall i :: 0 <= i < |Appended(s, t)| ==> !Appended(s, t)[i].Deleted? && !Appended(s, t)[i].Crashed?
  {
    if slot.Some? {
      InvokeInvokesOnce(s, slot.value, r, env);
    }
  }

  /** The capture and pick handlers: invoke the pending callback, then clear it. */
  lemma DeliverFireThenClear(s: State, kind: Launcher, resultCode: int, data: Option<Uri>, env: Env)
    requires kind != CropLauncher
    ensures var r := MapResult(resultCode, LauncherUri(s, kind, data));
      var u := Fire(s, Slot(s, kind), r, env);
      var t := DeliverStep(s, kind, resultCode, data, env);
      t.trace == u.trace && Slot(t, kind).None?
  {
  }

  /** The crop handler adds at most one event of its own after the callback, never an invocation. */
  lemma DeliverCropTail(s: State, resultCode: int, data: Option<Uri>, env: Env)
    ensures var u := Fire(s, s.cropCallback, MapResult(resultCode, s.cropFileUri), env);
      var t := DeliverStep(s, CropLauncher, resultCode, data, env);
      && u.trace <= t.trace && |t.trace| <= |u.trace| + 1
      && (forall i :: |u.trace| <= i < |t.trace| ==> !t.trace[i].Invoked?)
      && (NoCrash(Appended(u, t)) ==> t.cropCallback.None?)
  {
    var u := Fire(s, s.cropCallback, MapResult(resultCode, s.cropFileUri), env);
    var t := DeliverStep(s, CropLauncher, resultCode, data, env);
    assert t == FinishCrop(u, env);
    if u.delPhoto && (env.context.None? || u.captureFileUri.None?) {
      assert Appended(u, t)[0].Crashed?;
    }
  }

  /**
   * A launcher result goes to that launcher's callback exactly once, as the mapped result,
   * and nothing is invoked when no callback is pending; afterwards the callback is cleared
   * unless the handler threw.
   */
  lemma DeliverAnswersOnce(s: State, kind: Launcher, resultCode: int, data: Option<Uri>, env: Env)
    ensures var t := DeliverStep(s, kind, resultCode, data, env);
      && s.trace <= t.trace
      && (Slot(s, kind).Some? ==>
            var a := Appended(s, t);
            |a| > 0 && a[0] == Invoked(Slot(s, kind).value, MapResult(resultCode, LauncherUri(s, kind, data)))
            && Invocations(a, Slot(s, kind).value) == 1)
      && (Slot(s, kind).None? ==> forall i :: 0 <= i < |Appended(s, t)| ==> !Appended(s, t)[i].Invoked?)
      && (NoCrash(Appended(s, t)) ==> Slot(t, kind).None?)
  {
    var slot := Slot(s, kind);
    var r := MapResult(resultCode, LauncherUri(s, kind, data));
    var u := Fire(s, slot, r, env);
    FireEvents(s, slot, r, env);
    var t := DeliverStep(s, kind, resultCode, data, env);
    if kind == CropLauncher {
      DeliverCropTail(s, resultCode, data, env);
      AppendedTwice(s, u, t);
      var a, b := Appended(s, u), Appended(u, t);
      assert forall i :: 0 <= i < |b| ==> !b[i].Invoked?;
      if slot.Some? {
        NoInvocations(b, slot.value);
        InvocationsAppend(a, b, slot.value);
      }
      assert NoCrash(Appended(s, t)) ==> NoCrash(b) by {
        if NoCrash(Appended(s, t)) {
          forall i | 0 <= i < |b| ensures !b[i].Crashed? {
            assert b[i] == Appended(s, t)[|a| + i];
          }
        }
      }
    } else {
      DeliverFireThenClear(s, kind, resultCode, data, env);
    }
  }

  /**
   * Crop completion forgets both uris and the crop callback whatever the result code, and
   * deletes the captured original exactly when delPhoto is set; when delPhoto is set and the
   * capture uri is null (or the fragment is detached) the handler throws instead, after the
   * callback has run and before anything is cleared.
   */
  lemma CropCompletion(s: State, resultCode: int, data: Option<Uri>, env: Env)
    ensures var t := DeliverStep(s, CropLauncher, resultCode, data, env);
      var throws := s.delPhoto && (env.context.None? || s.captureFileUri.None?);
      && s.trace <= t.trace
      && (!throws ==> t.captureFileUri.None? && t.cropFileUri.None? && t.cropCallback.None?
                      && NoCrash(Appended(s, t)))
      && (forall x :: Deleted(x) in Appended(s, t) <==> !throws && s.delPhoto && s.captureFileUri == Some(x))
      && (throws ==> t.captureFileUri == s.captureFileUri
                     && Appended(s, t)[|Appended(s, t)| - 1]
                        == Crashed(if env.context.None? then NotAttached else NullCaptureFileUri))
  {
    CropHandlerShape(s, resultCode, data, env);
    CropCompletionEvents(s, Fire(s, s.cropCallback, MapResult(resultCode, s.cropFileUri), env),
                         DeliverStep(s, CropLauncher, resultCode, data, env), env);
  }

  /** CropCompletion's events, for any handler that appends CropTail after the callback's events. */
  lemma CropCompletionEvents(s: State, u: State, t: State, env: Env)
    requires s.trace <= u.trace
    requires forall i :: 0 <= i < |Appended(s, u)| ==> !Appended(s, u)[i].Deleted? && !Appended(s, u)[i].Crashed?
    requires t.trace == u.trace + CropTail(s, env)
    ensures var throws := s.delPhoto && (env.context.None? || s.captureFileUri.None?);
      && s.trace <= t.trace
      && (!throws ==> NoCrash(Appended(s, t)))
      && (forall x :: Deleted(x) in Appended(s, t) <==> !throws && s.delPhoto && s.captureFileUri == Some(x))
      && (throws ==> Appended(s, t)[|Appended(s, t)| - 1]
                     == Crashed(if env.context.None? then NotAttached else NullCaptureFileUri))
  {
    AppendedTwice(s, u, t);
    assert Appended(s, t) == Appended(s, u) + CropTail(s, env);
    ConcatEvents(Appended(s, u), CropTail(s, env));
  }

  /** The crop handler as the callback's events followed by CropTail. */
  lemma CropHandlerShape(s: State, resultCode: int, data: Option<Uri>, env: Env)
    ensures var u := Fire(s, s.cropCallback, MapResult(resultCode, s.cropFileUri), env);
      var t := DeliverStep(s, CropLauncher, resultCode, data, env);
      var throws := s.delPhoto && (env.context.None? || s.captureFileUri.None?);
      && s.trace <= u.trace
      && (forall i :: 0 <= i < |Appended(s, u)| ==> !Appended(s, u)[i].Deleted? && !Appended(s, u)[i].Crashed?)
      && t.trace == u.trace + CropTail(s, env)
      && (!throws ==> t.captureFileUri.None? && t.cropFileUri.None? && t.cropCallback.None?)
      && (throws ==> t.captureFileUri == s.captureFileUri)
  {
    var u := Fire(s, s.cropCallback, MapResult(resultCode, s.cropFileUri), env);
    FireEvents(s, s.cropCallback, MapResult(resultCode, s.cropFileUri), env);
    assert DeliverStep(s, CropLauncher, resultCode, data, env) == FinishCrop(u, env);
  }

  /**
   * Events that neither delete nor crash, followed by a tail: the tail holds every deletion,
   * a crash-free tail leaves the whole crash-free, and the last event is the tail's.
   */
  lemma ConcatEvents(a: seq<Event>, tail: seq<Event>)
    requires forall i :: 0 <= i < |a| ==> !a[i].Deleted? && !a[i].Crashed?
    ensures forall x :: Deleted(x) in a + tail <==> Deleted(x) in tail
    ensures NoCrash(tail) ==> NoCrash(a + tail)
    ensures |tail| > 0 ==> (a + tail)[|a + tail| - 1] == tail[|tail| - 1]
  {
    forall x | Deleted(x) in a + tail
      ensures Deleted(x) in tail
    {
      var i :| 0 <= i < |a + tail| && (a + tail)[i] == Deleted(x);
      assert forall j :: 0 <= j < |a| ==> (a + tail)[j] == a[j];
      assert i >= |a|;
      assert tail[i - |a|] == Deleted(x);
    }
    forall x | Deleted(x) in tail
      ensures Deleted(x) in a + tail
    {
      var j :| 0 <= j < |tail| && tail[j] == Deleted(x);
      assert (a + tail)[|a| + j] == Deleted(x);
    }
    if NoCrash(tail) {
      forall i | 0 <= i < |a + tail|
        ensures !(a + tail)[i].Crashed?
      {
        if i < |a| { assert (a + tail)[i] == a[i]; } else { assert (a + tail)[i] == tail[i - |a|]; }
      }
    }
  }

  // ---------------------------------------------------------------------------
  // onDestroy

  /** How many of the three callback slots hold `cb`. */
  function SlotCount(s: State, cb: PhotoOpCallback): nat {
    (if s.captureCallback == Some(cb) then 1 else 0)
    + (if s.pickCallback == Some(cb) then 1 else 0)
    + (if s.cropCallback == Some(cb) then 1 else 0)
  }

  lemma CancelsCount(slot: Option<PhotoOpCallback>, c: PhotoOpCallback)
    ensures Invocations(Cancels(slot), c) == if slot == Some(c) then 1 else 0
    ensures forall i :: 0 <= i < |Cancels(slot)| && Cancels(slot)[i].Invoked? ==> Cancels(slot)[i].result == Cancel
  {
    if slot.Some? {
      OutcomeCounts(slot.value, Cancel, c, 0);
    }
  }

  /** onDestroy, read as a whole: the three slots' cancellations in order, and the slots cleared. */
  lemma DestroyShape(s: State)
    ensures var t := DestroyStep(s);
      && t == s.(captureCallback := None, pickCallback := None, cropCallback := None, trace := t.trace)
      && t.trace == s.trace + Cancels(s.captureCallback) + Cancels(s.pickCallback) + Cancels(s.cropCallback)
  {
    var s1 := CancelSlot(s, s.captureCallback).(captureCallback := None);
    assert s1.trace == s.trace + Cancels(s.captureCallback);
    var s2 := CancelSlot(s1, s1.pickCallback).(pickCallback := None);
    assert s2.trace == s1.trace + Cancels(s.pickCallback);
  }

  /**
   * onDestroy hands Cancel once to each pending callback (capture, then pick, then crop),
   * invokes nothing else, leaves all three callbacks null and changes nothing more.
   */
  lemma DestroyCancelsPending(s: State)
    ensures var t := DestroyStep(s);
      && t == s.(captureCallback := None, pickCallback := None, cropCallback := None, trace := t.trace)
      && s.trace <= t.trace
      && Appended(s, t) == Cancels(s.captureCallback) + Cancels(s.pickCallback) + Cancels(s.cropCallback)
      && (forall c :: Invocations(Appended(s, t), c) == SlotCount(s, c))
      && forall i :: 0 <= i < |Appended(s, t)| && Appended(s, t)[i].Invoked? ==> Appended(s, t)[i].result == Cancel
  {
    var t := DestroyStep(s);
    DestroyShape(s);
    assert Appended(s, t) == Cancels(s.captureCallback) + Cancels(s.pickCallback) + Cancels(s.cropCallback);
    ThreeCancels(s.captureCallback, s.pickCallback, s.cropCallback);
  }

  /** Cancelling three slots invokes each callback as often as the slots hold it, always with Cancel. */
  lemma ThreeCancels(x: Option<PhotoOpCallback>, y: Option<PhotoOpCallback>, z: Option<PhotoOpCallback>)
    ensures forall c :: Invocations(Cancels(x) + Cancels(y) + Cancels(z), c)
                        == (if x == Some(c) then 1 else 0) + (if y == Some(c) then 1 else 0) + (if z == Some(c) then 1 else 0)
    ensures var a := Cancels(x) + Cancels(y) + Cancels(z);
      forall i :: 0 <= i < |a| && a[i].Invoked? ==> a[i].result == Cancel
  {
    var a1, a2, a3 := Cancels(x), Cancels(y), Cancels(z);
    forall c
      ensures Invocations(a1 + a2 + a3, c)
              == (if x == Some(c) then 1 else 0) + (if y == Some(c) then 1 else 0) + (if z == Some(c) then 1 else 0)
    {
      CancelsCount(x, c);
      CancelsCount(y, c);
      CancelsCount(z, c);
      InvocationsAppend(a1, a2, c);
      InvocationsAppend(a1 + a2, a3, c);
    }
    CancelsCount(x, Host(0));
    CancelsCount(y, Host(0));
    CancelsCount(z, Host(0));
    var a := a1 + a2 + a3;
    forall i | 0 <= i < |a| && a[i].Invoked?
      ensures a[i].result == Cancel
    {
      if i < |a1| {
        assert a[i] == a1[i];
      } else if i < |a1| + |a2| {
        assert a[i] == a2[i - |a1|];
      } else {
        assert a[i] == a3[i - |a1| - |a2|];
      }
    }
  }

  // ---------------------------------------------------------------------------
  // Starting an operation

  /**
   * Without the required permissions, capture, pick and crop give the callback a Failure
   * and leave every field of the fragment as it was.
   */
  lemma PermissionDeniedChangesNothing(s: State, cb: PhotoOpCallback, uri: Uri, fromCamera: bool, env: Env)
    ensures !React(cb, Failure).StartCrop?
    ensures !CheckRequiredPermissions(env, CapturePermissions(env.sdk)) ==>
              CaptureStep(s, cb, env) == s.(trace := s.trace + Outcome(cb, Failure))
    ensures !CheckRequiredPermissions(env, PickPermissions(env.sdk)) ==>
              PickStep(s, cb, env) == s.(trace := s.trace + Outcome(cb, Failure))
    ensures !CheckRequiredPermissions(env, CropPermissions(env.sdk)) ==>
              CropStep(s, uri, cb, env, fromCamera) == s.(trace := s.trace + Outcome(cb, Failure))
  {
  }

  /**
   * A capture that can start stores its callback, remembers the uri of a new file
   * capture_photo_<millis>_<draw>.jpg in the external cache dir and launches the camera
   * with that uri as output.
   */
  lemma CaptureLaunches(s: State, cb: PhotoOpCallback, env: Env)
    requires CheckRequiredPermissions(env, CapturePermissions(env.sdk))
    requires CacheUsable(env.context.value)
    ensures exists file: File ::
      && file.parent == env.context.value.externalCacheDir.value.absolutePath
      && ParseTempFileName(CAPTURE_PREFIX, file.name) == Some(TempName(env.now, env.draw, "jpg"))
      && var uri := if env.sdk >= VERSION_N then env.providerUri(s.authority, file) else env.fileUri(file);
         CaptureStep(s, cb, env)
         == s.(captureCallback := Some(cb), captureFileUri := Some(uri),
               trace := s.trace + [Launched(ImageCapture(uri))])
  {
    var file := GenerateTempFile(env.context.value, env.now, env.draw, CAPTURE_PREFIX).value;
    assert file.parent == env.context.value.externalCacheDir.value.absolutePath;
  }

  /** A pick that can start stores its callback and launches the gallery. */
  lemma PickLaunches(s: State, cb: PhotoOpCallback, env: Env)
    requires CheckRequiredPermissions(env, PickPermissions(env.sdk))
    ensures PickStep(s, cb, env) == s.(pickCallback := Some(cb), trace := s.trace + [Launched(PickImage)])
  {
  }

  /** A crop that can start stores its callback and destination and launches the crop activity. */
  lemma CropLaunches(s: State, uri: Uri, cb: PhotoOpCallback, env: Env, fromCamera: bool)
    requires CheckRequiredPermissions(env, CropPermissions(env.sdk))
    requires CropDestination(env).Some?
    ensures var destination := CropDestination(env).value;
      CropStep(s, uri, cb, env, fromCamera)
      == s.(cropCallback := Some(cb), cropFileUri := Some(destination),
            trace := s.trace + [Launched(CropImage(uri, fromCamera, destination))])
  {
  }

  // ---------------------------------------------------------------------------
  // Permission sets

  /**
   * The capture set is CAMERA followed by the pick set, the crop set is the pick set, and the
   * pick set is READ_MEDIA_IMAGES from Tiramisu on and READ_EXTERNAL_STORAGE before; so
   * whatever lets a capture start also lets the crop that follows it start.
   */
  lemma PermissionSets(sdk: int, ctx: Context)
    ensures CapturePermissions(sdk) == [Camera] + PickPermissions(sdk)
    ensures CropPermissions(sdk) == PickPermissions(sdk)
    ensures PickPermissions(sdk) == if sdk >= VERSION_TIRAMISU then [ReadMediaImages] else [ReadExternalStorage]
    ensures CheckAppPermission(ctx, CapturePermissions(sdk))
            <==> Camera in ctx.granted && CheckAppPermission(ctx, PickPermissions(sdk))
    ensures CheckAppPermission(ctx, CapturePermissions(sdk)) ==> CheckAppPermission(ctx, CropPermissions(sdk))
  {
    var c := CapturePermissions(sdk);
    assert c[0] == Camera && c[1..] == PickPermissions(sdk);
  }

  // ---------------------------------------------------------------------------
  // Saved state and configuration

  /**
   * storeState followed by restoreState brings back the authority; delPhoto is not stored,
   * so it reads back as whatever the bundle held before (false for a fresh bundle).
   */
  lemma StoreRestoreRoundTrip(s: State, b: Bundle, t: State)
    ensures RestoreStep(t, Some(StoreStep(s, b))).authority == s.authority
    ensures RestoreStep(t, Some(StoreStep(s, b))).delPhoto == GetBoolean(b, ARG_DEL_PHOTO)
    ensures !RestoreStep(t, Some(StoreStep(s, map[]))).delPhoto
  {
    assert ARG_DEL_PHOTO != ARG_FILE_PROVIDER_AUTH by {
      assert |ARG_DEL_PHOTO| != |ARG_FILE_PROVIDER_AUTH|;
    }
  }

  /** Restoring from newInstance's arguments gives the authority and delPhoto passed to it. */
  lemma RestoreNewInstanceArguments(s: State, authority: string, delPhoto: bool)
    ensures RestoreStep(s, Some(NewInstanceArguments(authority, delPhoto)))
            == s.(authority := authority, delPhoto := delPhoto)
  {
    assert ARG_DEL_PHOTO != ARG_FILE_PROVIDER_AUTH by {
      assert |ARG_DEL_PHOTO| != |ARG_FILE_PROVIDER_AUTH|;
    }
  }
}
