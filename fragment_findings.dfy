/**
 * Two defects of the fragment, each as the code has it and as it is evidently meant.
 *
 * 1. capture and crop store their callback before the steps that can still fail, and those
 *    failure paths invoke the callback without clearing it; onDestroy then invokes the same
 *    callback a second time, with Cancel.
 * 2. The crop result handler asserts that the capture uri is non-null to delete it; after a
 *    crop that did not follow a capture, that uri is null and the handler throws before it
 *    clears the crop callback and both uris.
 */
module FragmentFindings {
  import opened Platform
  import opened ContextExt
  import opened PhotoOp
  import opened Fragment
  import opened FragmentLemmas

  predicate NoPending(s: State) {
    s.captureCallback.None? && s.pickCallback.None? && s.cropCallback.None?
  }

  // ---------------------------------------------------------------------------
  // 1. A failed capture or crop is answered twice

  /**
   * As written: when the permissions are granted but no temporary file can be made, capture
   * answers Failure and keeps the callback, so destroying the fragment answers it again
   * with Cancel.
   */
  lemma CaptureFailureThenDestroyAnswersTwice(s: State, cb: PhotoOpCallback, env: Env)
    requires NoPending(s)
    requires CheckRequiredPermissions(env, CapturePermissions(env.sdk))
    requires !CacheUsable(env.context.value)
    ensures var t := DestroyStep(CaptureStep(s, cb, env));
      && s.trace <= t.trace
      && Appended(s, t) == Outcome(cb, Failure) + Outcome(cb, Cancel)
      && Invocations(Appended(s, t), cb) == 2
      && (!cb.Host? ==> ResultsFor(Appended(s, t), cb.continuation) == [Failure, Cancel])
  {
    var c := CaptureStep(s, cb, env);
    assert c == s.(captureCallback := Some(cb), trace := s.trace + Outcome(cb, Failure));
    DestroyCancelsPending(c);
    var t := DestroyStep(c);
    AppendedTwice(s, c, t);
    AnsweredTwice(s, c, t, cb);
  }

  /** As written: the same for a crop whose destination cannot be created. */
  lemma CropFailureThenDestroyAnswersTwice(s: State, uri: Uri, cb: PhotoOpCallback, env: Env, fromCamera: bool)
    requires NoPending(s)
    requires CheckRequiredPermissions(env, CropPermissions(env.sdk))
    requires CropDestination(env).None?
    ensures var t := DestroyStep(CropStep(s, uri, cb, env, fromCamera));
      && s.trace <= t.trace
      && Appended(s, t) == Outcome(cb, Failure) + Outcome(cb, Cancel)
      && Invocations(Appended(s, t), cb) == 2
      && (!cb.Host? ==> ResultsFor(Appended(s, t), cb.continuation) == [Failure, Cancel])
  {
    var c := CropStep(s, uri, cb, env, fromCamera);
    assert c == s.(cropCallback := Some(cb), trace := s.trace + Outcome(cb, Failure));
    DestroyCancelsPending(c);
    var t := DestroyStep(c);
    AppendedTwice(s, c, t);
    AnsweredTwice(s, c, t, cb);
  }

  /** The counting shared by the two lemmas above. */
  lemma AnsweredTwice(s: State, c: State, t: State, cb: PhotoOpCallback)
    requires s.trace <= c.trace <= t.trace
    requires Appended(s, c) == Outcome(cb, Failure) && Appended(c, t) == Outcome(cb, Cancel)
    ensures Appended(s, t) == Outcome(cb, Failure) + Outcome(cb, Cancel)
    ensures Invocations(Appended(s, t), cb) == 2
    ensures !cb.Host? ==> ResultsFor(Appended(s, t), cb.continuation) == [Failure, Cancel]
  {
    var k := if cb.Host? then 0 else cb.continuation;
    AppendedTwice(s, c, t);
    InvocationsAppend(Outcome(cb, Failure), Outcome(cb, Cancel), cb);
    OutcomeCounts(cb, Failure, cb, k);
    OutcomeCounts(cb, Cancel, cb, k);
    ResultsForAppend(Outcome(cb, Failure), Outcome(cb, Cancel), k);
  }

  /** capture, storing the callback only once the camera is about to be launched. */
  function CaptureStepCorrected(s: State, cb: PhotoOpCallback, env: Env): State {
    if !CheckRequiredPermissions(env, CapturePermissions(env.sdk)) then
      NotifyStep(s, cb, Failure)
    else
      match GenerateTempFile(env.context.value, env.now, env.draw, CAPTURE_PREFIX)
      case None => NotifyStep(s, cb, Failure)
      case Some(file) =>
        var uri := if env.sdk >= VERSION_N then env.providerUri(s.authority, file) else env.fileUri(file);
        s.(captureCallback := Some(cb), captureFileUri := Some(uri), trace := s.trace + [Launched(ImageCapture(uri))])
  }

  /** crop, storing the callback only once the crop activity is about to be launched. */
  function CropStepCorrected(s: State, uri: Uri, cb: PhotoOpCallback, env: Env, fromCamera: bool := true): State {
    if !CheckRequiredPermissions(env, CropPermissions(env.sdk)) then
      NotifyStep(s, cb, Failure)
    else
      match CropDestination(env)
      case None => NotifyStep(s, cb, Failure)
      case Some(destination) =>
        s.(cropCallback := Some(cb), cropFileUri := Some(destination),
           trace := s.trace + [Launched(CropImage(uri, fromCamera, destination))])
  }

  /**
   * Corrected capture: the callback is either answered now or left pending, never both, and
   * it is left pending exactly when the camera is launched; so after onDestroy it has been
   * answered exactly once. Whenever the camera is launched the step is the original one.
   */
  lemma CorrectedCaptureAnswersOnce(s: State, cb: PhotoOpCallback, env: Env)
    requires SlotCount(s, cb) == 0
    ensures var c := CaptureStepCorrected(s, cb, env);
      var launches := CheckRequiredPermissions(env, CapturePermissions(env.sdk)) && CacheUsable(env.context.value);
      && s.trace <= c.trace
      && (c.captureCallback == Some(cb) <==> launches)
      && Invocations(Appended(s, c), cb) == (if launches then 0 else 1)
      && (launches ==> c == CaptureStep(s, cb, env))
      && Invocations(Appended(s, DestroyStep(c)), cb) == 1
  {
    var c := CaptureStepCorrected(s, cb, env);
    var launches := CheckRequiredPermissions(env, CapturePermissions(env.sdk)) && CacheUsable(env.context.value);
    if launches {
      assert Appended(s, c) == [Launched(ImageCapture(c.captureFileUri.value))];
      NoInvocations(Appended(s, c), cb);
    } else {
      assert c == s.(trace := s.trace + Outcome(cb, Failure));
      assert Appended(s, c) == Outcome(cb, Failure);
      OutcomeCounts(cb, Failure, cb, 0);
    }
    DestroyPendingOnce(s, c, cb);
  }

  /** Corrected crop: the same guarantee, for the crop slot. */
  lemma CorrectedCropAnswersOnce(s: State, uri: Uri, cb: PhotoOpCallback, env: Env, fromCamera: bool)
    requires SlotCount(s, cb) == 0
    ensures var c := CropStepCorrected(s, uri, cb, env, fromCamera);
      var launches := CheckRequiredPermissions(env, CropPermissions(env.sdk)) && CropDestination(env).Some?;
      && s.trace <= c.trace
      && (c.cropCallback == Some(cb) <==> launches)
      && Invocations(Appended(s, c), cb) == (if launches then 0 else 1)
      && (launches ==> c == CropStep(s, uri, cb, env, fromCamera))
      && Invocations(Appended(s, DestroyStep(c)), cb) == 1
  {
    var c := CropStepCorrected(s, uri, cb, env, fromCamera);
    var launches := CheckRequiredPermissions(env, CropPermissions(env.sdk)) && CropDestination(env).Some?;
    if launches {
      assert Appended(s, c) == [Launched(CropImage(uri, fromCamera, CropDestination(env).value))];
      NoInvocations(Appended(s, c), cb);
    } else {
      assert c == s.(trace := s.trace + Outcome(cb, Failure));
      assert Appended(s, c) == Outcome(cb, Failure);
      OutcomeCounts(cb, Failure, cb, 0);
    }
    DestroyPendingOnce(s, c, cb);
  }

  /** A callback answered now or else pending in one slot is answered once in all after onDestroy. */
  lemma DestroyPendingOnce(s: State, c: State, cb: PhotoOpCallback)
    requires s.trace <= c.trace
    requires Invocations(Appended(s, c), cb) + SlotCount(c, cb) == 1
    ensures Invocations(Appended(s, DestroyStep(c)), cb) == 1
  {
    var t := DestroyStep(c);
    DestroyCancelsPending(c);
    AppendedTwice(s, c, t);
    InvocationsAppend(Appended(s, c), Appended(c, t), cb);
  }

  // ---------------------------------------------------------------------------
  // 2. The crop result handler dereferences a null capture uri

  /**
   * As written: a fragment made by newInstance(authority) keeps delPhoto = true; a crop
   * called on it directly has no captured original, so when the crop result comes back the
   * handler throws on the null capture uri, and the crop callback stays pending.
   */
  lemma DirectCropResultThrows(authority: string, uri: Uri, cb: PhotoOpCallback, env: Env,
                               resultCode: int, data: Option<Uri>, deliveryEnv: Env)
    requires CheckRequiredPermissions(env, CropPermissions(env.sdk)) && CropDestination(env).Some?
    requires deliveryEnv.context.Some?
    ensures var s0 := RestoreStep(NewFragmentState(), Some(NewInstanceArguments(authority, true)));
      var s1 := CropStep(s0, uri, cb, env);
      var t := DeliverStep(s1, CropLauncher, resultCode, data, deliveryEnv);
      && s0.delPhoto && s1.captureFileUri.None?
      && s1.trace <= t.trace && |Appended(s1, t)| > 0
      && Appended(s1, t)[|Appended(s1, t)| - 1] == Crashed(NullCaptureFileUri)
      && t.cropCallback.Some?
  {
    var s0 := RestoreStep(NewFragmentState(), Some(NewInstanceArguments(authority, true)));
    RestoreNewInstanceArguments(NewFragmentState(), authority, true);
    var s1 := CropStep(s0, uri, cb, env);
    CropLaunches(s0, uri, cb, env, true);
    var r := MapResult(resultCode, s1.cropFileUri);
    var u := Fire(s1, s1.cropCallback, r, deliveryEnv);
    FireEvents(s1, s1.cropCallback, r, deliveryEnv);
    if React(cb, r).StartCrop? {
      assert u.cropCallback.Some?;
    }
    CropCompletion(s1, resultCode, data, deliveryEnv);
  }

  /** The end of the crop result handler, deleting the original only when there is one. */
  function FinishCropCorrected(s: State, env: Env): State {
    if s.delPhoto && env.context.None? then
      s.(trace := s.trace + [Crashed(NotAttached)])
    else
      var s1 := if s.delPhoto && s.captureFileUri.Some? then s.(trace := s.trace + [Deleted(s.captureFileUri.value)]) else s;
      s1.(captureFileUri := None, cropCallback := None, cropFileUri := None)
  }

  function DeliverCropCorrected(s: State, resultCode: int, env: Env): State {
    FinishCropCorrected(Fire(s, s.cropCallback, MapResult(resultCode, s.cropFileUri), env), env)
  }

  /**
   * Corrected: while the fragment is attached, a crop result always clears the crop callback
   * and both uris without throwing, answers the pending callback exactly once, and deletes
   * exactly the captured original when delPhoto asks for it and there is one.
   */
  lemma CorrectedCropCompletion(s: State, resultCode: int, env: Env)
    requires env.context.Some?
    ensures var t := DeliverCropCorrected(s, resultCode, env);
      && s.trace <= t.trace
      && t.captureFileUri.None? && t.cropFileUri.None? && t.cropCallback.None?
      && NoCrash(Appended(s, t))
      && (s.cropCallback.Some? ==> Invocations(Appended(s, t), s.cropCallback.value) == 1)
      && forall x :: Deleted(x) in Appended(s, t) <==> s.delPhoto && s.captureFileUri == Some(x)
  {
    CorrectedCropShape(s, resultCode, env);
    CompletionEvents(s, Fire(s, s.cropCallback, MapResult(resultCode, s.cropFileUri), env),
                     DeliverCropCorrected(s, resultCode, env));
  }

  /** The events of a handler that invokes the callback and then appends only CorrectedTail. */
  lemma CompletionEvents(s: State, u: State, t: State)
    requires s.trace <= u.trace
    requires s.cropCallback.Some? ==> Invocations(Appended(s, u), s.cropCallback.value) == 1
    requires forall i :: 0 <= i < |Appended(s, u)| ==> !Appended(s, u)[i].Deleted? && !Appended(s, u)[i].Crashed?
    requires t.trace == u.trace + CorrectedTail(s)
    ensures s.trace <= t.trace
    ensures NoCrash(Appended(s, t))
    ensures s.cropCallback.Some? ==> Invocations(Appended(s, t), s.cropCallback.value) == 1
    ensures forall x :: Deleted(x) in Appended(s, t) <==> s.delPhoto && s.captureFileUri == Some(x)
  {
    var a := Appended(s, u);
    var tail := CorrectedTail(s);
    assert Appended(s, t) == a + tail;
    if s.cropCallback.Some? {
      NoInvocations(tail, s.cropCallback.value);
      InvocationsAppend(a, tail, s.cropCallback.value);
    }
    ConcatEvents(a, tail);
  }

  /** The one event the corrected handler adds after the callback: the deletion, if any. */
  function CorrectedTail(s: State): seq<Event> {
    if s.delPhoto && s.captureFileUri.Some? then [Deleted(s.captureFileUri.value)] else []
  }

  lemma CorrectedCropShape(s: State, resultCode: int, env: Env)
    requires env.context.Some?
    ensures var u := Fire(s, s.cropCallback, MapResult(resultCode, s.cropFileUri), env);
      var t := DeliverCropCorrected(s, resultCode, env);
      && s.trace <= u.trace
      && (s.cropCallback.Some? ==> Invocations(Appended(s, u), s.cropCallback.value) == 1)
      && (forall i :: 0 <= i < |Appended(s, u)| ==> !Appended(s, u)[i].Deleted? && !Appended(s, u)[i].Crashed?)
      && t == u.(captureFileUri := None, cropCallback := None, cropFileUri := None, trace := u.trace + CorrectedTail(s))
  {
    FireEvents(s, s.cropCallback, MapResult(resultCode, s.cropFileUri), env);
  }

  /** Where the original handler does not throw, the corrected one makes the same step. */
  lemma CorrectedCropAgrees(s: State, resultCode: int, data: Option<Uri>, env: Env)
    requires !s.delPhoto || (env.context.Some? && s.captureFileUri.Some?)
    ensures DeliverCropCorrected(s, resultCode, env) == DeliverStep(s, CropLauncher, resultCode, data, env)
  {
    FireEvents(s, s.cropCallback, MapResult(resultCode, s.cropFileUri), env);
  }
}
