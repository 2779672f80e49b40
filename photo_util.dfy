/**
 * The suspending entry points: capturePhoto and pickPhoto chain a first stage into a crop,
 * cropPhoto runs a crop alone, and all three reuse the one fragment registered under
 * FRAGMENT_TAG or create it.
 *
 * A suspended caller is a Continuation; what it receives is read off the fragment's trace
 * with ResultsFor.
 */
module PhotoUtil {
  import opened Platform
  import opened ContextExt
  import opened PhotoOp
  import opened Fragment
  import opened FragmentLemmas

  /** The fragment manager, as far as the library uses it: fragments registered by tag. */
  class FragmentManager {
    var fragments: map<string, PhotoFragment>

    constructor ()
      ensures fragments == map[]
    {
      fragments := map[];
    }
  }

  /** The fragment registered under FRAGMENT_TAG, if any, as a frame. */
  function Tagged(fm: FragmentManager): set<PhotoFragment>
    reads fm
  {
    if FRAGMENT_TAG in fm.fragments then {fm.fragments[FRAGMENT_TAG]} else {}
  }

  /** A fragment made by newInstance once its arguments have been restored. */
  function Configured(fileProviderAuthority: string, delPhoto: bool): State {
    NewFragmentState().(authority := fileProviderAuthority, delPhoto := delPhoto)
  }

  /**
   * getPhotoFragment: the fragment under FRAGMENT_TAG, with its delPhoto overwritten, or else
   * a new one from newInstance, registered under the tag. Running the pending transaction
   * restores the new fragment's arguments and runs the onCreate check; `ok` is false when
   * that check throws.
   */
  method GetPhotoFragment(fm: FragmentManager, fileProviderAuthority: string, delPhoto: bool := true)
    returns (fragment: PhotoFragment, ok: bool)
    modifies fm, Tagged(fm)
    ensures fm.fragments == old(fm.fragments)[FRAGMENT_TAG := fragment]
    ensures old(FRAGMENT_TAG in fm.fragments) ==>
              && fragment == old(fm.fragments[FRAGMENT_TAG]) && ok
              && fragment.Snapshot() == old(fm.fragments[FRAGMENT_TAG].Snapshot()).(delPhoto := delPhoto)
    ensures !old(FRAGMENT_TAG in fm.fragments) ==>
              && fresh(fragment)
              && fragment.arguments == NewInstanceArguments(fileProviderAuthority, delPhoto)
              && fragment.Snapshot() == Configured(fileProviderAuthority, delPhoto)
              && (ok <==> fileProviderAuthority != "")
  {
    if FRAGMENT_TAG in fm.fragments {
      fragment := fm.fragments[FRAGMENT_TAG];
      fragment.delPhoto := delPhoto;
      ok := true;
    } else {
      fragment := new PhotoFragment.NewInstance(fileProviderAuthority, delPhoto);
      fm.fragments := fm.fragments[FRAGMENT_TAG := fragment];
      fragment.RestoreState(Some(fragment.arguments));
      RestoreNewInstanceArguments(NewFragmentState(), fileProviderAuthority, delPhoto);
      ok := fragment.OnCreate();
    }
  }

  /**
   * capturePhoto: capture into a callback that forwards a success into a crop from the
   * camera (fromCamera = true) and resumes `k` with any other result; the fragment's
   * delPhoto is the caller's.
   */
  method CapturePhoto(fm: FragmentManager, authority: string, k: Continuation, env: Env, delPhoto: bool := true)
    returns (ok: bool)
    modifies fm, Tagged(fm)
    ensures FRAGMENT_TAG in fm.fragments && fm.fragments.Keys == old(fm.fragments.Keys) + {FRAGMENT_TAG}
    ensures old(FRAGMENT_TAG in fm.fragments) ==>
              && ok && fm.fragments == old(fm.fragments)
              && fm.fragments[FRAGMENT_TAG].Snapshot()
                 == CaptureStep(old(fm.fragments[FRAGMENT_TAG].Snapshot()).(delPhoto := delPhoto), CropThenResume(true, k), env)
    ensures !old(FRAGMENT_TAG in fm.fragments) ==>
              && fresh(fm.fragments[FRAGMENT_TAG])
              && (ok <==> authority != "")
              && fm.fragments[FRAGMENT_TAG].Snapshot()
                 == if ok then CaptureStep(Configured(authority, delPhoto), CropThenResume(true, k), env)
                    else Configured(authority, delPhoto)
  {
    var fragment;
    fragment, ok := GetPhotoFragment(fm, authority, delPhoto);
    if ok {
      fragment.Capture(CropThenResume(true, k), env);
    }
  }

  /** pickPhoto: delPhoto = false, then pick into a callback that chains a crop with fromCamera = false. */
  method PickPhoto(fm: FragmentManager, authority: string, k: Continuation, env: Env)
    returns (ok: bool)
    modifies fm, Tagged(fm)
    ensures FRAGMENT_TAG in fm.fragments && fm.fragments.Keys == old(fm.fragments.Keys) + {FRAGMENT_TAG}
    ensures old(FRAGMENT_TAG in fm.fragments) ==>
              && ok && fm.fragments == old(fm.fragments)
              && fm.fragments[FRAGMENT_TAG].Snapshot()
                 == PickStep(old(fm.fragments[FRAGMENT_TAG].Snapshot()).(delPhoto := false), CropThenResume(false, k), env)
    ensures !old(FRAGMENT_TAG in fm.fragments) ==>
              && fresh(fm.fragments[FRAGMENT_TAG])
              && (ok <==> authority != "")
              && fm.fragments[FRAGMENT_TAG].Snapshot()
                 == if ok then PickStep(Configured(authority, false), CropThenResume(false, k), env)
                    else Configured(authority, false)
  {
    var fragment;
    fragment, ok := GetPhotoFragment(fm, authority, false);
    if ok {
      fragment.Pick(CropThenResume(false, k), env);
    }
  }

  /** cropPhoto: delPhoto = false, then a crop with the default fromCamera = true that resumes `k`. */
  method CropPhoto(fm: FragmentManager, authority: string, sourceUri: Uri, k: Continuation, env: Env)
    returns (ok: bool)
    modifies fm, Tagged(fm)
    ensures FRAGMENT_TAG in fm.fragments && fm.fragments.Keys == old(fm.fragments.Keys) + {FRAGMENT_TAG}
    ensures old(FRAGMENT_TAG in fm.fragments) ==>
              && ok && fm.fragments == old(fm.fragments)
              && fm.fragments[FRAGMENT_TAG].Snapshot()
                 == CropStep(old(fm.fragments[FRAGMENT_TAG].Snapshot()).(delPhoto := false), sourceUri, ResumeWith(k), env, true)
    ensures !old(FRAGMENT_TAG in fm.fragments) ==>
              && fresh(fm.fragments[FRAGMENT_TAG])
              && (ok <==> authority != "")
              && fm.fragments[FRAGMENT_TAG].Snapshot()
                 == if ok then CropStep(Configured(authority, false), sourceUri, ResumeWith(k), env, true)
                    else Configured(authority, false)
  {
    var fragment;
    fragment, ok := GetPhotoFragment(fm, authority, false);
    if ok {
      fragment.Crop(sourceUri, ResumeWith(k), env);
    }
  }

  // ---------------------------------------------------------------------------
  // The two-stage chain

  /** Whether a crop started under `env` reaches the crop activity. */
  predicate CropStarts(env: Env) {
    CheckRequiredPermissions(env, CropPermissions(env.sdk)) && CropDestination(env).Some?
  }

  /**
   * The chaining callback: a first-stage success runs one crop of that uri with the same
   * fromCamera flag and a callback resuming the same continuation; any other result is
   * passed back unchanged and no crop happens.
   */
  lemma ChainDispatch(s: State, fromCamera: bool, k: Continuation, r: PhotoOpResult, env: Env)
    ensures r.Success? ==>
              InvokeStep(s, CropThenResume(fromCamera, k), r, env)
              == CropStep(s.(trace := s.trace + [Invoked(CropThenResume(fromCamera, k), r)]),
                          r.uri, ResumeWith(k), env, fromCamera)
    ensures !r.Success? ==>
              InvokeStep(s, CropThenResume(fromCamera, k), r, env)
              == s.(trace := s.trace + [Invoked(CropThenResume(fromCamera, k), r), Resumed(k, r)])
  {
  }

  /**
   * What the caller receives from the first stage: its result itself when that is not a
   * success; after a success nothing when the crop starts, and Failure when it cannot.
   * So a first-stage success never reaches the caller.
   */
  lemma FirstStageResult(s: State, fromCamera: bool, k: Continuation, r: PhotoOpResult, env: Env)
    ensures var t := InvokeStep(s, CropThenResume(fromCamera, k), r, env);
      && (!r.Success? ==> ResultsFor(Appended(s, t), k) == [r])
      && (r.Success? ==> ResultsFor(Appended(s, t), k) == if CropStarts(env) then [] else [Failure])
      && forall x :: x in ResultsFor(Appended(s, t), k) ==> !x.Success?
  {
    var cb := CropThenResume(fromCamera, k);
    if r.Success? {
      FirstStageSuccess(s, fromCamera, k, r.uri, env);
    } else {
      var t := InvokeStep(s, cb, r, env);
      assert Appended(s, t) == Outcome(cb, r);
      OutcomeCounts(cb, r, cb, k);
    }
  }

  lemma FirstStageSuccess(s: State, fromCamera: bool, k: Continuation, uri: Uri, env: Env)
    ensures var t := InvokeStep(s, CropThenResume(fromCamera, k), Success(uri), env);
      ResultsFor(Appended(s, t), k) == if CropStarts(env) then [] else [Failure]
  {
    var cb := CropThenResume(fromCamera, k);
    var r := Success(uri);
    var t := InvokeStep(s, cb, r, env);
    var s1 := s.(trace := s.trace + [Invoked(cb, r)]);
    assert t == CropStep(s1, uri, ResumeWith(k), env, fromCamera);
    assert Appended(s, t) == [Invoked(cb, r)] + Appended(s1, t);
    ResultsForAppend([Invoked(cb, r)], Appended(s1, t), k);
    assert ResultsFor([Invoked(cb, r)], k) == [] by {
      assert [Invoked(cb, r)][..0] == [];
    }
    if CropStarts(env) {
      assert Appended(s1, t) == [Launched(CropImage(uri, fromCamera, CropDestination(env).value))];
      NoResults(Appended(s1, t), k);
    } else {
      assert Appended(s1, t) == Outcome(ResumeWith(k), Failure);
      OutcomeCounts(ResumeWith(k), Failure, cb, k);
    }
  }

  /** The crop stage's callback resumes its continuation once, with the crop result. */
  lemma CropStageResult(s: State, k: Continuation, resultCode: int, data: Option<Uri>, env: Env)
    requires s.cropCallback == Some(ResumeWith(k))
    ensures var t := DeliverStep(s, CropLauncher, resultCode, data, env);
      ResultsFor(Appended(s, t), k) == [MapResult(resultCode, s.cropFileUri)]
  {
    var r := MapResult(resultCode, s.cropFileUri);
    var u := Fire(s, s.cropCallback, r, env);
    var t := DeliverStep(s, CropLauncher, resultCode, data, env);
    assert Appended(s, u) == Outcome(ResumeWith(k), r);
    OutcomeCounts(ResumeWith(k), r, ResumeWith(k), k);
    DeliverCropTail(s, resultCode, data, env);
    AppendedTwice(s, u, t);
    assert forall i :: 0 <= i < |Appended(u, t)| ==> !Appended(u, t)[i].Resumed?;
    NoResults(Appended(u, t), k);
    ResultsForAppend(Appended(s, u), Appended(u, t), k);
  }

  /**
   * The second and third steps of capturePhoto and pickPhoto: when the first stage succeeds
   * and the crop starts, the crop gets the first stage's uri and flag, and when the crop
   * result comes back the caller receives exactly that result (a success only ever carries
   * the crop's destination); both uris and both callbacks are then clear.
   */
  lemma ChainedCropReturnsCropResult(
    s: State, kind: Launcher, fromCamera: bool, k: Continuation, data: Option<Uri>,
    cropCode: int, cropData: Option<Uri>, env: Env, cropEnv: Env)
    requires kind != CropLauncher && Slot(s, kind) == Some(CropThenResume(fromCamera, k))
    requires LauncherUri(s, kind, data).Some?
    requires CropStarts(env)
    requires s.delPhoto ==> cropEnv.context.Some? && s.captureFileUri.Some?
    ensures var s2 := DeliverStep(s, kind, RESULT_OK, data, env);
      var s3 := DeliverStep(s2, CropLauncher, cropCode, cropData, cropEnv);
      var destination := CropDestination(env).value;
      && s2.trace == s.trace + [Invoked(CropThenResume(fromCamera, k), Success(LauncherUri(s, kind, data).value)),
                                Launched(CropImage(LauncherUri(s, kind, data).value, fromCamera, destination))]
      && s.trace <= s3.trace
      && ResultsFor(Appended(s, s3), k) == [MapResult(cropCode, Some(destination))]
      && Slot(s3, kind).None? && s3.cropCallback.None?
      && s3.captureFileUri.None? && s3.cropFileUri.None?
  {
    ChainedCropLaunch(s, kind, fromCamera, k, data, env);
    var s2 := DeliverStep(s, kind, RESULT_OK, data, env);
    ChainedCropTail(s, s2, kind, k, cropCode, cropData, cropEnv);
  }

  /** The first stage's result handler, when it succeeds and the chained crop starts. */
  lemma ChainedCropLaunch(s: State, kind: Launcher, fromCamera: bool, k: Continuation, data: Option<Uri>, env: Env)
    requires kind != CropLauncher && Slot(s, kind) == Some(CropThenResume(fromCamera, k))
    requires LauncherUri(s, kind, data).Some?
    requires CropStarts(env)
    ensures var s2 := DeliverStep(s, kind, RESULT_OK, data, env);
      && s2.trace == s.trace + [Invoked(CropThenResume(fromCamera, k), Success(LauncherUri(s, kind, data).value)),
                                Launched(CropImage(LauncherUri(s, kind, data).value, fromCamera, CropDestination(env).value))]
      && s2.cropCallback == Some(ResumeWith(k)) && s2.cropFileUri == CropDestination(env)
      && s2.captureFileUri == s.captureFileUri && s2.delPhoto == s.delPhoto
      && Slot(s2, kind).None?
  {
    var r := Success(LauncherUri(s, kind, data).value);
    var cb := CropThenResume(fromCamera, k);
    DeliverFireThenClear(s, kind, RESULT_OK, data, env);
    var s1 := s.(trace := s.trace + [Invoked(cb, r)]);
    assert InvokeStep(s, cb, r, env) == CropStep(s1, r.uri, ResumeWith(k), env, fromCamera);
  }

  /** The crop result of the chain: the caller gets it, and everything is cleared. */
  lemma ChainedCropTail(s: State, s2: State, kind: Launcher, k: Continuation,
                        cropCode: int, cropData: Option<Uri>, cropEnv: Env)
    requires kind != CropLauncher
    requires s.trace <= s2.trace && forall i :: 0 <= i < |Appended(s, s2)| ==> !Appended(s, s2)[i].Resumed?
    requires s2.cropCallback == Some(ResumeWith(k)) && s2.cropFileUri.Some? && Slot(s2, kind).None?
    requires s2.delPhoto ==> cropEnv.context.Some? && s2.captureFileUri.Some?
    ensures var s3 := DeliverStep(s2, CropLauncher, cropCode, cropData, cropEnv);
      && s.trace <= s3.trace
      && ResultsFor(Appended(s, s3), k) == [MapResult(cropCode, s2.cropFileUri)]
      && Slot(s3, kind).None? && s3.cropCallback.None?
      && s3.captureFileUri.None? && s3.cropFileUri.None?
  {
    var s3 := DeliverStep(s2, CropLauncher, cropCode, cropData, cropEnv);
    var u := Fire(s2, s2.cropCallback, MapResult(cropCode, s2.cropFileUri), cropEnv);
    FireEvents(s2, s2.cropCallback, MapResult(cropCode, s2.cropFileUri), cropEnv);
    assert Slot(s3, kind) == Slot(u, kind);
    CropStageResult(s2, k, cropCode, cropData, cropEnv);
    CropCompletion(s2, cropCode, cropData, cropEnv);
    AppendedTwice(s, s2, s3);
    NoResults(Appended(s, s2), k);
    ResultsForAppend(Appended(s, s2), Appended(s2, s3), k);
  }
}
