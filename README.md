# dk-tiny-photo-picker in Dafny

The photo-picker library lets a screen ask for a photo in one suspending call. The three calls are:

- `capturePhoto`: take a picture, then crop it.
- `pickPhoto`: pick an image from the gallery, then crop it.
- `cropPhoto`: crop an image the caller already has.

All three run on one headless `PhotoFragment`, which the fragment manager registers under `"photo_fragment"`. The fragment does three things:

- It launches the camera, the gallery picker or the crop activity.
- It stores the callback of each pending operation.
- When a result comes back, it maps the result to `Success(uri)`, `Failure` or `Cancel` and hands it to that callback.

For `capturePhoto` and `pickPhoto`, the callback of the first stage chains a crop of the same fragment on success. Only the crop's result reaches the suspended caller. Any other result is passed back unchanged.

The project has these modules:

- `Platform`: the Android values the library reads. These are the result codes, the API levels, the permissions, the context with its external cache dir, and files and uris.
- `ContextExt`: the `Context` extensions.
  - Temporary files are named `prefix_<millis>_<draw>.<extension>` and placed in an emulated external cache dir.
  - `checkAppPermission` requires every permission to be granted.
  - A name is proved to read back into its three parts.
- `PhotoOp`: `PhotoOpResult` and the three kinds of callback the library creates:
  - a callback of the host application;
  - the lambda that resumes a coroutine;
  - the object `genCropPhotoCb` builds, which forwards a success into a crop.

  It also holds what invoking each callback does.
- `Fragment`: `PhotoFragment`, given twice:
  - as a value `State` with one step function per operation;
  - as the class `PhotoFragment`, whose methods update its fields statement by statement, as the Kotlin does. Each method is proved to make exactly its step function's step.

  What the fragment does outside itself goes into a `trace` field, in order. That covers:
  - callback invocations;
  - continuation resumptions;
  - launched activities;
  - deleted originals;
  - exceptions.
- `FragmentLemmas`: what the steps promise.
  - Every result is answered exactly once.
  - `onDestroy` cancels every pending operation once.
  - A denied permission changes nothing but answers `Failure`.
  - A crop result clears the crop state.
  - The launch paths.
  - The saved-state round trip.
- `PhotoUtil`: the `FragmentManager` (fragments by tag), `getPhotoFragment` and the three suspending calls as methods. It also has lemmas about the two-stage chain.
- `FragmentFindings`: two defects of the fragment, each modelled as the code has it and corrected.

The platform is a parameter `Env` of every step. It holds:

- the API level;
- the fragment's context, which is absent while the fragment is detached;
- the clock reading and the random draw;
- `FileProvider.getUriForFile`, `Uri.fromFile` and `contentResolver.insert` as functions. The insert may return null.

A suspended caller is a `Continuation`, identified by a number. What it is resumed with is read from the trace with `ResultsFor`.

## Model

| member | source | states |
|---|---|---|
| ContextExt.NatToStringRoundTrip | photo-picker/src/main/java/com/dakingx/photopicker/ext/ContextExt.kt:14 | the decimal text a string template gives a non-negative draw reads back as that draw |
| ContextExt.LongToStringRoundTrip | photo-picker/src/main/java/com/dakingx/photopicker/ext/ContextExt.kt:14 | the text of a Long clock reading, with its minus sign when negative, reads back as that reading |
| ContextExt.TempFileNameRoundTrip | photo-picker/src/main/java/com/dakingx/photopicker/ext/ContextExt.kt:13-14 | a temporary file name parses back, under its prefix, into exactly the clock reading, the draw and the extension it was built from |
| ContextExt.TempFileNameInjective | photo-picker/src/main/java/com/dakingx/photopicker/ext/ContextExt.kt:13-14 | two temporary names under one prefix are equal only if their clock readings, draws and extensions are all equal |
| ContextExt.GenerateTempFile2 | photo-picker/src/main/java/com/dakingx/photopicker/ext/ContextExt.kt:16-23 | a file is returned exactly when the external cache dir exists and is emulated storage; it lies in that dir and bears the given name |
| ContextExt.GenerateTempFile | photo-picker/src/main/java/com/dakingx/photopicker/ext/ContextExt.kt:13-14 | the same null condition; the file lies in the external cache dir and its name parses back into the current time, the draw in [0, 9999) and the extension, "jpg" unless given |
| ContextExt.CheckAppPermission | photo-picker/src/main/java/com/dakingx/photopicker/ext/ContextExt.kt:35-37 | true exactly when every listed permission is granted (so true for an empty list) |
| PhotoOp.React | photo-picker/src/main/java/com/dakingx/photopicker/util/PhotoUtil.kt:37-55 | the chaining callback starts a crop exactly on a success, of that uri, with its own fromCamera flag and a next callback resuming its own continuation; the chaining callback on a non-success, and the resuming lambda always, resume their continuation with the very result |
| Fragment.MapResult | photo-picker/src/main/java/com/dakingx/photopicker/fragment/PhotoFragment.kt:81-98 | RESULT_OK with a uri is Success of that uri, RESULT_OK without one is Failure, RESULT_CANCELED is Cancel, every other code is Failure; each direction of each case |
| Fragment.CropStep | photo-picker/src/main/java/com/dakingx/photopicker/fragment/PhotoFragment.kt:238-291 | crop leaves the authority, delPhoto, the capture uri and the capture and pick callbacks alone, only appends to the trace, invokes no callback but its own, and never deletes or throws |
| Fragment.InvokeStep | photo-picker/src/main/java/com/dakingx/photopicker/util/PhotoUtil.kt:42-53 | invoking a callback, including one that chains a crop, first records that invocation, touches nothing but the crop state and the trace, and never deletes or throws |
| Fragment.CaptureStep | photo-picker/src/main/java/com/dakingx/photopicker/fragment/PhotoFragment.kt:192-218 | capture leaves the authority, delPhoto and the pick and crop state alone, always answers or launches, and changes the capture callback or uri only while storing the new callback |
| Fragment.PickStep | photo-picker/src/main/java/com/dakingx/photopicker/fragment/PhotoFragment.kt:220-233 | pick changes only the pick callback, to the new one, and the trace, and always answers or launches |
| Fragment.CropDestination | photo-picker/src/main/java/com/dakingx/photopicker/fragment/PhotoFragment.kt:252-268 | the crop output is named crop_photo_<now>_<draw>.jpg (recovered by parsing); from Q on it is a new MediaStore image, below Q a file of that name in the external cache dir, or none when that dir is unusable |
| Fragment.DeliverStep | photo-picker/src/main/java/com/dakingx/photopicker/fragment/PhotoFragment.kt:78-154 | a result handler keeps the authority and delPhoto and extends the trace; the capture and pick handlers empty their own slot, keep the capture uri and leave the other kind's callback alone |
| Fragment.DestroyStep | photo-picker/src/main/java/com/dakingx/photopicker/fragment/PhotoFragment.kt:181-190 | onDestroy empties the three callback slots, extends the trace and changes nothing else |
| Fragment.RestoreStep | photo-picker/src/main/java/com/dakingx/photopicker/fragment/PhotoFragment.kt:156-165 | restoring changes only the authority and delPhoto: a missing bundle changes nothing; a present one sets delPhoto from it and keeps the authority unless it holds one |
| Fragment.PhotoFragment.NewInstance | photo-picker/src/main/java/com/dakingx/photopicker/fragment/PhotoFragment.kt:56-76 | a new fragment has an empty authority, delPhoto true, no uris and no callbacks; its arguments hold the authority and delPhoto (true unless given) |
| Fragment.PhotoFragment.RestoreState | photo-picker/src/main/java/com/dakingx/photopicker/fragment/PhotoFragment.kt:156-165 | the new state is RestoreStep of the old: the authority is taken only when the bundle holds one; delPhoto is the bundle's boolean, false when absent |
| Fragment.PhotoFragment.StoreState | photo-picker/src/main/java/com/dakingx/photopicker/fragment/PhotoFragment.kt:167-171 | the stored bundle holds the authority under its key and is the old bundle at every other key |
| Fragment.PhotoFragment.OnCreate | photo-picker/src/main/java/com/dakingx/photopicker/fragment/PhotoFragment.kt:173-179 | creation succeeds exactly when the authority is not empty |
| Fragment.PhotoFragment.Notify | photo-picker/src/main/java/com/dakingx/photopicker/util/PhotoUtil.kt:50-52 | invoking a callback that starts no crop makes NotifyStep's step: the invocation, then the resumption of its continuation if it has one |
| Fragment.PhotoFragment.Invoke | photo-picker/src/main/java/com/dakingx/photopicker/util/PhotoUtil.kt:42-53 | invoking a callback makes InvokeStep's step, running the chained crop on this fragment |
| Fragment.PhotoFragment.Capture | photo-picker/src/main/java/com/dakingx/photopicker/fragment/PhotoFragment.kt:192-218 | the new state is CaptureStep of the old |
| Fragment.PhotoFragment.Pick | photo-picker/src/main/java/com/dakingx/photopicker/fragment/PhotoFragment.kt:220-233 | the new state is PickStep of the old |
| Fragment.PhotoFragment.Crop | photo-picker/src/main/java/com/dakingx/photopicker/fragment/PhotoFragment.kt:238-291 | the new state is CropStep of the old |
| Fragment.PhotoFragment.DeliverResult | photo-picker/src/main/java/com/dakingx/photopicker/fragment/PhotoFragment.kt:79-154 | the three launcher handlers: the new state is DeliverStep of the old, crashes included |
| Fragment.PhotoFragment.OnDestroy | photo-picker/src/main/java/com/dakingx/photopicker/fragment/PhotoFragment.kt:181-190 | the new state is DestroyStep of the old |
| FragmentLemmas.InvokeNonSuccessIsNotify | photo-picker/src/main/java/com/dakingx/photopicker/util/PhotoUtil.kt:50-52 | a non-success never starts a crop, whatever the callback |
| FragmentLemmas.InvokeInvokesOnce | photo-picker/src/main/java/com/dakingx/photopicker/util/PhotoUtil.kt:42-53 | invoking a callback invokes it exactly once, however far its chained crop goes |
| FragmentLemmas.FireEvents | photo-picker/src/main/java/com/dakingx/photopicker/fragment/PhotoFragment.kt:85-88 | handing a result to a slot's callback: nothing when the slot is empty; else the first new event is that invocation, the callback is invoked once, and nothing is deleted or thrown |
| FragmentLemmas.DeliverFireThenClear | photo-picker/src/main/java/com/dakingx/photopicker/fragment/PhotoFragment.kt:100-124 | the capture and pick handlers add only the callback's events, then empty their slot |
| FragmentLemmas.DeliverCropTail | photo-picker/src/main/java/com/dakingx/photopicker/fragment/PhotoFragment.kt:147-153 | after the callback, the crop handler adds at most one event, never an invocation, and empties the crop slot unless it throws |
| FragmentLemmas.DeliverAnswersOnce | photo-picker/src/main/java/com/dakingx/photopicker/fragment/PhotoFragment.kt:79-154 | a pending callback is answered exactly once with the mapped result of its launcher's uri; an empty slot answers nobody; the slot is empty afterwards unless the crop handler throws |
| FragmentLemmas.CropCompletion | photo-picker/src/main/java/com/dakingx/photopicker/fragment/PhotoFragment.kt:127-154 | the crop handler throws exactly when delPhoto is set and the context or the capture uri is missing; otherwise both uris and the crop callback are cleared; the captured original is deleted exactly when delPhoto is set and it exists; on a throw the capture uri is kept and the crash is the last event |
| FragmentLemmas.DestroyCancelsPending | photo-picker/src/main/java/com/dakingx/photopicker/fragment/PhotoFragment.kt:181-190 | onDestroy answers Cancel to the capture, pick and crop callbacks in that order; it invokes each callback as often as slots hold it; every slot is then empty and nothing else changes |
| FragmentLemmas.PermissionDeniedChangesNothing | photo-picker/src/main/java/com/dakingx/photopicker/fragment/PhotoFragment.kt:192-242 | when its permissions are missing, capture, pick or crop only answers Failure and changes no field |
| FragmentLemmas.CaptureLaunches | photo-picker/src/main/java/com/dakingx/photopicker/fragment/PhotoFragment.kt:197-217 | with permissions and a usable cache dir, capture stores the callback and launches the camera. The output uri is the provider uri from API 24 on and the file uri before, of a capture_photo file named for the current time and draw |
| FragmentLemmas.PickLaunches | photo-picker/src/main/java/com/dakingx/photopicker/fragment/PhotoFragment.kt:220-233 | with permissions, pick stores the callback and launches the picker |
| FragmentLemmas.CropLaunches | photo-picker/src/main/java/com/dakingx/photopicker/fragment/PhotoFragment.kt:238-291 | with permissions and a destination, crop stores the callback and destination and launches the crop of that uri with the fromCamera flag |
| FragmentLemmas.PermissionSets | photo-picker/src/main/java/com/dakingx/photopicker/fragment/PhotoFragment.kt:34-53 | pick needs READ_MEDIA_IMAGES from API 33 on and READ_EXTERNAL_STORAGE before; crop needs the same; capture needs CAMERA plus those, so a capture grant implies a crop grant |
| FragmentLemmas.StoreRestoreRoundTrip | photo-picker/src/main/java/com/dakingx/photopicker/fragment/PhotoFragment.kt:156-171 | restoring a stored bundle gives back the stored authority; delPhoto comes from the bundle, not from the fragment, so it is false from a bundle that held none |
| FragmentLemmas.RestoreNewInstanceArguments | photo-picker/src/main/java/com/dakingx/photopicker/fragment/PhotoFragment.kt:56-65 | restoring newInstance's arguments sets exactly the authority and delPhoto given to newInstance |
| PhotoUtil.GetPhotoFragment | photo-picker/src/main/java/com/dakingx/photopicker/util/PhotoUtil.kt:74-81 | the fragment under the tag is reused, with only delPhoto overwritten. Otherwise a fresh one is registered under the tag with newInstance's authority and delPhoto, and its creation fails exactly when the authority is empty |
| PhotoUtil.CapturePhoto | photo-picker/src/main/java/com/dakingx/photopicker/util/PhotoUtil.kt:17-22 | capture runs with the caller's delPhoto, true unless given, and a callback chaining a crop with fromCamera = true into the caller's continuation |
| PhotoUtil.PickPhoto | photo-picker/src/main/java/com/dakingx/photopicker/util/PhotoUtil.kt:27-31 | pick runs with delPhoto = false and a callback chaining a crop with fromCamera = false |
| PhotoUtil.CropPhoto | photo-picker/src/main/java/com/dakingx/photopicker/util/PhotoUtil.kt:60-69 | crop runs with delPhoto = false, the default fromCamera = true, and a callback resuming the caller |
| PhotoUtil.ChainDispatch | photo-picker/src/main/java/com/dakingx/photopicker/util/PhotoUtil.kt:42-53 | a first-stage success runs exactly one crop of its uri with the same flag and continuation; any other result resumes the continuation with itself and runs no crop |
| PhotoUtil.FirstStageResult | photo-picker/src/main/java/com/dakingx/photopicker/util/PhotoUtil.kt:42-53 | from the first stage the caller receives a non-success unchanged, and after a success nothing if the crop starts and Failure if it cannot; never a success |
| PhotoUtil.CropStageResult | photo-picker/src/main/java/com/dakingx/photopicker/util/PhotoUtil.kt:45-47 | the crop result reaches the caller exactly once, as the mapped crop result |
| PhotoUtil.ChainedCropReturnsCropResult | photo-picker/src/main/java/com/dakingx/photopicker/util/PhotoUtil.kt:17-31 | after a successful capture or pick whose crop starts, the crop gets the first stage's uri and flag; the caller receives exactly the crop's result, whose success carries the crop destination; both callbacks and both uris end up clear |
| FragmentFindings.CaptureFailureThenDestroyAnswersTwice | photo-picker/src/main/java/com/dakingx/photopicker/fragment/PhotoFragment.kt:198-203 | as written: with permissions but no usable cache dir, capture answers Failure and keeps the callback, so onDestroy answers it again with Cancel |
| FragmentFindings.CropFailureThenDestroyAnswersTwice | photo-picker/src/main/java/com/dakingx/photopicker/fragment/PhotoFragment.kt:243-273 | as written: a crop with no destination answers Failure and keeps the callback, so onDestroy answers it again |
| FragmentFindings.CorrectedCaptureAnswersOnce | photo-picker/src/main/java/com/dakingx/photopicker/fragment/PhotoFragment.kt:192-218 | corrected capture keeps the callback exactly when the camera launches, else answers it now; through onDestroy it is answered exactly once; when the camera launches it equals the original |
| FragmentFindings.CorrectedCropAnswersOnce | photo-picker/src/main/java/com/dakingx/photopicker/fragment/PhotoFragment.kt:238-291 | the same for corrected crop |
| FragmentFindings.DirectCropResultThrows | photo-picker/src/main/java/com/dakingx/photopicker/fragment/PhotoFragment.kt:147-149 | as written: on a fragment from newInstance(authority), a crop called directly ends its result handler in the null capture-uri exception, with a callback still pending |
| FragmentFindings.CorrectedCropCompletion | photo-picker/src/main/java/com/dakingx/photopicker/fragment/PhotoFragment.kt:127-154 | corrected crop handler, while attached: never throws; clears the crop callback and both uris; answers the pending callback once; deletes exactly the captured original when delPhoto is set and there is one |
| FragmentFindings.CorrectedCropAgrees | photo-picker/src/main/java/com/dakingx/photopicker/fragment/PhotoFragment.kt:147-153 | wherever the original crop handler does not throw, the corrected one makes the same step |

## Left out

- Intent extras, flags, the MIME type and `EXTRA_VIDEO_QUALITY` are left out. A launch records only the action and the uris: the capture output, and the crop source, `fromCamera` flag and destination.
- Crop's conversion of a `file:` source uri to a provider uri, and its `contentResolver.getType` call, are left out. The crop intent carries the uri as given.
- `FileProvider.getUriForFile`, `Uri.fromFile`, the MediaStore `contentResolver.insert` and the deletion of the original are all platform calls. The first three are functions in `Env`, the insert returning an optional uri. The deletion is the event `Deleted`.
- `System.currentTimeMillis()` and `Random.nextInt(9999)` are inputs `now` and `draw`. The draw is constrained to [0, 9999).
- `Build.VERSION.SDK_INT` is the input `sdk`. The companion's permission lists are functions of it, evaluated when used rather than once when the class loads.
- Coroutine bridging is left out: `suspendCancellableCoroutine`, `resumeSafely` and cancellation of the suspended call. A resumption is recorded each time the library attempts one. Whether `resumeSafely` ignores a second attempt is not modelled.
- `BaseFragment` is not part of this model. Creating a fragment through `executePendingTransactions` is modelled as restoring the fragment's arguments and then running the `onCreate` check. Fragment transactions, `retainInstance`, saved-state plumbing by the framework and the rest of the fragment lifecycle are left out.
- `getPhotoFragment`'s `as?` cast is left out. The fragment manager's map holds only `PhotoFragment`s.
- The exception thrown by `onCreate` is the result `ok = false`. The suspending calls then stop, and the half-registered fragment stays registered.
- `filePath2Uri` (ContextExt.kt:25-33) is not part of this model; no core operation calls it.
- `requireContext()` throwing on a detached fragment is modelled only in the crop result handler. Everywhere else, the permission check fails first when there is no context.
- A callback overwritten by a second operation of the same kind is dropped without an answer, as in the code. No lemma states this.
- Host callbacks are assumed never to call back into the fragment or the fragment manager: `React` records their invocation and nothing more. Only the library's own callbacks, the continuation and the chained crop, are modelled with their effects. A host callback that starts another operation from inside its invocation is not modelled. So `DestroyCancelsPending`'s "nothing else changes" and `CropStep`'s "invokes no callback but its own" hold under this assumption only.
- The `Env` platform functions never throw in the model. `FileProvider.getUriForFile` throws for an unknown authority (PhotoFragment.kt:207, :246); the model returns a uri instead. With this assumption, a fragment whose creation failed for an empty authority stays registered, is later reused with ok = true, and then launches the camera.
- Fragment.CheckRequiredPermissions: its contract states only that a grant needs a context. Its value is given by its body through `CheckAppPermission`.

## Findings

| source | as written | input that shows it | evidently intended | confidence | as-written member | corrected member |
|---|---|---|---|---|---|---|
| photo-picker/src/main/java/com/dakingx/photopicker/fragment/PhotoFragment.kt:198-203 | capture stores `captureCallback` before creating the temporary file; when that fails it invokes the callback with Failure and returns without clearing it | permissions granted, no emulated external cache dir, then the fragment is destroyed: the callback is answered Failure, then Cancel | store the callback only once the camera is launched (or clear it on failure), so every capture is answered once | high; not executed | FragmentFindings.CaptureFailureThenDestroyAnswersTwice | FragmentFindings.CorrectedCaptureAnswersOnce |
| photo-picker/src/main/java/com/dakingx/photopicker/fragment/PhotoFragment.kt:243-273 | crop stores `cropCallback` before creating its destination; both failure paths invoke the callback with Failure and keep it | permissions granted, API level below 29 and no emulated cache dir (or, from 29 on, an insert returning null), then destruction: Failure, then Cancel | store the callback only once the crop activity is launched | high; not executed | FragmentFindings.CropFailureThenDestroyAnswersTwice | FragmentFindings.CorrectedCropAnswersOnce |
| photo-picker/src/main/java/com/dakingx/photopicker/fragment/PhotoFragment.kt:147-149 | the crop handler deletes the captured original, asserting its uri non-null, whenever delPhoto is set | `newInstance(authority)` (delPhoto defaults to true), then `crop(uri, callback)` directly, then any crop result: NullPointerException, and the crop callback and uris are never cleared | delete the original only when there is one | high; not executed | FragmentFindings.DirectCropResultThrows | FragmentFindings.CorrectedCropCompletion |

The class `Fragment.PhotoFragment`, `Fragment.InvokeStep`, `Fragment.DeliverStep` and the `PhotoUtil` methods follow the code as written. The corrected steps are proved equal to the written ones only where the lemmas say so:

- on the capture and crop launch paths (`CorrectedCaptureAnswersOnce`, `CorrectedCropAnswersOnce`);
- in the crop handler wherever it does not throw (`CorrectedCropAgrees`).

They differ on the failure paths of capture and crop, for example in the branch of `FirstStageResult` where the crop does not start, and in the throwing branch of `CropCompletion`. The chain and flow lemmas are proved for the written steps only. Through `PhotoUtil`, the first defect reaches a suspended caller only as a second resumption attempt. It reaches a host callback given to the fragment directly as a second invocation.
