/**
 * The headless fragment that runs the three single-shot photo operations (capture, pick,
 * crop). Each operation stores its callback, launches a foreign activity and, when that
 * activity's result comes back, maps it to a PhotoOpResult and hands it to the callback.
 *
 * The fragment's state is given twice: as the value State with one step function per
 * operation (the specification, which the lemmas reason about), and as the class
 * PhotoFragment whose methods change its fields one statement at a time, as the original
 * code does, and are proved to make exactly the step the function describes.
 */
module Fragment {
  import opened Platform
  import opened ContextExt
  import opened PhotoOp

  const FRAGMENT_TAG: string := "photo_fragment"
  const ARG_FILE_PROVIDER_AUTH: string := "arg_file_provider_auth"
  const ARG_DEL_PHOTO: string := "arg_del_photo"

  /** The prefixes of the files capture and crop create. */
  const CAPTURE_PREFIX: string := "capture_photo"
  const CROP_PREFIX: string := "crop_photo"

  // ---------------------------------------------------------------------------
  // Required permissions, for a device at API level `sdk`

  function PickPermissions(sdk: int): seq<Permission> {
    if sdk >= VERSION_TIRAMISU then [ReadMediaImages] else [ReadExternalStorage]
  }

  function CropPermissions(sdk: int): seq<Permission> {
    PickPermissions(sdk)
  }

  function CapturePermissions(sdk: int): seq<Permission> {
    [Camera] + PickPermissions(sdk)
  }

  // ---------------------------------------------------------------------------
  // Activity results

  /**
   * The outcome an activity result stands for: RESULT_OK with a uri is a success carrying
   * it, RESULT_OK without one a failure, RESULT_CANCELED a cancellation, and any other
   * code a failure.
   */
  function MapResult(resultCode: int, uri: Option<Uri>): (r: PhotoOpResult)
    ensures r.Success? <==> resultCode == RESULT_OK && uri.Some?
    ensures r.Success? ==> r.uri == uri.value
    ensures r == Cancel <==> resultCode == RESULT_CANCELED
    ensures r == Failure <==> (resultCode == RESULT_OK && uri.None?)
                              || (resultCode != RESULT_OK && resultCode != RESULT_CANCELED)
  {
    if resultCode == RESULT_OK then
      (if uri.Some? then Success(uri.value) else Failure)
    else if resultCode == RESULT_CANCELED then
      Cancel
    else
      Failure
  }

  // ---------------------------------------------------------------------------
  // The platform, as one call of the fragment sees it

  datatype Env = Env(
    sdk: int,                            // Build.VERSION.SDK_INT
    context: Option<Context>,            // the fragment's context; None while detached
    now: int,                            // System.currentTimeMillis()
    draw: Draw,                          // Random.nextInt(9999)
    providerUri: (string, File) -> Uri,  // FileProvider.getUriForFile(context, authority, file)
    fileUri: File -> Uri,                // Uri.fromFile(file)
    insertImage: string -> Option<Uri>   // contentResolver.insert of a DCIM image with this display name
  )

  /** checkRequiredPermissions: a fragment without a context has no permission. */
  function CheckRequiredPermissions(env: Env, permissions: seq<Permission>): (r: bool)
    ensures r ==> env.context.Some?
  {
    match env.context
    case None => false
    case Some(ctx) => CheckAppPermission(ctx, permissions)
  }

  // ---------------------------------------------------------------------------
  // What the fragment does outside itself

  /** The activities the fragment launches, with the uris it hands them. */
  datatype Intent =
    | ImageCapture(output: Uri)
    | PickImage
    | CropImage(source: Uri, fromCamera: bool, output: Uri)

  /** The exceptions the fragment can throw from a result handler. */
  datatype Crash = NotAttached | NullCaptureFileUri

  datatype Event =
    | Invoked(callback: PhotoOpCallback, result: PhotoOpResult)
    | Resumed(continuation: Continuation, result: PhotoOpResult)
    | Launched(intent: Intent)
    | Deleted(uri: Uri)
    | Crashed(crash: Crash)

  /** The three activity-result launchers. */
  datatype Launcher = CaptureLauncher | PickLauncher | CropLauncher

  // ---------------------------------------------------------------------------
  // The state and its steps

  datatype State = State(
    authority: string,
    captureFileUri: Option<Uri>,
    delPhoto: bool,
    cropFileUri: Option<Uri>,
    captureCallback: Option<PhotoOpCallback>,
    pickCallback: Option<PhotoOpCallback>,
    cropCallback: Option<PhotoOpCallback>,
    trace: seq<Event>)

  /** The fields of a freshly constructed fragment, before any state is restored. */
  function NewFragmentState(): State {
    State("", None, true, None, None, None, None, [])
  }

  /** The callback a launcher answers. */
  function Slot(s: State, kind: Launcher): Option<PhotoOpCallback> {
    match kind
    case CaptureLauncher => s.captureCallback
    case PickLauncher => s.pickCallback
    case CropLauncher => s.cropCallback
  }

  /** The events that invoking `cb` with `r` produces when it starts no crop. */
  function Outcome(cb: PhotoOpCallback, r: PhotoOpResult): seq<Event>
    requires !React(cb, r).StartCrop?
  {
    match React(cb, r)
    case Resume(k, x) => [Invoked(cb, r), Resumed(k, x)]
    case Record => [Invoked(cb, r)]
  }

  function NotifyStep(s: State, cb: PhotoOpCallback, r: PhotoOpResult): State
    requires !React(cb, r).StartCrop?
  {
    s.(trace := s.trace + Outcome(cb, r))
  }

  /**
   * Where a crop writes its output: a new DCIM image from Q on, else a file in the external
   * cache dir (none when that dir is unusable); either way named crop_photo_<now>_<draw>.jpg.
   */
  function CropDestination(env: Env): (d: Option<Uri>)
    requires env.context.Some?
    ensures exists name ::
      && ParseTempFileName(CROP_PREFIX, name) == Some(TempName(env.now, env.draw, "jpg"))
      && (env.sdk >= VERSION_Q ==> d == env.insertImage(name))
      && (env.sdk < VERSION_Q ==>
            d == if CacheUsable(env.context.value)
                 then Some(env.fileUri(File(env.context.value.externalCacheDir.value.absolutePath, name)))
                 else None)
  {
    var fileName := TempFileName(CROP_PREFIX, env.now, env.draw, "jpg");
    TempFileNameRoundTrip(CROP_PREFIX, env.now, env.draw, "jpg");
    if env.sdk >= VERSION_Q then
      env.insertImage(fileName)
    else
      match GenerateTempFile2(env.context.value, fileName)
      case None => None
      case Some(file) => Some(env.fileUri(file))
  }

  /**
   * crop(uri, fromCamera, callback). It touches only the crop callback, the crop uri and the
   * trace, and every callback it invokes is its own.
   */
  function CropStep(s: State, uri: Uri, cb: PhotoOpCallback, env: Env, fromCamera: bool := true): (t: State)
    ensures t.authority == s.authority && t.delPhoto == s.delPhoto && t.captureFileUri == s.captureFileUri
    ensures t.captureCallback == s.captureCallback && t.pickCallback == s.pickCallback
    ensures s.trace <= t.trace
    ensures forall i :: |s.trace| <= i < |t.trace| && t.trace[i].Invoked? ==> t.trace[i].callback == cb
    ensures forall i :: |s.trace| <= i < |t.trace| ==> !t.trace[i].Deleted? && !t.trace[i].Crashed?
  {
    if !CheckRequiredPermissions(env, CropPermissions(env.sdk)) then
      NotifyStep(s, cb, Failure)
    else
      var s1 := s.(cropCallback := Some(cb));
      match CropDestination(env)
      case None => NotifyStep(s1, cb, Failure)
      case Some(destination) =>
        s1.(cropFileUri := Some(destination),
            trace := s1.trace + [Launched(CropImage(uri, fromCamera, destination))])
  }

  /** cb.invoke(r): a success given to the chaining callback runs a crop on this fragment. */
  function InvokeStep(s: State, cb: PhotoOpCallback, r: PhotoOpResult, env: Env): (t: State)
    ensures t.authority == s.authority && t.delPhoto == s.delPhoto && t.captureFileUri == s.captureFileUri
    ensures t.captureCallback == s.captureCallback && t.pickCallback == s.pickCallback
    ensures s.trace <= t.trace && |t.trace| > |s.trace| && t.trace[|s.trace|] == Invoked(cb, r)
    ensures forall i :: |s.trace| <= i < |t.trace| ==> !t.trace[i].Deleted? && !t.trace[i].Crashed?
  {
    var a := React(cb, r);
    if a.StartCrop? then
      CropStep(s.(trace := s.trace + [Invoked(cb, r)]), a.uri, a.next, env, a.fromCamera)
    else
      NotifyStep(s, cb, r)
  }

  /**
   * capture(callback). It leaves the pick and crop state alone, always answers or launches
   * something, and changes the capture callback or uri only by storing `cb`.
   */
  function CaptureStep(s: State, cb: PhotoOpCallback, env: Env): (t: State)
    ensures t.authority == s.authority && t.delPhoto == s.delPhoto
    ensures t.pickCallback == s.pickCallback && t.cropCallback == s.cropCallback && t.cropFileUri == s.cropFileUri
    ensures s.trace <= t.trace && |t.trace| > |s.trace|
    ensures t.captureCallback != s.captureCallback || t.captureFileUri != s.captureFileUri ==>
              t.captureCallback == Some(cb)
  {
    if !CheckRequiredPermissions(env, CapturePermissions(env.sdk)) then
      NotifyStep(s, cb, Failure)
    else
      var s1 := s.(captureCallback := Some(cb));
      match GenerateTempFile(env.context.value, env.now, env.draw, CAPTURE_PREFIX)
      case None => NotifyStep(s1, cb, Failure)
      case Some(file) =>
        var uri := if env.sdk >= VERSION_N then env.providerUri(s.authority, file) else env.fileUri(file);
        s1.(captureFileUri := Some(uri), trace := s1.trace + [Launched(ImageCapture(uri))])
  }

  /** pick(callback). It touches only the pick callback and the trace, and always answers or launches. */
  function PickStep(s: State, cb: PhotoOpCallback, env: Env): (t: State)
    ensures t == s.(pickCallback := t.pickCallback, trace := t.trace)
    ensures t.pickCallback == s.pickCallback || t.pickCallback == Some(cb)
    ensures s.trace <= t.trace && |t.trace| > |s.trace|
  {
    if !CheckRequiredPermissions(env, PickPermissions(env.sdk)) then
      NotifyStep(s, cb, Failure)
    else
      s.(pickCallback := Some(cb), trace := s.trace + [Launched(PickImage)])
  }

  /** Hands `r` to the callback a slot holds; an empty slot does nothing. */
  function Fire(s: State, slot: Option<PhotoOpCallback>, r: PhotoOpResult, env: Env): State {
    match slot
    case None => s
    case Some(cb) => InvokeStep(s, cb, r, env)
  }

  /** Whether the crop result handler throws: delPhoto with no context, or with no captured original. */
  predicate CropThrows(s: State, env: Env) {
    s.delPhoto && (env.context.None? || s.captureFileUri.None?)
  }

  /** The events the crop handler adds after the callback: a crash, or the deletion if delPhoto asks for one. */
  function CropTail(s: State, env: Env): seq<Event> {
    if s.delPhoto && env.context.None? then [Crashed(NotAttached)]
    else if s.delPhoto && s.captureFileUri.None? then [Crashed(NullCaptureFileUri)]
    else if s.delPhoto then [Deleted(s.captureFileUri.value)]
    else []
  }

  /** The end of the crop result handler: delete the captured original, then forget both uris. */
  function FinishCrop(s: State, env: Env): State {
    var s1 := s.(trace := s.trace + CropTail(s, env));
    if CropThrows(s, env) then s1
    else s1.(captureFileUri := None, cropCallback := None, cropFileUri := None)
  }

  /** The result handler of a launcher; `data` is the uri the result intent carries. */
  function DeliverStep(s: State, kind: Launcher, resultCode: int, data: Option<Uri>, env: Env): (t: State)
    ensures t.authority == s.authority && t.delPhoto == s.delPhoto && s.trace <= t.trace
    ensures kind != CropLauncher ==> Slot(t, kind).None? && t.captureFileUri == s.captureFileUri
    ensures kind == CaptureLauncher ==> t.pickCallback == s.pickCallback
    ensures kind == PickLauncher ==> t.captureCallback == s.captureCallback
  {
    match kind
    case CaptureLauncher =>
      Fire(s, s.captureCallback, MapResult(resultCode, s.captureFileUri), env).(captureCallback := None)
    case PickLauncher =>
      Fire(s, s.pickCallback, MapResult(resultCode, data), env).(pickCallback := None)
    case CropLauncher =>
      FinishCrop(Fire(s, s.cropCallback, MapResult(resultCode, s.cropFileUri), env), env)
  }

  /** The events of cancelling a slot: Cancel to the callback it holds, if any. */
  function Cancels(slot: Option<PhotoOpCallback>): seq<Event> {
    match slot
    case None => []
    case Some(cb) => Outcome(cb, Cancel)
  }

  function CancelSlot(s: State, slot: Option<PhotoOpCallback>): State {
    s.(trace := s.trace + Cancels(slot))
  }

  /** onDestroy: cancel the pending capture, pick and crop, in that order. Only the slots and the trace change. */
  function DestroyStep(s: State): (t: State)
    ensures t == s.(captureCallback := None, pickCallback := None, cropCallback := None, trace := t.trace)
    ensures s.trace <= t.trace
  {
    var s1 := CancelSlot(s, s.captureCallback).(captureCallback := None);
    var s2 := CancelSlot(s1, s1.pickCallback).(pickCallback := None);
    CancelSlot(s2, s2.cropCallback).(cropCallback := None)
  }

  // ---------------------------------------------------------------------------
  // Saved state

  datatype BundleValue = Str(text: string) | Bool(flag: bool)

  type Bundle = map<string, BundleValue>

  /** Bundle.getString: null when the key is absent or holds no string. */
  function GetString(b: Bundle, key: string): Option<string> {
    if key in b && b[key].Str? then Some(b[key].text) else None
  }

  /** Bundle.getBoolean: false when the key is absent or holds no boolean. */
  function GetBoolean(b: Bundle, key: string): bool {
    key in b && b[key].Bool? && b[key].flag
  }

  /** The arguments newInstance gives a fragment. */
  function NewInstanceArguments(fileProviderAuthority: string, delPhoto: bool): Bundle {
    map[ARG_FILE_PROVIDER_AUTH := Str(fileProviderAuthority), ARG_DEL_PHOTO := Bool(delPhoto)]
  }

  /**
   * restoreState(bundle): only the authority and delPhoto can change; a missing bundle changes
   * nothing, and a present one sets delPhoto and keeps the authority unless it holds one.
   */
  function RestoreStep(s: State, bundle: Option<Bundle>): (t: State)
    ensures t == s.(authority := t.authority, delPhoto := t.delPhoto)
    ensures bundle.None? ==> t == s
    ensures bundle.Some? ==> t.delPhoto == GetBoolean(bundle.value, ARG_DEL_PHOTO)
    ensures t.authority == s.authority || (bundle.Some? && GetString(bundle.value, ARG_FILE_PROVIDER_AUTH) == Some(t.authority))
  {
    match bundle
    case None => s
    case Some(b) =>
      var s1 := match GetString(b, ARG_FILE_PROVIDER_AUTH)
                case None => s
                case Some(authority) => s.(authority := authority);
      s1.(delPhoto := GetBoolean(b, ARG_DEL_PHOTO))
  }

  /** storeState(bundle): only the authority is written. */
  function StoreStep(s: State, b: Bundle): Bundle {
    b[ARG_FILE_PROVIDER_AUTH := Str(s.authority)]
  }

  // ---------------------------------------------------------------------------
  // The fragment

  class PhotoFragment {
    const arguments: Bundle

    var fileProviderAuthority: string
    var captureFileUri: Option<Uri>
    var delPhoto: bool
    var cropFileUri: Option<Uri>
    var captureCallback: Option<PhotoOpCallback>
    var pickCallback: Option<PhotoOpCallback>
    var cropCallback: Option<PhotoOpCallback>

    /** What the fragment has done outside itself, in order. */
    var trace: seq<Event>

    function Snapshot(): State
      reads this
    {
      State(fileProviderAuthority, captureFileUri, delPhoto, cropFileUri,
            captureCallback, pickCallback, cropCallback, trace)
    }

    /** newInstance(fileProviderAuthority, delPhoto): the fields keep their initial values. */
    constructor NewInstance(fileProviderAuthority: string, delPhoto: bool := true)
      ensures Snapshot() == NewFragmentState()
      ensures arguments == NewInstanceArguments(fileProviderAuthority, delPhoto)
    {
      arguments := NewInstanceArguments(fileProviderAuthority, delPhoto);
      this.fileProviderAuthority := "";
      captureFileUri := None;
      this.delPhoto := true;
      cropFileUri := None;
      captureCallback, pickCallback, cropCallback := None, None, None;
      trace := [];
    }

    method RestoreState(bundle: Option<Bundle>)
      modifies this
      ensures Snapshot() == RestoreStep(old(Snapshot()), bundle)
    {
      if bundle.Some? {
        var authority := GetString(bundle.value, ARG_FILE_PROVIDER_AUTH);
        if authority.Some? {
          fileProviderAuthority := authority.value;
        }
        delPhoto := GetBoolean(bundle.value, ARG_DEL_PHOTO);
      }
    }

    method StoreState(bundle: Bundle) returns (stored: Bundle)
      ensures stored == StoreStep(Snapshot(), bundle)
      ensures GetString(stored, ARG_FILE_PROVIDER_AUTH) == Some(fileProviderAuthority)
      ensures forall key :: key != ARG_FILE_PROVIDER_AUTH ==> (key in stored <==> key in bundle)
      ensures forall key :: key != ARG_FILE_PROVIDER_AUTH && key in bundle ==> stored[key] == bundle[key]
    {
      stored := bundle[ARG_FILE_PROVIDER_AUTH := Str(fileProviderAuthority)];
    }

    /** The configuration check of onCreate: false stands for the RuntimeException it throws. */
    method OnCreate() returns (ok: bool)
      ensures ok <==> fileProviderAuthority != ""
    {
      ok := fileProviderAuthority != "";
    }

    method Notify(cb: PhotoOpCallback, r: PhotoOpResult)
      requires !React(cb, r).StartCrop?
      modifies this
      ensures Snapshot() == NotifyStep(old(Snapshot()), cb, r)
    {
      trace := trace + [Invoked(cb, r)];
      var a := React(cb, r);
      if a.Resume? {
        trace := trace + [Resumed(a.continuation, a.result)];
      }
    }

    method Invoke(cb: PhotoOpCallback, r: PhotoOpResult, env: Env)
      modifies this
      ensures Snapshot() == InvokeStep(old(Snapshot()), cb, r, env)
    {
      var a := React(cb, r);
      if a.StartCrop? {
        trace := trace + [Invoked(cb, r)];
        Crop(a.uri, a.next, env, a.fromCamera);
      } else {
        Notify(cb, r);
      }
    }

    method Capture(callback: PhotoOpCallback, env: Env)
      modifies this
      ensures Snapshot() == CaptureStep(old(Snapshot()), callback, env)
    {
      if !CheckRequiredPermissions(env, CapturePermissions(env.sdk)) {
        Notify(callback, Failure);
        return;
      }
      ghost var s1 := old(Snapshot()).(captureCallback := Some(callback));
      captureCallback := Some(callback);
      assert Snapshot() == s1;
      var tempFile := GenerateTempFile(env.context.value, env.now, env.draw, CAPTURE_PREFIX);
      if tempFile.None? {
        Notify(callback, Failure);
        return;
      }
      var uri := if env.sdk >= VERSION_N then env.providerUri(fileProviderAuthority, tempFile.value)
                 else env.fileUri(tempFile.value);
      captureFileUri := Some(uri);
      trace := trace + [Launched(ImageCapture(uri))];
      assert Snapshot() == s1.(captureFileUri := Some(uri), trace := s1.trace + [Launched(ImageCapture(uri))]);
    }

    method Pick(callback: PhotoOpCallback, env: Env)
      modifies this
      ensures Snapshot() == PickStep(old(Snapshot()), callback, env)
    {
      if !CheckRequiredPermissions(env, PickPermissions(env.sdk)) {
        Notify(callback, Failure);
        return;
      }
      pickCallback := Some(callback);
      trace := trace + [Launched(PickImage)];
    }

    method Crop(uri: Uri, callback: PhotoOpCallback, env: Env, fromCamera: bool := true)
      modifies this
      ensures Snapshot() == CropStep(old(Snapshot()), uri, callback, env, fromCamera)
    {
      if !CheckRequiredPermissions(env, CropPermissions(env.sdk)) {
        Notify(callback, Failure);
        return;
      }
      cropCallback := Some(callback);
      var fileName := TempFileName(CROP_PREFIX, env.now, env.draw, "jpg");
      var destinationUri: Option<Uri>;
      if env.sdk >= VERSION_Q {
        destinationUri := env.insertImage(fileName);
      } else {
        var file := GenerateTempFile2(env.context.value, fileName);
        if file.None? {
          Notify(callback, Failure);
          return;
        }
        destinationUri := Some(env.fileUri(file.value));
      }
      if destinationUri.None? {
        Notify(callback, Failure);
        return;
      }
      cropFileUri := destinationUri;
      trace := trace + [Launched(CropImage(uri, fromCamera, destinationUri.value))];
    }

    /** The launcher callbacks: `kind` says which launcher's result arrives. */
    method DeliverResult(kind: Launcher, resultCode: int, data: Option<Uri>, env: Env)
      modifies this
      ensures Snapshot() == DeliverStep(old(Snapshot()), kind, resultCode, data, env)
    {
      match kind {
        case CaptureLauncher =>
          var uri := captureFileUri;
          if captureCallback.Some? {
            Invoke(captureCallback.value, MapResult(resultCode, uri), env);
          }
          captureCallback := None;
        case PickLauncher =>
          if pickCallback.Some? {
            Invoke(pickCallback.value, MapResult(resultCode, data), env);
          }
          pickCallback := None;
        case CropLauncher =>
          var uri := cropFileUri;
          if cropCallback.Some? {
            Invoke(cropCallback.value, MapResult(resultCode, uri), env);
          }
          if delPhoto {
            if env.context.None? {
              trace := trace + [Crashed(NotAttached)];
              return;
            }
            if captureFileUri.None? {
              trace := trace + [Crashed(NullCaptureFileUri)];
              return;
            }
            trace := trace + [Deleted(captureFileUri.value)];
          }
          captureFileUri := None;
          cropCallback := None;
          cropFileUri := None;
      }
    }

    method OnDestroy()
      modifies this
      ensures Snapshot() == DestroyStep(old(Snapshot()))
    {
      ghost var s0 := Snapshot();
      if captureCallback.Some? {
        Notify(captureCallback.value, Cancel);
      }
      captureCallback := None;
      ghost var s1 := Snapshot();
      assert s1 == CancelSlot(s0, s0.captureCallback).(captureCallback := None);
      if pickCallback.Some? {
        Notify(pickCallback.value, Cancel);
      }
      pickCallback := None;
      ghost var s2 := Snapshot();
      assert s2 == CancelSlot(s1, s1.pickCallback).(pickCallback := None);
      if cropCallback.Some? {
        Notify(cropCallback.value, Cancel);
      }
      cropCallback := None;
      assert Snapshot() == CancelSlot(s2, s2.cropCallback).(cropCallback := None);
    }
  }
}
