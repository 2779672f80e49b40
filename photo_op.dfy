/**
 * The outcome of a photo operation and the callbacks that receive it.
 *
 * A callback is a closure in the library. Here each kind of closure the library creates is a
 * constructor, and React says what invoking it does: a callback of the host application only
 * receives the value, the lambda that the crop stage and cropPhoto pass resumes its
 * continuation with the crop result, and the object built by genCropPhotoCb forwards a
 * success into a crop of the same fragment and passes every other result back to its
 * continuation.
 */
module PhotoOp {
  import opened Platform

  datatype PhotoOpResult = Success(uri: Uri) | Failure | Cancel

  /** A suspended caller, known by an identity. */
  type Continuation = nat

  datatype PhotoOpCallback =
    | Host(id: nat)
    | ResumeWith(continuation: Continuation)
    | CropThenResume(fromCamera: bool, continuation: Continuation)

  /** What invoking a callback does besides receiving its argument. */
  datatype Reaction =
    | Record
    | Resume(continuation: Continuation, result: PhotoOpResult)
    | StartCrop(uri: Uri, fromCamera: bool, next: PhotoOpCallback)

  /**
   * The reaction of a callback to a result. For the callback of genCropPhotoCb: a success
   * starts exactly one crop of that uri with the same fromCamera flag, whose own callback
   * resumes the same continuation; anything else goes back to the continuation unchanged.
   */
  function React(cb: PhotoOpCallback, r: PhotoOpResult): (a: Reaction)
    ensures a.StartCrop? <==> cb.CropThenResume? && r.Success?
    ensures a.StartCrop? ==> a.uri == r.uri && a.fromCamera == cb.fromCamera
                             && a.next == ResumeWith(cb.continuation)
    ensures a.Resume? <==> cb.ResumeWith? || (cb.CropThenResume? && !r.Success?)
    ensures a.Resume? ==> a.continuation == cb.continuation && a.result == r
  {
    match cb
    case Host(_) => Record
    case ResumeWith(k) => Resume(k, r)
    case CropThenResume(fromCamera, k) =>
      if r.Success? then StartCrop(r.uri, fromCamera, ResumeWith(k)) else Resume(k, r)
  }
}
