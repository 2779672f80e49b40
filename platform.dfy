/** The Android values the photo picker works with, reduced to what its logic observes. */
module Platform {

  datatype Option<+T> = None | Some(value: T)

  /** An android.net.Uri; the library only stores, compares and forwards it. */
  datatype Uri = Uri(text: string)

  /** Activity.RESULT_OK and Activity.RESULT_CANCELED. */
  const RESULT_OK: int := -1
  const RESULT_CANCELED: int := 0

  /** The Build.VERSION_CODES the library branches on. */
  const VERSION_N: int := 24
  const VERSION_Q: int := 29
  const VERSION_TIRAMISU: int := 33

  /** The runtime permissions the library asks about. */
  datatype Permission = Camera | ReadMediaImages | ReadExternalStorage

  /** A directory, with the answer Environment.isExternalStorageEmulated gives for it. */
  datatype Dir = Dir(absolutePath: string, emulated: bool)

  /** What a Context tells the library: the permissions granted to the app and its external cache dir. */
  datatype Context = Context(granted: set<Permission>, externalCacheDir: Option<Dir>)

  /** java.io.File(parent, child). */
  datatype File = File(parent: string, name: string)
}
