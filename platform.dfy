/**
 * The parts of the JDK and the machine that the loaders stand on, as values:
 * URLs, jar archives, manifests, the directory tree, input streams as finite
 * event sequences, and the URL and file-path operations as given functions.
 */
module Platform {
  import opened Wrappers
  import opened IntegerUtil
  import opened Text

  /** A java.net.URL, without its port. */
  datatype Url = Url(protocol: string, host: string, path: string, query: Option<string>, ref: Option<string>)
  {
    /** URL.getFile(): the path followed by "?query" when there is a query. */
    function File(): string {
      match query
      case None => path
      case Some(q) => path + "?" + q
    }
  }

  /** What one InputStream.read call meets: some bytes, an InterruptedIOException, or another IOException. */
  datatype ReadEvent = Chunk(data: seq<bv8>) | Interrupt | ReadFailure

  /** How InputStream.close ends: normally, with an InterruptedIOException, or with another IOException. */
  datatype CloseOutcome = Closed | CloseInterrupted | CloseFailed

  /** The stream a resource opens: what reads meet in order (end of stream after the last), and how close ends. */
  datatype StreamSpec = StreamSpec(events: seq<ReadEvent>, onClose: CloseOutcome)

  /** A java.util.jar.Manifest: main attributes and per-entry sections, attribute name to value. */
  datatype Manifest = Manifest(main: map<string, string>, sections: map<string, map<string, string>>)

  type Certificate = string
  type CodeSigner = string

  /** A java.util.jar.JarEntry; size is -1 when unknown. */
  datatype JarEntry = JarEntry(name: string, isDirectory: bool, size: int64, content: StreamSpec,
                               certificates: Option<seq<Certificate>>, codeSigners: Option<seq<CodeSigner>>)

  /** An opened java.util.jar.JarFile: its entries in enumeration order, its manifest, and whether close fails. */
  datatype JarArchive = JarArchive(entries: seq<JarEntry>, manifest: Option<Manifest>, closeFails: bool)

  /**
   * An entry of a directory listing. A directory whose listFiles() returns null
   * (unreadable) is not listable; its children are then irrelevant.
   */
  datatype FsEntry =
    | FileEntry(name: string)
    | DirEntry(name: string, listable: bool, children: seq<FsEntry>)
  {
    function Name(): string {
      match this
      case FileEntry(n) => n
      case DirEntry(n, _, _) => n
    }
  }

  /** What File.isDirectory() and File.listFiles() report for a path: not a directory, or its listing (None when null). */
  datatype DirState = NotADirectory | Directory(listing: Option<seq<FsEntry>>)

  /** A regular file: File.length() and what Files.newInputStream delivers. */
  datatype FileInfo = FileInfo(length: int64, content: StreamSpec)

  /**
   * The environment: the JDK operations the loaders call, taken as given
   * functions, the file system and the jar archives, and the system-property
   * switches the loaders read once at class initialisation.
   */
  datatype Env = Env(
    /** new URL(context, spec); None is a MalformedURLException. */
    resolve: (Url, string) -> Option<Url>,
    /** ParseUtil.encodePath(path, false) */
    encodePath: string -> string,
    /** ParseUtil.decode(path) */
    decode: string -> string,
    /** URL.toExternalForm() */
    externalForm: Url -> string,
    /** URLUtil.urlNoFragString(url) */
    noFragString: Url -> string,
    /** URI.create(s).isAbsolute(); None when URI.create throws IllegalArgumentException. */
    uriIsAbsolute: string -> Option<bool>,
    /** File.separatorChar */
    separatorChar: char,
    /** new File(path).getCanonicalFile().getPath(); None is an IOException. */
    canonical: string -> Option<string>,
    /** new File(parent, child).getPath() */
    childPath: (string, string) -> string,
    /** isDirectory() and listFiles() of a canonical directory path. */
    dirs: string -> DirState,
    /**
     * What File.exists() finds at a path (a directory counts too), with its
     * File.length() and what a stream opened on it delivers; None when nothing exists there.
     */
    files: string -> Option<FileInfo>,
    /** The jar archives that open, by the URL they are opened from; every other URL fails with an IOException. */
    jars: map<Url, JarArchive>,
    /** The system property sun.misc.JarIndex.metaInfFilenames. */
    metaInfFilenames: bool,
    /** FastURLClassPath.DISABLE_CP_URL_CHECK */
    disableCpUrlCheck: bool)

  /**
   * DISABLE_CP_URL_CHECK from the property jdk.net.URLClassPath.disableClassPathURLCheck,
   * whose default is "true": set for "true" or the empty string.
   */
  function DisableCpUrlCheck(property: Option<string>): (r: bool)
    ensures property.None? ==> r
    ensures r <==> property == Some("true") || property == Some("") || property.None?
  {
    var value := property.GetOr("true");
    value == "true" || value == ""
  }

  /** The set keys an opened URL can occupy in a loader map: the fragment-free strings of the openable jars. */
  function JarKeySpace(env: Env): set<string> {
    set u | u in env.jars :: env.noFragString(u)
  }
}
