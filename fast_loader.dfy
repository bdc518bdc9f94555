/**
 * FastLoader: a loader on the search path is either a jar loader or a
 * directory loader; the abstract class's defaults (no class path, a close
 * that does nothing) are the directory loader's behaviour.
 */
module FastLoaders {
  import opened Wrappers
  import opened JavaErrors
  import opened Text
  import opened Platform
  import opened FastResources
  import opened FastJarLoaders
  import opened FastFileLoaders

  datatype Loader = JarLoader(jar: FastJarLoader) | DirLoader(dir: FastFileLoader)
  {
    /** The object behind the loader. */
    function Obj(): object {
      match this
      case JarLoader(j) => j
      case DirLoader(d) => d
    }

    ghost predicate Valid()
      reads Obj()
    {
      match this
      case JarLoader(j) => j.Valid()
      case DirLoader(d) => d.Valid()
    }

    /** getBaseURL(): the URL the loader was constructed with; it is a constant of the loader. */
    function BaseURL(): (r: Url)
      ensures JarLoader? ==> r == jar.base
      ensures DirLoader? ==> r == dir.base
    {
      match this
      case JarLoader(j) => j.base
      case DirLoader(d) => d.base
    }

    /** The index keys the loader's getIndexKeys yields. */
    function KeySpec(): Result<set<string>, Exception> {
      match this
      case JarLoader(j) => Success(JarKeys(j.jar.entries, j.env.metaInfFilenames))
      case DirLoader(d) => DirKeys(d.env.dirs(d.dir))
    }

    /** The extra locations the loader declares. */
    function ClassPathSpec(): (r: Result<Option<seq<Url>>, Exception>)
      ensures DirLoader? ==> r == Success(None)
    {
      match this
      case JarLoader(j) => JarClassPath(j.env, j.csu, j.jar)
      case DirLoader(_) => Success(None)
    }

    /**
     * getResource(name, check) of the loader: a directory loader never throws,
     * a closed jar loader throws IllegalStateException.
     */
    function GetResource(name: string): (r: Result<Option<ResourceInfo>, Exception>)
      reads Obj()
      ensures JarLoader? ==> r == jar.GetResource(name)
      ensures DirLoader? ==> r == Success(dir.GetResource(name))
    {
      match this
      case JarLoader(j) => j.GetResource(name)
      case DirLoader(d) => Success(d.GetResource(name))
    }

    /** findResource(name, check): getResource mapped to its URL; its exception escapes. */
    function FindResource(name: string): (r: Result<Option<Url>, Exception>)
      reads Obj()
      ensures r.Failure? <==> GetResource(name).Failure?
      ensures r.Failure? ==> r.error == GetResource(name).error
      ensures r.Success? ==> (r.value.Some? <==> GetResource(name).value.Some?)
      ensures r.Success? && r.value.Some? ==> r.value.value == GetResource(name).value.value.url
    {
      match this
      case JarLoader(j) => j.FindResource(name)
      case DirLoader(d) => Success(d.FindResource(name))
    }
  }

  /** Only a jar loader's getIndexKeys never throws; a directory loader's may. */
  lemma JarKeysNeverFail(l: Loader)
    requires l.JarLoader?
    ensures l.KeySpec().Success?
  {
  }

  /** getIndexKeys() of either kind of loader. */
  method GetIndexKeys(l: Loader) returns (r: Result<set<string>, Exception>)
    requires l.Valid()
    modifies l.Obj()
    ensures l.Valid()
    ensures r == l.KeySpec()
  {
    match l
    case JarLoader(j) =>
      var keys := j.GetIndexKeys();
      r := Success(keys);
    case DirLoader(d) =>
      r := d.GetIndexKeys();
  }

  /** getClassPath(): the jar's Class-Path; null for a directory loader (the default). */
  method GetClassPath(l: Loader) returns (r: Result<Option<seq<Url>>, Exception>)
    ensures r == l.ClassPathSpec()
    ensures r.Failure? ==> IsIOException(r.error)
  {
    match l
    case JarLoader(j) =>
      r := j.GetClassPath();
      ClassPathFailsWithIOException(j.env, j.csu, j.jar);
    case DirLoader(_) =>
      r := Success(None);
  }

  /** Reading a jar's Class-Path fails only with a MalformedURLException, an IOException. */
  lemma ClassPathFailsWithIOException(env: Env, csu: Url, archive: JarArchive)
    ensures JarClassPath(env, csu, archive).Failure? ==> JarClassPath(env, csu, archive).error.kind == MalformedURLException
  {
    var attribute := ClassPathAttribute(archive);
    if attribute.Some? {
      SurvivorsFailWithMalformedUrl(env, csu, Tokens(attribute.value));
    }
  }

  lemma {:induction false} SurvivorsFailWithMalformedUrl(env: Env, base: Url, tokens: seq<string>)
    ensures Survivors(env, base, tokens).Failure? ==> Survivors(env, base, tokens).error.kind == MalformedURLException
  {
    if tokens != [] {
      SurvivorsFailWithMalformedUrl(env, base, tokens[..|tokens| - 1]);
    }
  }

  /** close(): a jar loader closes its archive; a directory loader does nothing and never fails. */
  method Close(l: Loader) returns (r: Option<Exception>)
    requires l.Valid()
    modifies if l.JarLoader? then {l.jar} else {}
    ensures l.Valid()
    ensures l.DirLoader? ==> r.None?
    ensures l.JarLoader? ==> l.jar.closed
    ensures l.JarLoader? ==> (r.Some? <==> !old(l.jar.closed) && l.jar.jar.closeFails)
    ensures r.Some? ==> r.value == CLOSE_FAILED && IsIOException(r.value)
  {
    match l
    case JarLoader(j) =>
      r := j.Close();
    case DirLoader(_) =>
      r := None;
  }
}
