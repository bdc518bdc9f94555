/**
 * FastJarLoader: a loader over one jar archive. It derives index keys from the
 * archive's entry names, declares the archive's manifest Class-Path, looks up
 * entries by exact name and closes the archive once.
 */
module FastJarLoaders {
  import opened Wrappers
  import opened JavaErrors
  import opened IntegerUtil
  import opened Text
  import opened Platform
  import opened FastResources

  const FILE: string := "file"
  const INDEX_NAME: string := "META-INF/INDEX.LIST"
  const MANIFEST_NAME: string := "META-INF/MANIFEST.MF"
  const META_INF: string := "META-INF/"
  const CLASS_PATH: string := "Class-Path"
  /** The IOException of closing an archive whose close fails. */
  const CLOSE_FAILED: Exception := Err(IOException, "close failed")
  /** What JarFile.getJarEntry throws once the archive is closed. */
  const ZIP_FILE_CLOSED: Exception := Err(IllegalStateException, "zip file closed")

  /** The text before the last "/" of a name, or the whole name when it has none. */
  function PackageOf(name: string): (r: string)
    ensures LastIndexOf(name, '/') == -1 ==> r == name
    ensures LastIndexOf(name, '/') != -1 ==> r + "/" <= name && '/' !in name[|r| + 1..]
  {
    var pos := LastIndexOf(name, '/');
    if pos != -1 then name[..pos] else name
  }

  /** The index key one entry contributes, if any. */
  function EntryKey(entry: JarEntry, metaInfFilenames: bool): Option<string> {
    var fileName := entry.name;
    if fileName == META_INF || fileName == INDEX_NAME || fileName == MANIFEST_NAME then None
    else if !metaInfFilenames || !StartsWith(fileName, META_INF) then Some(PackageOf(fileName))
    else if !entry.isDirectory then Some(fileName)
    else None
  }

  /** The keys getIndexKeys0 collects from the entries, in enumeration order. */
  function JarKeys(entries: seq<JarEntry>, metaInfFilenames: bool): set<string> {
    if entries == [] then {}
    else
      var last := EntryKey(entries[|entries| - 1], metaInfFilenames);
      JarKeys(entries[..|entries| - 1], metaInfFilenames) + (if last.Some? then {last.value} else {})
  }

  /** A key is in the set exactly when some entry contributes it. */
  lemma {:induction false} JarKeysAreEntryKeys(entries: seq<JarEntry>, metaInfFilenames: bool, key: string)
    ensures key in JarKeys(entries, metaInfFilenames) <==>
      exists i :: 0 <= i < |entries| && EntryKey(entries[i], metaInfFilenames) == Some(key)
  {
    if entries != [] {
      var init := entries[..|entries| - 1];
      JarKeysAreEntryKeys(init, metaInfFilenames, key);
      assert forall i :: 0 <= i < |init| ==> init[i] == entries[i];
      if key in JarKeys(entries, metaInfFilenames) && key !in JarKeys(init, metaInfFilenames) {
        assert EntryKey(entries[|entries| - 1], metaInfFilenames) == Some(key);
      }
    }
  }

  /**
   * The META-INF directory entry, the index and the manifest never contribute;
   * with the flag off every other entry contributes its package; with the flag
   * on, entries under META-INF/ contribute their full name unless they are
   * directories.
   */
  lemma EntryKeyCases(entry: JarEntry, metaInfFilenames: bool)
    ensures entry.name in {META_INF, INDEX_NAME, MANIFEST_NAME} ==> EntryKey(entry, metaInfFilenames).None?
    ensures entry.name !in {META_INF, INDEX_NAME, MANIFEST_NAME} && !metaInfFilenames ==>
      EntryKey(entry, metaInfFilenames) == Some(PackageOf(entry.name))
    ensures entry.name !in {META_INF, INDEX_NAME, MANIFEST_NAME} && metaInfFilenames && StartsWith(entry.name, META_INF) ==>
      EntryKey(entry, metaInfFilenames) == if entry.isDirectory then None else Some(entry.name)
  {
  }

  /** getIndexKeys0(): the loop over the archive's entries. */
  method GetIndexKeys0(entries: seq<JarEntry>, metaInfFilenames: bool) returns (ret: set<string>)
    ensures ret == JarKeys(entries, metaInfFilenames)
  {
    ret := {};
    var i := 0;
    while i < |entries|
      invariant 0 <= i <= |entries|
      invariant ret == JarKeys(entries[..i], metaInfFilenames)
    {
      var fileName := entries[i].name;
      assert entries[..i + 1][..i] == entries[..i];
      if fileName == META_INF || fileName == INDEX_NAME || fileName == MANIFEST_NAME {
        i := i + 1;
        continue;
      }
      if !metaInfFilenames || !StartsWith(fileName, META_INF) {
        var packageName;
        var pos := LastIndexOf(fileName, '/');
        if pos != -1 {
          packageName := fileName[..pos];
        } else {
          packageName := fileName;
        }
        ret := ret + {packageName};
      } else if !entries[i].isDirectory {
        ret := ret + {fileName};
      }
      i := i + 1;
    }
    assert entries[..|entries|] == entries;
  }

  /** isRelative(child): URI.create(child) is not absolute; an unparsable child is not relative. */
  predicate IsRelative(env: Env, child: string) {
    match env.uriIsAbsolute(child)
    case None => false
    case Some(absolute) => !absolute
  }

  /**
   * The containment test of tryResolveNonFile: the resolved path agrees with
   * the base path up to and including the base's last '/' (the whole base path
   * when it has none), and has no ".." from that position on.
   */
  predicate ContainedIn(basePath: string, urlPath: string) {
    var pos := if LastIndexOf(basePath, '/') == -1 then |basePath| - 1 else LastIndexOf(basePath, '/');
    pos + 1 <= |urlPath| && urlPath[..pos + 1] == basePath[..pos + 1] && !OccursFrom(urlPath, "..", pos)
  }

  /** new URL(base, spec), with a MalformedURLException as Failure. */
  function NewUrl(env: Env, base: Url, spec: string): (r: Result<Url, Exception>)
    ensures r.Success? <==> env.resolve(base, spec).Some?
    ensures r.Success? ==> r.value == env.resolve(base, spec).value
    ensures r.Failure? ==> r.error.kind == MalformedURLException
  {
    match env.resolve(base, spec)
    case None => Failure(Err(MalformedURLException, spec))
    case Some(u) => Success(u)
  }

  /**
   * tryResolveFile(base, input): null exactly when the input has a scheme
   * (text before its first ':') other than "file", ignoring case.
   */
  function TryResolveFile(env: Env, base: Url, input: string): (r: Result<Option<Url>, Exception>)
    ensures (r.Success? && r.value.None?) <==> IndexOf(input, ':') >= 0 && !EqualsIgnoreCase(FILE, input[..IndexOf(input, ':')])
    ensures r.Success? && r.value.Some? ==> env.resolve(base, input) == Some(r.value.value)
    ensures r.Failure? ==> r.error.kind == MalformedURLException
  {
    var index := IndexOf(input, ':');
    var isFile := if index >= 0 then EqualsIgnoreCase(FILE, input[..index]) else true;
    if isFile then
      match NewUrl(env, base, input)
      case Success(u) => Success(Some(u))
      case Failure(e) => Failure(e)
    else Success(None)
  }

  /**
   * tryResolveNonFile(base, input): the resolution of a relative input
   * (separators turned into '/'), kept only when it stays inside the base's
   * directory.
   */
  function TryResolveNonFile(env: Env, base: Url, input: string): (r: Result<Option<Url>, Exception>)
    ensures r.Success? && r.value.Some? <==>
      var child := ReplaceChar(input, env.separatorChar, '/');
      IsRelative(env, child) && env.resolve(base, child).Some?
      && ContainedIn(base.path, env.resolve(base, child).value.path)
    ensures r.Success? && r.value.Some? ==> r.value.value == env.resolve(base, ReplaceChar(input, env.separatorChar, '/')).value
    ensures r.Failure? ==> r.error.kind == MalformedURLException
  {
    var child := ReplaceChar(input, env.separatorChar, '/');
    if IsRelative(env, child) then
      match NewUrl(env, base, child)
      case Failure(e) => Failure(e)
      case Success(url) =>
        var bp := base.path;
        var urlp := url.path;
        var pos := if LastIndexOf(bp, '/') == -1 then |bp| - 1 else LastIndexOf(bp, '/');
        if RegionMatches(urlp, bp, pos + 1) && !OccursFrom(urlp, "..", pos) then Success(Some(url))
        else Success(None)
    else Success(None)
  }

  /** a.regionMatches(0, b, 0, len) for len >= 0: both have len characters and they agree. */
  predicate RegionMatches(a: string, b: string, len: nat) {
    len <= |a| && len <= |b| && a[..len] == b[..len]
  }

  /** tryResolve(base, input): the file rule for a "file" base (ignoring case), the containment rule otherwise. */
  function TryResolve(env: Env, base: Url, input: string): (r: Result<Option<Url>, Exception>)
    ensures EqualsIgnoreCase(FILE, base.protocol) ==> r == TryResolveFile(env, base, input)
    ensures !EqualsIgnoreCase(FILE, base.protocol) ==> r == TryResolveNonFile(env, base, input)
  {
    if EqualsIgnoreCase(FILE, base.protocol) then TryResolveFile(env, base, input)
    else TryResolveNonFile(env, base, input)
  }

  /** A non-file base never accepts an absolute or unparsable Class-Path token. */
  lemma NonFileRejectsAbsolute(env: Env, base: Url, input: string)
    requires !EqualsIgnoreCase(FILE, base.protocol)
    requires !IsRelative(env, ReplaceChar(input, env.separatorChar, '/'))
    ensures TryResolve(env, base, input) == Success(None)
  {
  }

  /** What one Class-Path token turns into: the plain resolution when the check is disabled, tryResolve otherwise. */
  function ResolveToken(env: Env, base: Url, path: string): Result<Option<Url>, Exception> {
    if env.disableCpUrlCheck then
      match NewUrl(env, base, path)
      case Success(u) => Success(Some(u))
      case Failure(e) => Failure(e)
    else TryResolve(env, base, path)
  }

  /** The surviving URLs of the tokens, in order; the first failing token fails the whole parse. */
  function Survivors(env: Env, base: Url, tokens: seq<string>): (r: Result<seq<Url>, Exception>)
    ensures r.Success? ==> |r.value| <= |tokens|
  {
    if tokens == [] then Success([])
    else
      match Survivors(env, base, tokens[..|tokens| - 1])
      case Failure(e) => Failure(e)
      case Success(s) =>
        match ResolveToken(env, base, tokens[|tokens| - 1])
        case Failure(e) => Failure(e)
        case Success(None) => Success(s)
        case Success(Some(u)) => Success(s + [u])
  }

  /** With the check disabled and every token resolvable, the survivors are all tokens' resolutions in order. */
  lemma {:induction false} DisabledCheckKeepsEveryToken(env: Env, base: Url, tokens: seq<string>)
    requires env.disableCpUrlCheck
    requires forall i :: 0 <= i < |tokens| ==> env.resolve(base, tokens[i]).Some?
    ensures Survivors(env, base, tokens).Success?
    ensures |Survivors(env, base, tokens).value| == |tokens|
    ensures forall i :: 0 <= i < |tokens| ==> env.resolve(base, tokens[i]) == Some(Survivors(env, base, tokens).value[i])
  {
    if tokens != [] {
      var init := tokens[..|tokens| - 1];
      DisabledCheckKeepsEveryToken(env, base, init);
      assert forall i :: 0 <= i < |init| ==> init[i] == tokens[i];
    }
  }

  /** A MalformedURLException on any token, before which every token resolved, fails the whole parse. */
  lemma {:induction false} MalformedTokenFailsParse(env: Env, base: Url, tokens: seq<string>, k: nat)
    requires k < |tokens|
    requires forall i :: 0 <= i < k ==> ResolveToken(env, base, tokens[i]).Success?
    requires ResolveToken(env, base, tokens[k]).Failure?
    ensures Survivors(env, base, tokens) == Failure(ResolveToken(env, base, tokens[k]).error)
  {
    var init := tokens[..|tokens| - 1];
    if k < |tokens| - 1 {
      MalformedTokenFailsParse(env, base, init, k);
    } else {
      SurvivorsOfResolvable(env, base, init);
    }
  }

  /** Survivors over one more token. */
  lemma SurvivorsStep(env: Env, base: Url, tokens: seq<string>, k: nat, s: seq<Url>)
    requires k < |tokens| && Survivors(env, base, tokens[..k]) == Success(s)
    ensures var t := ResolveToken(env, base, tokens[k]);
      Survivors(env, base, tokens[..k + 1]) ==
        match t
        case Failure(e) => Failure(e)
        case Success(None) => Success(s)
        case Success(Some(u)) => Success(s + [u])
  {
    assert tokens[..k + 1][..k] == tokens[..k];
  }

  /** Once a prefix of the tokens fails, the whole parse fails the same way. */
  lemma {:induction false} SurvivorsFailureExtends(env: Env, base: Url, tokens: seq<string>, k: nat)
    requires k <= |tokens|
    requires Survivors(env, base, tokens[..k]).Failure?
    ensures Survivors(env, base, tokens) == Survivors(env, base, tokens[..k])
    decreases |tokens| - k
  {
    if k < |tokens| {
      var init := tokens[..|tokens| - 1];
      assert init[..k] == tokens[..k];
      SurvivorsFailureExtends(env, base, init, k);
    } else {
      assert tokens[..k] == tokens;
    }
  }

  lemma {:induction false} SurvivorsOfResolvable(env: Env, base: Url, tokens: seq<string>)
    requires forall i :: 0 <= i < |tokens| ==> ResolveToken(env, base, tokens[i]).Success?
    ensures Survivors(env, base, tokens).Success?
  {
    if tokens != [] {
      SurvivorsOfResolvable(env, base, tokens[..|tokens| - 1]);
    }
  }

  /** What parseClassPath returns: null when no token survives, otherwise exactly the survivors. */
  function ParsedClassPath(env: Env, base: Url, value: string): Result<Option<seq<Url>>, Exception> {
    match Survivors(env, base, Tokens(value))
    case Failure(e) => Failure(e)
    case Success(s) => if s == [] then Success(None) else Success(Some(s))
  }

  /**
   * One token of parseClassPath's loop: resolve it (plainly when the check is
   * disabled, by tryResolve otherwise) and store a non-null result at the
   * next free slot of the array.
   */
  method ParseToken(env: Env, base: Url, tokens: seq<string>, k: nat, urls: array<Url>, i: nat) returns (i': nat, err: Option<Exception>)
    requires i <= k < |tokens| == urls.Length
    requires Survivors(env, base, tokens[..k]) == Success(urls[..i])
    modifies urls
    ensures err.None? ==> i' <= k + 1 && Survivors(env, base, tokens[..k + 1]) == Success(urls[..i'])
    ensures err.Some? ==> Survivors(env, base, tokens[..k + 1]) == Failure(err.value)
  {
    SurvivorsStep(env, base, tokens, k, urls[..i]);
    var url := ResolveToken(env, base, tokens[k]);
    i', err := i, None;
    if url.Failure? {
      return i, Some(url.error);
    }
    ghost var kept := urls[..i];
    if url.value.Some? {
      urls[i] := url.value.value;
      assert urls[..i + 1] == kept + [url.value.value];
      i' := i + 1;
    }
  }

  /** parseClassPath(base, value): fill an array as long as the token count, then truncate it. */
  method ParseClassPath(env: Env, base: Url, value: string) returns (r: Result<Option<seq<Url>>, Exception>)
    ensures r == ParsedClassPath(env, base, value)
  {
    var tokens := Tokens(value);
    var urls := new Url[|tokens|];
    var i := 0;
    var k := 0;
    while k < |tokens|
      invariant 0 <= i <= k <= |tokens|
      invariant Survivors(env, base, tokens[..k]) == Success(urls[..i])
    {
      var err;
      i, err := ParseToken(env, base, tokens, k, urls, i);
      if err.Some? {
        SurvivorsFailureExtends(env, base, tokens, k + 1);
        return Failure(err.value);
      }
      k := k + 1;
    }
    assert tokens[..|tokens|] == tokens;
    if i == 0 {
      return Success(None);
    }
    return Success(Some(urls[..i]));
  }

  /** A parsed Class-Path has at least one and at most as many URLs as tokens. */
  lemma ParsedClassPathBounds(env: Env, base: Url, value: string)
    ensures var r := ParsedClassPath(env, base, value);
      r.Success? && r.value.Some? ==> 0 < |r.value.value| <= |Tokens(value)|
  {
  }

  /** The Class-Path main attribute of the manifest, if there is one. */
  function ClassPathAttribute(archive: JarArchive): Option<string> {
    if archive.manifest.Some? && CLASS_PATH in archive.manifest.value.main then Some(archive.manifest.value.main[CLASS_PATH])
    else None
  }

  /** getClassPath() of a jar: the parsed Class-Path attribute, or null without one. */
  function JarClassPath(env: Env, csu: Url, archive: JarArchive): (r: Result<Option<seq<Url>>, Exception>)
    ensures ClassPathAttribute(archive).None? ==> r == Success(None)
    ensures ClassPathAttribute(archive).Some? ==> r == ParsedClassPath(env, csu, ClassPathAttribute(archive).value)
  {
    match ClassPathAttribute(archive)
    case None => Success(None)
    case Some(value) => ParsedClassPath(env, csu, value)
  }

  /** The first entry of the archive with exactly this name. */
  function FindNamed(entries: seq<JarEntry>, name: string): (r: Option<JarEntry>)
    ensures r.Some? <==> exists i :: 0 <= i < |entries| && entries[i].name == name
    ensures r.Some? ==> r.value in entries && r.value.name == name
  {
    if entries == [] then None
    else if entries[0].name == name then Some(entries[0])
    else
      var r := FindNamed(entries[1..], name);
      assert forall i :: 1 <= i < |entries| ==> entries[i] == entries[1..][i - 1];
      r
  }

  /**
   * JarFile.getJarEntry(name): the entry of exactly this name; failing that,
   * for a non-empty name not ending in '/', the directory entry name + "/".
   */
  function FindEntry(entries: seq<JarEntry>, name: string): (r: Option<JarEntry>)
    ensures r.Some? <==>
      (exists i :: 0 <= i < |entries| && entries[i].name == name)
      || (name != [] && name[|name| - 1] != '/' && exists i :: 0 <= i < |entries| && entries[i].name == name + "/")
    ensures (exists i :: 0 <= i < |entries| && entries[i].name == name) ==> r.Some? && r.value.name == name
    ensures r.Some? ==> r.value in entries && (r.value.name == name || r.value.name == name + "/")
  {
    match FindNamed(entries, name)
    case Some(e) => Some(e)
    case None => if name == [] || name[|name| - 1] == '/' then None else FindNamed(entries, name + "/")
  }

  /** A directory is found under its name without the trailing '/' unless an entry has that name itself. */
  lemma DirectoryEntryFallback(entries: seq<JarEntry>, dir: string)
    requires dir != [] && dir[|dir| - 1] != '/'
    requires forall i :: 0 <= i < |entries| ==> entries[i].name != dir
    requires exists i :: 0 <= i < |entries| && entries[i].name == dir + "/"
    ensures FindEntry(entries, dir).Some? && FindEntry(entries, dir).value.name == dir + "/"
  {
  }

  /** The base URL of a jar loader: the URL itself when its path ends in "!/", else jar:<url>!/. */
  function JarBase(env: Env, url: Url): (r: Url)
    ensures EndsWith(url.path, "!/") ==> r == url
    ensures !EndsWith(url.path, "!/") ==> r.protocol == "jar" && r.File() == env.externalForm(url) + "!/"
  {
    if EndsWith(url.path, "!/") then url
    else Url("jar", "", env.externalForm(url) + "!/", None, None)
  }

  class FastJarLoader {
    const base: Url
    const csu: Url
    const jar: JarArchive
    const env: Env
    var indexKeys: Option<set<string>>
    var closed: bool

    /** The memoised keys, once computed, are the archive's keys. */
    ghost predicate Valid()
      reads this
    {
      indexKeys.Some? ==> indexKeys.value == JarKeys(jar.entries, env.metaInfFilenames)
    }

    constructor (base: Url, csu: Url, jar: JarArchive, env: Env)
      ensures this.base == base && this.csu == csu && this.jar == jar && this.env == env
      ensures indexKeys.None? && !closed && Valid()
    {
      this.base := base;
      this.csu := csu;
      this.jar := jar;
      this.env := env;
      indexKeys := None;
      closed := false;
    }

    /** getIndexKeys(): computed on the first call, then reused. */
    method GetIndexKeys() returns (keys: set<string>)
      requires Valid()
      modifies this`indexKeys
      ensures Valid() && indexKeys == Some(keys)
      ensures keys == JarKeys(jar.entries, env.metaInfFilenames)
      ensures old(indexKeys).Some? ==> indexKeys == old(indexKeys)
    {
      if indexKeys.None? {
        var computed := GetIndexKeys0(jar.entries, env.metaInfFilenames);
        indexKeys := Some(computed);
      }
      keys := indexKeys.value;
    }

    /** getClassPath(): the manifest's Class-Path, parsed against the code source URL. */
    method GetClassPath() returns (r: Result<Option<seq<Url>>, Exception>)
      ensures r == JarClassPath(env, csu, jar)
    {
      var attribute := ClassPathAttribute(jar);
      if attribute.Some? {
        r := ParseClassPath(env, csu, attribute.value);
        return;
      }
      return Success(None);
    }

    /** close(): closes the archive on the first call only; its IOException is the result. */
    method Close() returns (r: Option<Exception>)
      requires Valid()
      modifies this`closed
      ensures Valid() && closed
      ensures old(closed) ==> r.None?
      ensures !old(closed) ==> (r.Some? <==> jar.closeFails)
      ensures r.Some? ==> r.value == CLOSE_FAILED
    {
      if !closed {
        closed := true;
        if jar.closeFails {
          return Some(CLOSE_FAILED);
        }
      }
      return None;
    }

    /**
     * getResource(name, check): the entry getJarEntry finds for the name, described as
     * a resource whose URL is the base resolved against the encoded name; null
     * when there is no such entry or that URL is malformed. Once the loader is
     * closed its archive is closed, and getJarEntry throws IllegalStateException.
     */
    function GetResource(name: string): (r: Result<Option<ResourceInfo>, Exception>)
      reads this
      ensures r.Failure? <==> closed
      ensures r.Failure? ==> r.error == ZIP_FILE_CLOSED
      ensures r.Success? ==>
        (r.value.Some? <==> FindEntry(jar.entries, name).Some? && env.resolve(base, env.encodePath(name)).Some?)
      ensures r.Success? && r.value.Some? ==>
        (r.value.value.name == name && r.value.value.codeSourceUrl == csu
         && r.value.value.url == env.resolve(base, env.encodePath(name)).value
         && r.value.value.content == Some(FindEntry(jar.entries, name).value.content)
         && r.value.value.origin.FromJar? && r.value.value.origin.manifest == jar.manifest)
    {
      if closed then Failure(ZIP_FILE_CLOSED)
      else
        match FindEntry(jar.entries, name)
        case None => Success(None)
        case Some(entry) =>
          match env.resolve(base, env.encodePath(name))
          case None => Success(None)
          case Some(url) =>
            Success(Some(ResourceInfo(name, url, csu, Some(entry.content), ToInt32(entry.size), 0,
                                      FromJar(jar.manifest, entry.certificates, entry.codeSigners))))
    }

    /** findResource(name, check): the URL of getResource, or null; getResource's exception escapes. */
    function FindResource(name: string): (r: Result<Option<Url>, Exception>)
      reads this
      ensures r.Failure? <==> GetResource(name).Failure?
      ensures r.Failure? ==> r.error == GetResource(name).error
      ensures r.Success? ==> (r.value.Some? <==> GetResource(name).value.Some?)
      ensures r.Success? && r.value.Some? ==> r.value.value == GetResource(name).value.value.url
    {
      match GetResource(name)
      case Failure(e) => Failure(e)
      case Success(None) => Success(None)
      case Success(Some(info)) => Success(Some(info.url))
    }
  }

  /** An entry of unknown size (-1) gives a resource of unknown length, which getBytes reads to end of stream. */
  lemma UnknownSizeIsUnknownLength(loader: FastJarLoader, name: string)
    requires loader.GetResource(name).Success? && loader.GetResource(name).value.Some?
    requires FindEntry(loader.jar.entries, name).value.size == -1
    ensures loader.GetResource(name).value.value.contentLength == -1
  {
  }

  /**
   * new FastJarLoader(url): the archive opened from the URL, or the
   * IOException of opening it.
   */
  method OpenJarLoader(env: Env, url: Url) returns (r: Result<FastJarLoader, Exception>)
    ensures r.Success? <==> url in env.jars
    ensures r.Success? ==>
      (fresh(r.value) && r.value.Valid() && r.value.indexKeys.None? && !r.value.closed
       && r.value.csu == url && r.value.base == JarBase(env, url) && r.value.jar == env.jars[url] && r.value.env == env)
    ensures r.Failure? ==> IsIOException(r.error)
  {
    var base := JarBase(env, url);
    if url !in env.jars {
      return Failure(Err(FileNotFoundException, url.path));
    }
    var loader := new FastJarLoader(base, url, env.jars[url], env);
    return Success(loader);
  }
}
