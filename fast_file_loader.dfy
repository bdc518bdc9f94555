/**
 * FastFileLoader: a loader over one directory. Its index keys are "", the
 * names of the top-level entries and the relative paths of all nested
 * sub-directories; lookups stay under the directory by a URL prefix test and,
 * for names with "..", a canonical-path prefix test.
 */
module FastFileLoaders {
  import opened Wrappers
  import opened JavaErrors
  import opened IntegerUtil
  import opened Text
  import opened Platform
  import opened FastResources

  const FILE: string := "file"
  const NPE: Exception := Err(NullPointerException, "listFiles() returned null")

  /** Every directory in the listing, at any depth, can be listed. */
  predicate AllListable(cs: seq<FsEntry>)
    decreases cs
  {
    if cs == [] then true
    else
      var last := cs[|cs| - 1];
      assert last in cs;
      AllListable(cs[..|cs| - 1]) && (last.DirEntry? ==> last.listable && AllListable(last.children))
  }

  /**
   * The paths collectDir adds for a listing under a prefix: prefix + name for
   * every sub-directory, followed by that sub-directory's own paths under
   * prefix + name + "/". Files contribute nothing.
   */
  function Nested(prefix: string, cs: seq<FsEntry>): set<string>
    decreases cs
  {
    if cs == [] then {}
    else
      var last := cs[|cs| - 1];
      assert last in cs;
      Nested(prefix, cs[..|cs| - 1])
        + (if last.DirEntry? then {prefix + last.name} + Nested(prefix + last.name + "/", last.children) else {})
  }

  /** The path set collectDir gives the directories of a listing, position by position. */
  lemma {:induction false} NestedByPosition(prefix: string, cs: seq<FsEntry>, k: string)
    ensures k in Nested(prefix, cs) <==>
      exists i :: 0 <= i < |cs| && cs[i].DirEntry? && (k == prefix + cs[i].name || k in Nested(prefix + cs[i].name + "/", cs[i].children))
    decreases cs
  {
    if cs != [] {
      var init := cs[..|cs| - 1];
      NestedByPosition(prefix, init, k);
      assert forall i :: 0 <= i < |init| ==> init[i] == cs[i];
      var last := cs[|cs| - 1];
      if k in Nested(prefix, cs) && k !in Nested(prefix, init) {
        assert last.DirEntry? && (k == prefix + last.name || k in Nested(prefix + last.name + "/", last.children));
      }
    }
  }

  /** The keys getIndexKeys0 computes for the root's state; a nested unlistable directory throws NullPointerException. */
  function DirKeys(state: DirState): (r: Result<set<string>, Exception>)
    ensures state.NotADirectory? ==> r == Success({})
    ensures state == Directory(None) ==> r == Success({""})
  {
    match state
    case NotADirectory => Success({})
    case Directory(None) => Success({""})
    case Directory(Some(subs)) =>
      if AllListable(subs) then Success({""} + (set i | 0 <= i < |subs| :: subs[i].Name()) + Nested("", subs))
      else Failure(NPE)
  }

  /**
   * The keys of a listable directory: "", every top-level name (file or
   * directory), and every path a/b/.../d naming a nested directory.
   */
  lemma DirKeysOfListing(subs: seq<FsEntry>, k: string)
    requires AllListable(subs)
    ensures DirKeys(Directory(Some(subs))).Success?
    ensures k in DirKeys(Directory(Some(subs))).value <==>
      k == "" || (exists i :: 0 <= i < |subs| && subs[i].Name() == k) || k in Nested("", subs)
  {
  }

  /** A top-level file is a key, but a file inside a sub-directory is only a key if a directory has its path too. */
  lemma TopLevelFileIsKey(subs: seq<FsEntry>, i: nat)
    requires AllListable(subs) && i < |subs|
    ensures subs[i].Name() in DirKeys(Directory(Some(subs))).value
  {
  }

  /** The paths of a file that sits directly in a sub-directory are not among that sub-directory's paths unless a directory shares its name. */
  lemma NestedFileIsNoKey(prefix: string, cs: seq<FsEntry>, i: nat)
    requires i < |cs| && cs[i].FileEntry?
    requires forall j :: 0 <= j < |cs| && cs[j].DirEntry? ==> cs[j].name != cs[i].name
    requires forall j :: 0 <= j < |cs| && cs[j].DirEntry? ==> !StartsWith(prefix + cs[i].name, prefix + cs[j].name + "/")
    ensures prefix + cs[i].name !in Nested(prefix, cs)
  {
    var k := prefix + cs[i].name;
    NestedByPosition(prefix, cs, k);
    if k in Nested(prefix, cs) {
      var j :| 0 <= j < |cs| && cs[j].DirEntry? && (k == prefix + cs[j].name || k in Nested(prefix + cs[j].name + "/", cs[j].children));
      DistinctNamesDistinctPaths(prefix, cs[j].name, cs[i].name);
      NestedHasPrefix(prefix + cs[j].name + "/", cs[j].children, k);
    }
  }

  lemma DistinctNamesDistinctPaths(prefix: string, a: string, b: string)
    requires a != b
    ensures prefix + a != prefix + b
  {
    assert (prefix + a)[|prefix|..] == a && (prefix + b)[|prefix|..] == b;
  }

  /** Every path collected under a prefix starts with it. */
  lemma {:induction false} NestedHasPrefix(prefix: string, cs: seq<FsEntry>, k: string)
    requires k in Nested(prefix, cs)
    ensures StartsWith(k, prefix)
    decreases cs
  {
    NestedByPosition(prefix, cs, k);
    var j :| 0 <= j < |cs| && cs[j].DirEntry? && (k == prefix + cs[j].name || k in Nested(prefix + cs[j].name + "/", cs[j].children));
    assert cs[j] in cs;
    if k != prefix + cs[j].name {
      NestedHasPrefix(prefix + cs[j].name + "/", cs[j].children, k);
    }
  }

  /**
   * collectDir(paths, prefix, dir): add the paths of dir's sub-directories,
   * recursively; an unlistable directory on the way throws NullPointerException.
   */
  method CollectDir(paths: set<string>, prefix: string, dir: FsEntry) returns (r: Result<set<string>, Exception>)
    requires dir.DirEntry?
    ensures dir.listable && AllListable(dir.children) ==> r == Success(paths + Nested(prefix, dir.children))
    ensures !(dir.listable && AllListable(dir.children)) ==> r == Failure(NPE)
    decreases dir
  {
    if !dir.listable {
      return Failure(NPE);
    }
    var subFiles := dir.children;
    var acc := paths;
    var i := 0;
    while i < |subFiles|
      invariant 0 <= i <= |subFiles|
      invariant AllListable(subFiles[..i])
      invariant acc == paths + Nested(prefix, subFiles[..i])
    {
      var subFile := subFiles[i];
      assert subFiles[..i + 1][..i] == subFiles[..i];
      if subFile.DirEntry? {
        var path := prefix + subFile.name;
        acc := acc + {path};
        assert subFile in dir.children;
        var collected := CollectDir(acc, path + "/", subFile);
        if collected.Failure? {
          NotAllListable(subFiles, i);
          return collected;
        }
        acc := collected.value;
      }
      i := i + 1;
    }
    assert subFiles[..|subFiles|] == subFiles;
    return Success(acc);
  }

  /** A listing with an unlistable directory at some position is not all listable. */
  lemma {:induction false} NotAllListable(cs: seq<FsEntry>, i: nat)
    requires i < |cs| && cs[i].DirEntry? && !(cs[i].listable && AllListable(cs[i].children))
    ensures !AllListable(cs)
    decreases |cs|
  {
    if i < |cs| - 1 {
      NotAllListable(cs[..|cs| - 1], i);
    }
  }

  /** getIndexKeys0(): the keys of the root directory from its listing. */
  method GetIndexKeys0(state: DirState) returns (r: Result<set<string>, Exception>)
    ensures r == DirKeys(state)
  {
    if !state.Directory? {
      return Success({});
    }
    if state.listing.None? {
      return Success({""});
    }
    var subFiles := state.listing.value;
    var result: set<string> := {""};
    var i := 0;
    while i < |subFiles|
      invariant 0 <= i <= |subFiles|
      invariant AllListable(subFiles[..i])
      invariant result == {""} + (set j | 0 <= j < i :: subFiles[j].Name()) + Nested("", subFiles[..i])
    {
      var subFile := subFiles[i];
      assert subFiles[..i + 1][..i] == subFiles[..i];
      var name := subFile.Name();
      result := result + {name};
      if subFile.DirEntry? {
        assert "" + name == name;
        var collected := CollectDir(result, name + "/", subFile);
        if collected.Failure? {
          NotAllListable(subFiles, i);
          return collected;
        }
        result := collected.value;
      }
      assert (set j | 0 <= j < i + 1 :: subFiles[j].Name()) == (set j | 0 <= j < i :: subFiles[j].Name()) + {name};
      i := i + 1;
    }
    assert subFiles[..|subFiles|] == subFiles;
    return Success(result);
  }

  class FastFileLoader {
    const base: Url
    /** The canonical path of the directory. */
    const dir: string
    const env: Env
    var indexKeys: Option<set<string>>

    /** The memoised keys, once computed, are the directory's keys. */
    ghost predicate Valid()
      reads this
    {
      indexKeys.Some? ==> DirKeys(env.dirs(dir)) == Success(indexKeys.value)
    }

    constructor (base: Url, dir: string, env: Env)
      ensures this.base == base && this.dir == dir && this.env == env && indexKeys.None? && Valid()
    {
      this.base := base;
      this.dir := dir;
      this.env := env;
      indexKeys := None;
    }

    /** getIndexKeys(): computed on the first successful call, then reused. */
    method GetIndexKeys() returns (r: Result<set<string>, Exception>)
      requires Valid()
      modifies this`indexKeys
      ensures Valid()
      ensures r == DirKeys(env.dirs(dir))
      ensures r.Success? ==> indexKeys == Some(r.value)
      ensures r.Failure? ==> indexKeys == old(indexKeys)
    {
      if indexKeys.None? {
        var computed := GetIndexKeys0(env.dirs(dir));
        if computed.Failure? {
          return computed;
        }
        indexKeys := Some(computed.value);
      }
      return Success(indexKeys.value);
    }

    /**
     * The file a name designates, if it stays inside the directory: a name with
     * ".." is canonicalised and must start, as a plain string, with the
     * directory's path; other names are joined without canonicalisation.
     */
    function ResolvedFile(name: string): (r: Option<string>)
      ensures !Contains(name, "..") ==> r == Some(env.childPath(dir, ReplaceChar(name, '/', env.separatorChar)))
      ensures Contains(name, "..") ==>
        (r.Some? <==> (var c := env.canonical(env.childPath(dir, ReplaceChar(name, '/', env.separatorChar)));
                       c.Some? && StartsWith(c.value, dir)))
      ensures Contains(name, "..") && r.Some? ==>
        Some(r.value) == env.canonical(env.childPath(dir, ReplaceChar(name, '/', env.separatorChar)))
    {
      var joined := env.childPath(dir, ReplaceChar(name, '/', env.separatorChar));
      if Contains(name, "..") then
        match env.canonical(joined)
        case None => None
        case Some(path) => if StartsWith(path, dir) then Some(path) else None
      else Some(joined)
    }

    /**
     * getResource(name, check): the resource for a name whose URL stays under
     * the base URL resolved against ".", whose file stays inside the
     * directory and exists; null otherwise, and for every exception on the way.
     */
    function GetResource(name: string): (r: Option<ResourceInfo>)
      ensures r.Some? ==>
        (env.resolve(base, ".").Some? && env.resolve(base, env.encodePath(name)).Some?
         && StartsWith(env.resolve(base, env.encodePath(name)).value.File(), env.resolve(base, ".").value.File())
         && ResolvedFile(name).Some? && env.files(ResolvedFile(name).value).Some?)
      ensures r.Some? ==>
        (r.value.name == name && r.value.url == env.resolve(base, env.encodePath(name)).value
         && r.value.codeSourceUrl == base && r.value.origin == FromDirectory
         && r.value.content == Some(env.files(ResolvedFile(name).value).value.content))
      ensures (env.resolve(base, ".").Some? && env.resolve(base, env.encodePath(name)).Some?
               && StartsWith(env.resolve(base, env.encodePath(name)).value.File(), env.resolve(base, ".").value.File())
               && ResolvedFile(name).Some? && env.files(ResolvedFile(name).value).Some?) ==> r.Some?
    {
      match env.resolve(base, ".")
      case None => None
      case Some(normalizedBase) =>
        match env.resolve(base, env.encodePath(name))
        case None => None
        case Some(url) =>
          if !StartsWith(url.File(), normalizedBase.File()) then None
          else
            match ResolvedFile(name)
            case None => None
            case Some(file) =>
              match env.files(file)
              case None => None
              case Some(info) => Some(ResourceInfo(name, url, base, Some(info.content), ToInt32(info.length), 0, FromDirectory))
    }

    /** findResource(name, check): the URL of getResource, or null. */
    function FindResource(name: string): (r: Option<Url>)
      ensures r.Some? <==> GetResource(name).Some?
      ensures r.Some? ==> r.value == GetResource(name).value.url
    {
      match GetResource(name)
      case None => None
      case Some(info) => Some(info.url)
    }
  }

  /**
   * The canonical-path test is a plain string prefix: with the directory
   * /srv/app, a name with ".." whose canonical file is /srv/app-data/x passes
   * it, although that file is in a sibling directory.
   */
  lemma PlainPrefixAdmitsSibling(loader: FastFileLoader, name: string)
    requires loader.dir == "/srv/app" && Contains(name, "..")
    requires loader.env.canonical(loader.env.childPath(loader.dir, ReplaceChar(name, '/', loader.env.separatorChar)))
             == Some("/srv/app-data/x")
    ensures loader.ResolvedFile(name) == Some("/srv/app-data/x")
    ensures !StartsWith("/srv/app-data/x", loader.dir + "/")
  {
    assert "/srv/app-data/x"[..|"/srv/app"|] == "/srv/app";
    assert "/srv/app-data/x"[8] != ("/srv/app" + "/")[8];
  }

  /**
   * new FastFileLoader(url): only the "file" protocol is accepted
   * (IllegalArgumentException otherwise); the directory is the canonical file
   * of the decoded URL path.
   */
  method OpenFileLoader(env: Env, url: Url) returns (r: Result<FastFileLoader, Exception>)
    ensures url.protocol != FILE ==> r.Failure? && r.error.kind == IllegalArgumentException
    ensures url.protocol == FILE ==> r.Failure? ==> IsIOException(r.error)
    ensures url.protocol == FILE ==>
      (r.Success? <==> env.canonical(env.decode(ReplaceChar(url.File(), '/', env.separatorChar))).Some?)
    ensures r.Success? ==>
      (fresh(r.value) && r.value.Valid() && r.value.indexKeys.None? && r.value.base == url && r.value.env == env
       && Some(r.value.dir) == env.canonical(env.decode(ReplaceChar(url.File(), '/', env.separatorChar))))
  {
    if url.protocol != FILE {
      return Failure(Err(IllegalArgumentException, "url"));
    }
    var path := ReplaceChar(url.File(), '/', env.separatorChar);
    path := env.decode(path);
    var canonical := env.canonical(path);
    if canonical.None? {
      return Failure(Err(IOException, path));
    }
    var loader := new FastFileLoader(url, canonical.value, env);
    return Success(loader);
  }
}
