/**
 * FastURLClassPath: the search path of URLs, expanded depth-first through the
 * jars' Class-Path attributes into loaders (one per fragment-free URL
 * string), indexed, and searched first-hit or all-hits.
 */
module FastURLClassPaths {
  import opened Wrappers
  import opened JavaErrors
  import opened Text
  import opened Platform
  import opened FastResources
  import opened FastJarLoaders
  import FastFileLoaders
  import opened FastLoaders
  import opened FastLoaderIndexes

  /** How getLoader treats a URL: a jar loader, a directory loader, an IOException, or an unsupported protocol. */
  datatype Opening = AsJar | AsDir | OpenFails | Unsupported

  /** The decoded directory path a "file" URL ending in '/' names. */
  function DirPath(env: Env, url: Url): string {
    env.decode(ReplaceChar(url.File(), '/', env.separatorChar))
  }

  /**
   * getLoader(url): protocol "jar" gives a jar loader; a file part ending in
   * '/' gives a directory loader for "file" and IllegalStateException for
   * any other protocol; anything else gives a jar loader. Opening a jar fails
   * unless it is one of the archives; opening a directory fails when its path
   * has no canonical form.
   */
  function OpeningOf(env: Env, url: Url): Opening {
    if url.protocol == "jar" then (if url in env.jars then AsJar else OpenFails)
    else if EndsWith(url.File(), "/") then
      if url.protocol == FastFileLoaders.FILE then
        (if env.canonical(DirPath(env, url)).Some? then AsDir else OpenFails)
      else Unsupported
    else if url in env.jars then AsJar else OpenFails
  }

  function UnsupportedProtocol(env: Env, url: Url): Exception {
    Err(IllegalStateException, "Url protocol not support! URL: " + env.externalForm(url))
  }

  /** What identifies a loader: its kind and the constants it was constructed with. */
  datatype LoaderDesc =
    | JarDesc(csu: Url, base: Url, jar: JarArchive, env: Env)
    | DirDesc(base: Url, dir: string, env: Env)
    | NoLoader

  function Describe(l: Loader): LoaderDesc {
    match l
    case JarLoader(j) => JarDesc(j.csu, j.base, j.jar, j.env)
    case DirLoader(d) => DirDesc(d.base, d.dir, d.env)
  }

  /** The loader getLoader constructs for url: a jar loader over the archive, a directory loader over the canonical path, or none. */
  function Expected(env: Env, url: Url): LoaderDesc {
    match OpeningOf(env, url)
    case AsJar => JarDesc(url, JarBase(env, url), env.jars[url], env)
    case AsDir => DirDesc(url, env.canonical(DirPath(env, url)).value, env)
    case _ => NoLoader
  }

  /** The loader l is the one getLoader opens for url. */
  ghost predicate LoaderFor(env: Env, l: Loader, url: Url) {
    Describe(l) == Expected(env, url)
  }

  /** The URLs a loader for url declares: the jar's Class-Path when it parses and has survivors, none otherwise. */
  function ClassPathUrls(env: Env, url: Url): seq<Url> {
    if OpeningOf(env, url) == AsJar then
      match JarClassPath(env, url, env.jars[url])
      case Success(Some(us)) => us
      case _ => []
    else []
  }

  /** The loader for a URL sees the URL's class path and keys. */
  lemma LoaderForSpecs(env: Env, l: Loader, url: Url)
    requires LoaderFor(env, l, url)
    ensures l.ClassPathSpec().Success? && l.ClassPathSpec().value.Some? ==> l.ClassPathSpec().value.value == ClassPathUrls(env, url)
    ensures !(l.ClassPathSpec().Success? && l.ClassPathSpec().value.Some?) ==> ClassPathUrls(env, url) == []
    ensures l.KeySpec() == UrlKeys(env, url)
  {
  }

  /** The index keys of the loader getLoader opens for a URL. */
  function UrlKeys(env: Env, url: Url): Result<set<string>, Exception> {
    match OpeningOf(env, url)
    case AsJar => Success(JarKeys(env.jars[url].entries, env.metaInfFilenames))
    case AsDir => FastFileLoaders.DirKeys(env.dirs(env.canonical(DirPath(env, url)).value))
    case _ => Success({})
  }

  /** getLoader(url) */
  method GetLoader(env: Env, url: Url) returns (r: Result<Loader, Exception>)
    ensures OpeningOf(env, url) == Unsupported <==> r == Failure(UnsupportedProtocol(env, url))
    ensures OpeningOf(env, url) == OpenFails <==> r.Failure? && IsIOException(r.error)
    ensures r.Success? <==> OpeningOf(env, url) in {AsJar, AsDir}
    ensures r.Success? ==> LoaderFor(env, r.value, url) && fresh(r.value.Obj()) && r.value.Valid()
    ensures r.Success? && r.value.JarLoader? ==> r.value.jar.indexKeys.None? && !r.value.jar.closed
    ensures r.Success? && r.value.DirLoader? ==> r.value.dir.indexKeys.None?
  {
    var file := url.File();
    if url.protocol == "jar" {
      var jarLoader := OpenJarLoader(env, url);
      if jarLoader.Failure? {
        return Failure(jarLoader.error);
      }
      return Success(JarLoader(jarLoader.value));
    } else if EndsWith(file, "/") {
      if url.protocol == FastFileLoaders.FILE {
        var fileLoader := FastFileLoaders.OpenFileLoader(env, url);
        if fileLoader.Failure? {
          return Failure(fileLoader.error);
        }
        return Success(DirLoader(fileLoader.value));
      } else {
        return Failure(UnsupportedProtocol(env, url));
      }
    } else {
      var jarLoader := OpenJarLoader(env, url);
      if jarLoader.Failure? {
        return Failure(jarLoader.error);
      }
      return Success(JarLoader(jarLoader.value));
    }
  }

  /** pushUrls(urls, us): us pushed from last to first, so they pop in their own order before the rest. */
  method PushUrls(stack: seq<Url>, us: seq<Url>) returns (r: seq<Url>)
    ensures r == us + stack
  {
    r := stack;
    var i := |us|;
    while i > 0
      invariant 0 <= i <= |us|
      invariant r == us[i..] + stack
    {
      i := i - 1;
      r := [us[i]] + r;
      assert us[i..] == [us[i]] + us[i + 1..];
    }
  }

  /**
   * What the worklist of createLoaders needs to know about URLs: the map key
   * of a URL (its fragment-free string), how getLoader treats it, the
   * Class-Path URLs its loader declares, the exception an unsupported URL
   * raises, and the keys of all the jars there are.
   */
  datatype Traversal = Traversal(
    key: Url -> string,
    opening: Url -> Opening,
    push: Url -> seq<Url>,
    stop: Url -> Exception,
    bound: set<string>,
    expected: Url -> LoaderDesc)

  /** Only a URL whose key is among the jar keys declares Class-Path URLs: this is what makes the worklist end. */
  ghost predicate Bounded(t: Traversal) {
    forall u :: t.push(u) != [] ==> t.key(u) in t.bound
  }

  /** The traversal of a platform. */
  ghost function TraversalOf(env: Env): (t: Traversal)
    ensures Bounded(t) && Models(t, env)
  {
    var t := Traversal(
      u => env.noFragString(u),
      u => OpeningOf(env, u),
      u => ClassPathUrls(env, u),
      u => UnsupportedProtocol(env, u),
      JarKeySpace(env),
      u => Expected(env, u));
    assert forall u :: t.push(u) != [] ==> u in env.jars;
    t
  }

  /** The traversal answers for u as the platform does: map key, getLoader's treatment, Class-Path URLs and the unsupported-protocol exception. */
  ghost predicate Answers(t: Traversal, env: Env, u: Url) {
    && t.key(u) == env.noFragString(u)
    && t.opening(u) == OpeningOf(env, u)
    && t.push(u) == ClassPathUrls(env, u)
    && t.stop(u) == UnsupportedProtocol(env, u)
    && t.expected(u) == Expected(env, u)
  }

  /** The traversal's key is the fragment-free URL string. */
  lemma KeyOf(t: Traversal, env: Env, u: Url)
    requires Models(t, env)
    ensures t.key(u) == env.noFragString(u)
  {
    assert Answers(t, env, u);
  }

  /** The traversal answers for every URL as the platform does. */
  ghost predicate Models(t: Traversal, env: Env) {
    forall u :: Answers(t, env, u)
  }

  /**
   * The state of createLoaders' worklist: the stack of URLs still to pop (top
   * first), the keys mapped, the URLs opened so far, in order, and an
   * exception that escaped.
   */
  datatype Walk = Walk(stack: seq<Url>, keys: set<string>, visited: seq<Url>, error: Option<Exception>)

  /** The worklist as createLoaders starts it: us to pop, the given keys mapped. */
  function Start(us: seq<Url>, keys: set<string>): Walk {
    Walk(us, keys, [], None)
  }

  /** The loop of createLoaders is over: the stack is empty or an exception escaped. */
  predicate Finished(w: Walk) {
    w.stack == [] || w.error.Some?
  }

  /** What createLoaders does with the URL it pops: skip it, stop with an exception, or open and map it. */
  datatype Step = Skip | Stop(error: Exception) | Open

  /**
   * A URL whose key is mapped is skipped, as is one whose loader fails with
   * an IOException; an unsupported protocol stops the worklist.
   */
  function StepOf(t: Traversal, url: Url, keys: set<string>): Step {
    if t.key(url) in keys then Skip
    else
      match t.opening(url)
      case Unsupported => Stop(t.stop(url))
      case OpenFails => Skip
      case _ => Open
  }

  /**
   * One turn of createLoaders' loop: pop the top URL; skip it, stop with its
   * exception, or map its key and push its Class-Path URLs.
   */
  function Next(t: Traversal, w: Walk): Walk
    requires !Finished(w)
  {
    var url := w.stack[0];
    match StepOf(t, url, w.keys)
    case Skip => Walk(w.stack[1..], w.keys, w.visited, None)
    case Stop(e) => Walk(w.stack, w.keys, w.visited, Some(e))
    case Open => Walk(t.push(url) + w.stack[1..], w.keys + {t.key(url)}, w.visited + [url], None)
  }

  /**
   * Mapping a URL never grows the jar keys still unmapped, and shrinks them
   * unless the URL declares no Class-Path URLs; so the worklist ends even
   * when jars name each other.
   */
  lemma OpenShrinks(t: Traversal, url: Url, keys: set<string>)
    requires Bounded(t) && t.key(url) !in keys
    ensures |t.bound - (keys + {t.key(url)})| <= |t.bound - keys|
    ensures t.push(url) != [] ==> |t.bound - (keys + {t.key(url)})| < |t.bound - keys|
  {
    var key := t.key(url);
    if key in t.bound {
      assert t.bound - (keys + {key}) == (t.bound - keys) - {key};
    } else {
      assert t.bound - (keys + {key}) == t.bound - keys;
    }
  }

  /** Each turn makes progress: fewer jar keys unmapped, or as many and a shorter stack, or it stops. */
  lemma NextShrinks(t: Traversal, w: Walk)
    requires Bounded(t) && !Finished(w)
    ensures var n := Next(t, w);
      || |t.bound - n.keys| < |t.bound - w.keys|
      || (|t.bound - n.keys| == |t.bound - w.keys| && |n.stack| < |w.stack|)
      || (n.keys == w.keys && n.stack == w.stack && n.error.Some?)
  {
    var url := w.stack[0];
    if StepOf(t, url, w.keys) == Open {
      OpenShrinks(t, url, w.keys);
    }
  }

  /**
   * The worklist run to its end: every URL popped is skipped or opened until
   * the stack is empty or an unsupported protocol stops it. The URLs opened
   * only ever grow at the end.
   */
  function Run(t: Traversal, w: Walk): (r: Walk)
    requires Bounded(t)
    ensures Finished(r)
    ensures |w.visited| <= |r.visited| && r.visited[..|w.visited|] == w.visited
    decreases |t.bound - w.keys|, |w.stack|, if w.error.None? then 1 else 0
  {
    if Finished(w) then w
    else
      NextShrinks(t, w);
      Run(t, Next(t, w))
  }

  /** Unless it is over, the worklist runs on from its next turn. */
  lemma RunNext(t: Traversal, w: Walk)
    requires Bounded(t) && !Finished(w)
    ensures Run(t, w) == Run(t, Next(t, w))
  {
  }

  /** The URLs opened never repeat a key, nor one of keys0, and the keys mapped are keys0 and exactly theirs. */
  ghost predicate Deduplicated(t: Traversal, w: Walk, keys0: set<string>) {
    && (forall i :: 0 <= i < |w.visited| ==> t.key(w.visited[i]) !in keys0)
    && (forall i, j :: 0 <= i < j < |w.visited| ==> t.key(w.visited[i]) != t.key(w.visited[j]))
    && (forall k :: k in w.keys <==> k in keys0 || exists i :: 0 <= i < |w.visited| && t.key(w.visited[i]) == k)
    && (forall i :: 0 <= i < |w.visited| ==> t.opening(w.visited[i]) in {AsJar, AsDir})
  }

  /** Mapping one more URL, whose key is new and which opens, keeps the URLs opened free of repeated keys. */
  lemma OpenDedup(t: Traversal, w: Walk, keys0: set<string>, url: Url, n: Walk)
    requires Deduplicated(t, w, keys0)
    requires t.key(url) !in w.keys && t.opening(url) in {AsJar, AsDir}
    requires n.keys == w.keys + {t.key(url)} && n.visited == w.visited + [url]
    ensures Deduplicated(t, n, keys0)
  {
    var m := |w.visited|;
    assert forall i :: 0 <= i < m ==> n.visited[i] == w.visited[i];
    assert n.visited[m] == url;
    assert forall i :: 0 <= i < |n.visited| ==> t.key(n.visited[i]) !in keys0;
    forall k | k in n.keys && k !in keys0
      ensures exists i :: 0 <= i < |n.visited| && t.key(n.visited[i]) == k
    {
      if k != t.key(url) {
        var i :| 0 <= i < m && t.key(w.visited[i]) == k;
        assert n.visited[i] == w.visited[i];
      }
    }
  }

  /** A turn keeps the URLs opened free of repeated keys. */
  lemma NextDedup(t: Traversal, w: Walk, keys0: set<string>)
    requires !Finished(w) && Deduplicated(t, w, keys0)
    ensures Deduplicated(t, Next(t, w), keys0)
  {
    var url := w.stack[0];
    if StepOf(t, url, w.keys) == Open {
      OpenDedup(t, w, keys0, url, Next(t, w));
    }
  }

  /**
   * createLoaders opens each fragment-free URL string at most once and never
   * one mapped before it was called; the keys it ends with are the earlier
   * keys and exactly those of the URLs it opened; every URL it opened opens.
   */
  lemma {:induction false} RunDedup(t: Traversal, w: Walk, keys0: set<string>)
    requires Bounded(t) && Deduplicated(t, w, keys0)
    ensures Deduplicated(t, Run(t, w), keys0)
    decreases |t.bound - w.keys|, |w.stack|, if w.error.None? then 1 else 0
  {
    if !Finished(w) {
      NextShrinks(t, w);
      NextDedup(t, w, keys0);
      RunDedup(t, Next(t, w), keys0);
    }
  }

  /** Started from us, the worklist never opens a URL twice by key. */
  lemma StartDedup(t: Traversal, us: seq<Url>, keys: set<string>)
    requires Bounded(t)
    ensures Deduplicated(t, Run(t, Start(us, keys)), keys)
  {
    RunDedup(t, Start(us, keys), keys);
  }

  /**
   * Depth-first order: running s1 + s2 runs s1, with everything its URLs
   * declare, to its end, and then s2 from there.
   */
  lemma {:induction false} RunAppend(t: Traversal, s1: seq<Url>, s2: seq<Url>, keys: set<string>, visited: seq<Url>)
    requires Bounded(t) && Run(t, Walk(s1, keys, visited, None)).error.None?
    ensures var r1 := Run(t, Walk(s1, keys, visited, None));
      Run(t, Walk(s1 + s2, keys, visited, None)) == Run(t, Walk(s2, r1.keys, r1.visited, None))
    decreases |t.bound - keys|, |s1|
  {
    if s1 == [] {
      assert s1 + s2 == s2;
      return;
    }
    var url := s1[0];
    var w := Walk(s1, keys, visited, None);
    var w' := Walk(s1 + s2, keys, visited, None);
    assert w'.stack[0] == url && w'.stack[1..] == s1[1..] + s2;
    RunNext(t, w);
    RunNext(t, w');
    match StepOf(t, url, keys)
    case Skip =>
      assert Next(t, w) == Walk(s1[1..], keys, visited, None);
      assert Next(t, w') == Walk(s1[1..] + s2, keys, visited, None);
      RunAppend(t, s1[1..], s2, keys, visited);
    case Open =>
      var s1' := t.push(url) + s1[1..];
      assert Next(t, w) == Walk(s1', keys + {t.key(url)}, visited + [url], None);
      assert Next(t, w') == Walk(s1' + s2, keys + {t.key(url)}, visited + [url], None);
      OpenShrinks(t, url, keys);
      RunAppend(t, s1', s2, keys + {t.key(url)}, visited + [url]);
    case Stop(_) =>
      assert false;
  }

  /** A stack of URLs that all fail to open leaves everything as it was. */
  lemma {:induction false} FailingUrlsAreSkipped(t: Traversal, stack: seq<Url>, keys: set<string>, visited: seq<Url>)
    requires Bounded(t)
    requires forall i :: 0 <= i < |stack| ==> t.opening(stack[i]) == OpenFails
    ensures Run(t, Walk(stack, keys, visited, None)) == Walk([], keys, visited, None)
    decreases |stack|
  {
    if stack != [] {
      RunNext(t, Walk(stack, keys, visited, None));
      FailingUrlsAreSkipped(t, stack[1..], keys, visited);
    }
  }
  /** Each URL opened so far has its loader, mapped under its key, and the earlier map entries stay. */
  ghost predicate Mapped(t: Traversal, loaders: seq<Loader>, done: seq<Url>, m: map<string, Loader>, m0: map<string, Loader>) {
    && |loaders| == |done|
    && (forall i :: 0 <= i < |done| ==> Describe(loaders[i]) == t.expected(done[i]))
    && (forall i :: 0 <= i < |done| ==> t.key(done[i]) in m && m[t.key(done[i])] == loaders[i])
    && (forall k :: k in m0 ==> k in m && m[k] == m0[k])
  }

  lemma MappedStep(t: Traversal, loaders: seq<Loader>, done: seq<Url>, m: map<string, Loader>, m0: map<string, Loader>, url: Url, loader: Loader)
    requires Mapped(t, loaders, done, m, m0) && t.key(url) !in m && Describe(loader) == t.expected(url)
    ensures Mapped(t, loaders + [loader], done + [url], m[t.key(url) := loader], m0)
  {
  }

  /** What the traversal's loaders satisfy holds of the platform's. */
  lemma MappedLoadersFor(t: Traversal, env: Env, loaders: seq<Loader>, done: seq<Url>, m: map<string, Loader>, m0: map<string, Loader>)
    requires Models(t, env) && Mapped(t, loaders, done, m, m0)
    ensures LoadersFor(env, loaders, done)
    ensures forall i :: 0 <= i < |done| ==> env.noFragString(done[i]) in m && m[env.noFragString(done[i])] == loaders[i]
  {
    forall i | 0 <= i < |done|
      ensures LoaderFor(env, loaders[i], done[i])
      ensures env.noFragString(done[i]) in m && m[env.noFragString(done[i])] == loaders[i]
    {
      assert Answers(t, env, done[i]);
    }
  }

  /**
   * getLoader(url) followed, when it succeeds, by the loader's getClassPath(),
   * whose IOException is swallowed: the loader and the URLs to push, stated
   * in the traversal's terms.
   */
  method OpenUrl(env: Env, url: Url, ghost t: Traversal) returns (got: Result<Loader, Exception>, classPath: seq<Url>)
    requires Models(t, env)
    ensures got.Success? <==> t.opening(url) in {AsJar, AsDir}
    ensures got.Failure? ==> (IsIOException(got.error) <==> t.opening(url) == OpenFails)
    ensures got.Failure? && !IsIOException(got.error) ==> got.error == t.stop(url)
    ensures got.Success? ==> Describe(got.value) == t.expected(url) && fresh(got.value.Obj()) && Unindexed(got.value)
    ensures got.Success? ==> classPath == t.push(url)
  {
    assert Answers(t, env, url);
    got := GetLoader(env, url);
    classPath := [];
    if got.Success? {
      LoaderForSpecs(env, got.value, url);
      var declared := FastLoaders.GetClassPath(got.value);
      if declared.Success? && declared.value.Some? {
        classPath := declared.value.value;
      }
    }
  }

  /** The loaders' objects. */
  ghost function ObjsOf(ls: seq<Loader>): set<object> {
    set i | 0 <= i < |ls| :: ls[i].Obj()
  }

  /** The loader has not computed its index keys yet, as getLoader returns it. */
  ghost predicate Unindexed(l: Loader)
    reads l.Obj()
  {
    match l
    case JarLoader(j) => j.indexKeys.None?
    case DirLoader(d) => d.indexKeys.None?
  }

  /** A loader that has not computed its index keys is valid. */
  lemma UnindexedValid(ls: seq<Loader>)
    requires forall i :: 0 <= i < |ls| ==> Unindexed(ls[i])
    ensures forall i :: 0 <= i < |ls| ==> ls[i].Valid()
  {
  }

  /** No two loaders share an object. */
  ghost predicate Distinct(ls: seq<Loader>) {
    forall i, j :: 0 <= i < j < |ls| ==> ls[i].Obj() != ls[j].Obj()
  }

  /** Two lists of distinct loaders over disjoint objects make one. */
  lemma AppendDistinct(ls: seq<Loader>, added: seq<Loader>)
    requires Distinct(ls) && Distinct(added)
    requires forall i, j :: 0 <= i < |ls| && 0 <= j < |added| ==> ls[i].Obj() != added[j].Obj()
    ensures Distinct(ls + added)
  {
    var all := ls + added;
    forall i, j | 0 <= i < j < |all|
      ensures all[i].Obj() != all[j].Obj()
    {
      if j >= |ls| && i < |ls| {
        assert all[j] == added[j - |ls|];
      }
    }
  }

  /**
   * One turn of the loop of createLoaders: pop the top URL; skip it when its
   * fragment-free string is mapped or its loader fails with an IOException;
   * stop with the exception of an unsupported protocol; otherwise add its
   * loader, map it and push the loader's Class-Path URLs. The new state is
   * the worklist's next one.
   */
  method Turn(env: Env, urls: seq<Url>, loaders: seq<Loader>, newMap: map<string, Loader>,
              ghost t: Traversal, ghost done: seq<Url>, ghost m0: map<string, Loader>)
    returns (urls': seq<Url>, loaders': seq<Loader>, newMap': map<string, Loader>, ghost done': seq<Url>, err: Option<Exception>)
    requires urls != [] && Bounded(t) && Models(t, env)
    requires Mapped(t, loaders, done, newMap, m0) && Distinct(loaders)
    requires forall i :: 0 <= i < |loaders| ==> Unindexed(loaders[i])
    ensures Next(t, Walk(urls, newMap.Keys, done, None)) == Walk(urls', newMap'.Keys, done', err)
    ensures err.Some? ==> newMap' == newMap
    ensures Mapped(t, loaders', done', newMap', m0) && Distinct(loaders')
    ensures forall i :: 0 <= i < |loaders'| ==> Unindexed(loaders'[i])
    ensures |loaders| <= |loaders'| && forall i :: 0 <= i < |loaders| ==> loaders'[i] == loaders[i]
    ensures forall i :: |loaders| <= i < |loaders'| ==> fresh(loaders'[i].Obj())
  {
    var url := urls[0];
    urls', loaders', newMap', done', err := urls[1..], loaders, newMap, done, None;
    var urlNoFragString := env.noFragString(url);
    KeyOf(t, env, url);
    if urlNoFragString in newMap {
      return;
    }
    var got, classPath := OpenUrl(env, url, t);
    if got.Failure? {
      if !IsIOException(got.error) {
        urls', err := urls, Some(got.error);
      }
      return;
    }
    var loader := got.value;
    MappedStep(t, loaders, done, newMap, m0, url, loader);
    AppendDistinct(loaders, [loader]);
    assert newMap[urlNoFragString := loader].Keys == newMap.Keys + {urlNoFragString};
    loaders' := loaders + [loader];
    done' := done + [url];
    newMap' := newMap[urlNoFragString := loader];
    urls' := PushUrls(urls', classPath);
  }

  /**
   * createLoaders(us, fastLoaderMap): the loaders of the worklist started
   * from us, with every opened URL's fragment-free string mapped to its
   * loader. The map entries added before an IllegalStateException stay.
   */
  method CreateLoaders(env: Env, us: seq<Url>, fastLoaderMap: map<string, Loader>, ghost t: Traversal)
    returns (r: Result<seq<Loader>, Exception>, newMap: map<string, Loader>)
    requires Bounded(t) && Models(t, env)
    ensures var w := Run(t, Start(us, fastLoaderMap.Keys));
      && newMap.Keys == w.keys
      && (w.error.Some? <==> r.Failure?)
      && (r.Failure? ==> r.error == w.error.value)
      && (r.Success? ==> Mapped(t, r.value, w.visited, newMap, fastLoaderMap))
    ensures forall k :: k in fastLoaderMap ==> k in newMap && newMap[k] == fastLoaderMap[k]
    ensures r.Success? ==> Distinct(r.value)
    ensures r.Success? ==> forall i :: 0 <= i < |r.value| ==> fresh(r.value[i].Obj()) && Unindexed(r.value[i])
  {
    var loaders: seq<Loader> := [];
    var urls := PushUrls([], us);
    assert urls == us && [] + us == us;
    newMap := fastLoaderMap;
    ghost var done: seq<Url> := [];
    while urls != []
      invariant Run(t, Start(us, fastLoaderMap.Keys)) == Run(t, Walk(urls, newMap.Keys, done, None))
      invariant Mapped(t, loaders, done, newMap, fastLoaderMap) && Distinct(loaders)
      invariant forall i :: 0 <= i < |loaders| ==> fresh(loaders[i].Obj()) && Unindexed(loaders[i])
      decreases |t.bound - newMap.Keys|, |urls|
    {
      ghost var w := Walk(urls, newMap.Keys, done, None);
      RunNext(t, w);
      NextShrinks(t, w);
      var err;
      ghost var before := loaders;
      urls, loaders, newMap, done, err := Turn(env, urls, loaders, newMap, t, done, fastLoaderMap);
      if err.Some? {
        return Failure(err.value), newMap;
      }
      forall i | 0 <= i < |loaders|
        ensures fresh(loaders[i].Obj())
      {
        if i < |before| {
          assert loaders[i] == before[i];
        }
      }
    }
    r := Success(loaders);
  }

  /** The loaders from a list of URLs opened in order, each for its own URL. */
  ghost predicate LoadersFor(env: Env, ls: seq<Loader>, urls: seq<Url>) {
    |ls| == |urls| && forall i :: 0 <= i < |ls| ==> LoaderFor(env, ls[i], urls[i])
  }

  /** The key sets of a list of URLs' loaders, or the first failure. */
  function UrlKeysOf(env: Env, urls: seq<Url>): Result<seq<set<string>>, Exception> {
    if urls == [] then Success([])
    else
      match UrlKeysOf(env, urls[..|urls| - 1])
      case Failure(e) => Failure(e)
      case Success(ks) =>
        match UrlKeys(env, urls[|urls| - 1])
        case Failure(e) => Failure(e)
        case Success(k) => Success(ks + [k])
  }

  /** The keys of loaders opened for URLs are the URLs' keys. */
  lemma {:induction false} KeysOfLoadersFor(env: Env, ls: seq<Loader>, urls: seq<Url>)
    requires LoadersFor(env, ls, urls)
    ensures KeysOf(ls) == UrlKeysOf(env, urls)
  {
    if ls != [] {
      var n := |ls| - 1;
      assert LoadersFor(env, ls[..n], urls[..n]) by {
        assert forall i :: 0 <= i < n ==> ls[..n][i] == ls[i] && urls[..n][i] == urls[i];
      }
      KeysOfLoadersFor(env, ls[..n], urls[..n]);
      LoaderForSpecs(env, ls[n], urls[n]);
    }
  }

  /** The errors closing loaders gives, in order, one per loader whose close fails. */
  function CloseErrors(failing: seq<bool>): (r: seq<Exception>)
    ensures |r| <= |failing|
    ensures forall i :: 0 <= i < |r| ==> r[i] == CLOSE_FAILED
  {
    if failing == [] then []
    else CloseErrors(failing[..|failing| - 1]) + (if failing[|failing| - 1] then [CLOSE_FAILED] else [])
  }

  /** One more loader closed adds its error, if its close fails, at the end. */
  lemma CloseErrorsStep(failing: seq<bool>, i: nat)
    requires i < |failing|
    ensures CloseErrors(failing[..i + 1]) == CloseErrors(failing[..i]) + (if failing[i] then [CLOSE_FAILED] else [])
  {
    assert failing[..i + 1][..i] == failing[..i];
  }

  /** Whether closing the loader now throws: a jar loader that is still open over an archive whose close fails. */
  predicate CloseFails(l: Loader)
    reads l.Obj()
  {
    l.JarLoader? && !l.jar.closed && l.jar.jar.closeFails
  }

  /** Whether each loader's close would fail now. */
  ghost function CloseFailuresOf(ls: seq<Loader>): (r: seq<bool>)
    reads ObjsOf(ls)
    ensures |r| == |ls|
  {
    seq(|ls|, i reads ObjsOf(ls) requires 0 <= i < |ls| => CloseFails(ls[i]))
  }

  /** Closing the i-th loader of a list of distinct loaders leaves the others as they were. */
  method CloseAt(ls: seq<Loader>, i: nat) returns (e: Option<Exception>)
    requires i < |ls| && Distinct(ls) && forall j :: 0 <= j < |ls| ==> ls[j].Valid()
    modifies ls[i].Obj()
    ensures forall j :: 0 <= j < |ls| ==> ls[j].Valid()
    ensures e == (if old(CloseFails(ls[i])) then Some(CLOSE_FAILED) else None)
    ensures ls[i].JarLoader? ==> ls[i].jar.closed
    ensures forall j :: 0 <= j < |ls| && j != i ==> CloseFails(ls[j]) == old(CloseFails(ls[j]))
    ensures forall j :: 0 <= j < |ls| && j != i && ls[j].JarLoader? ==> ls[j].jar.closed == old(ls[j].jar.closed)
  {
    e := FastLoaders.Close(ls[i]);
  }

  /**
   * The loop of closeLoaders: each loader closed in order, each IOException
   * collected and the loop going on; every jar loader ends closed.
   */
  method CloseAll(ls: seq<Loader>) returns (errors: seq<Exception>)
    requires Distinct(ls) && forall j :: 0 <= j < |ls| ==> ls[j].Valid()
    modifies ObjsOf(ls)
    ensures forall j :: 0 <= j < |ls| ==> ls[j].Valid()
    ensures errors == CloseErrors(old(CloseFailuresOf(ls)))
    ensures forall j :: 0 <= j < |ls| && ls[j].JarLoader? ==> ls[j].jar.closed
  {
    ghost var failing := CloseFailuresOf(ls);
    errors := [];
    var i := 0;
    while i < |ls|
      invariant 0 <= i <= |ls|
      invariant forall j :: 0 <= j < |ls| ==> ls[j].Valid()
      invariant errors == CloseErrors(failing[..i])
      invariant forall j :: i <= j < |ls| ==> CloseFails(ls[j]) == failing[j]
      invariant forall j :: 0 <= j < i && ls[j].JarLoader? ==> ls[j].jar.closed
    {
      assert ls[i].Obj() in ObjsOf(ls);
      var e := CloseAt(ls, i);
      CloseErrorsStep(failing, i);
      if e.Some? {
        errors := errors + [e.value];
      }
      i := i + 1;
    }
    assert failing[..i] == failing;
  }

  /**
   * The loaders with added appended, and the index built over them
   * (single-threaded), as addURL builds it.
   */
  method IndexExtended(ls: seq<Loader>, added: seq<Loader>) returns (newLoaders: seq<Loader>, r: Result<Index, Exception>)
    requires Distinct(ls) && Distinct(added)
    requires forall i, j :: 0 <= i < |ls| && 0 <= j < |added| ==> ls[i].Obj() != added[j].Obj()
    requires forall i :: 0 <= i < |ls| ==> ls[i].Valid()
    requires forall i :: 0 <= i < |added| ==> Unindexed(added[i])
    modifies ObjsOf(ls), ObjsOf(added)
    ensures newLoaders == ls + added && Distinct(newLoaders)
    ensures forall i :: 0 <= i < |newLoaders| ==> newLoaders[i].Valid()
    ensures forall i :: 0 <= i < |ls| ==> ls[i].Valid()
    ensures r == BuildSpec(newLoaders)
  {
    UnindexedValid(added);
    newLoaders := ls + added;
    AppendDistinct(ls, added);
    assert ObjsOf(newLoaders) <= ObjsOf(ls) + ObjsOf(added) by {
      forall o | o in ObjsOf(newLoaders)
        ensures o in ObjsOf(ls) + ObjsOf(added)
      {
        var i :| 0 <= i < |newLoaders| && newLoaders[i].Obj() == o;
        if i < |ls| {
          assert newLoaders[i] == ls[i];
        } else {
          assert newLoaders[i] == added[i - |ls|];
        }
      }
    }
    r := BuildIndex(newLoaders);
    assert forall i :: 0 <= i < |ls| ==> newLoaders[i] == ls[i];
  }

  /** A class path is none of its loaders' objects. */
  lemma PathNotALoader(ls: seq<Loader>, p: FastURLClassPath)
    ensures p !in ObjsOf(ls)
  {
  }

  class FastURLClassPath {
    const env: Env
    /** The original search path. */
    var path: seq<Url>
    /** The search path of loaders. */
    var loaders: seq<Loader>
    var loaderIndex: Index
    /** Each opened fragment-free URL string to its loader. */
    var fastLoaderMap: map<string, Loader>
    var closed: bool
    /** The worklist's view of the platform. */
    ghost const trav: Traversal

    ghost function Objs(): set<object>
      reads this`loaders
    {
      ObjsOf(loaders)
    }

    /** The loaders are valid and distinct, the index is the one built from them, and the worklist's view is the platform's. */
    ghost predicate Valid()
      reads this`loaders, this`loaderIndex, Objs()
    {
      && (forall i :: 0 <= i < |loaders| ==> loaders[i].Valid())
      && Distinct(loaders)
      && BuildSpec(loaders) == Success(loaderIndex)
      && Bounded(trav) && Models(trav, env)
    }

    constructor (env: Env, path: seq<Url>, loaders: seq<Loader>, loaderIndex: Index, fastLoaderMap: map<string, Loader>, ghost trav: Traversal)
      ensures this.env == env && this.path == path && this.loaders == loaders
      ensures this.loaderIndex == loaderIndex && this.fastLoaderMap == fastLoaderMap && !closed
      ensures this.trav == trav
    {
      this.env := env;
      this.trav := trav;
      this.path := path;
      this.loaders := loaders;
      this.loaderIndex := loaderIndex;
      this.fastLoaderMap := fastLoaderMap;
      closed := false;
    }

    /**
     * addURL(url): the worklist run from url against the existing map; on
     * success the path gains url, the new loaders are appended and the index
     * is rebuilt over all of them. An exception leaves path, loaders and
     * index as they were, but the map keeps what the worklist added.
     */
    method AddURL(url: Url) returns (err: Option<Exception>)
      requires Valid()
      modifies this, Objs()
      ensures Valid()
      ensures var w := Run(trav, Start([url], old(fastLoaderMap.Keys)));
        && fastLoaderMap.Keys == w.keys
        && (w.error.Some? ==> err == w.error)
        && (err.None? ==>
              && path == old(path) + [url]
              && |loaders| == |old(loaders)| + |w.visited|
              && loaders[..|old(loaders)|] == old(loaders)
              && LoadersFor(env, loaders[|old(loaders)|..], w.visited))
      ensures var w := Run(trav, Start([url], old(fastLoaderMap.Keys)));
        w.error.None? ==> (err.None? <==> UrlKeysOf(env, w.visited).Success?)
      ensures err.Some? ==> path == old(path) && loaders == old(loaders) && loaderIndex == old(loaderIndex)
      ensures closed == old(closed)
    {
      var newPath := path + [url];
      ghost var m0 := fastLoaderMap;
      var created, newMap := CreateLoaders(env, [url], fastLoaderMap, trav);
      fastLoaderMap := newMap;
      if created.Failure? {
        return Some(created.error);
      }
      ghost var w := Run(trav, Start([url], m0.Keys));
      MappedLoadersFor(trav, env, created.value, w.visited, newMap, m0);
      KeysOfLoadersFor(env, created.value, w.visited);
      KeysOfAppend(loaders, created.value);
      err := Reindex(newPath, created.value);
    }

    /**
     * The end of addURL: the index rebuilt (single-threaded) over the loaders
     * with added appended, and path, loaders and index replaced together; an
     * exception from the index leaves them as they were.
     */
    method Reindex(newPath: seq<Url>, added: seq<Loader>) returns (err: Option<Exception>)
      requires Valid() && Distinct(added)
      requires forall i :: 0 <= i < |added| ==> Unindexed(added[i]) && added[i].Obj() !in Objs()
      modifies this, Objs(), ObjsOf(added)
      ensures Valid()
      ensures err.None? ==> path == newPath && loaders == old(loaders) + added
      ensures err.Some? ==> path == old(path) && loaders == old(loaders) && loaderIndex == old(loaderIndex)
      ensures err == if BuildSpec(old(loaders) + added).Failure? then Some(BuildSpec(old(loaders) + added).error) else None
      ensures fastLoaderMap == old(fastLoaderMap) && closed == old(closed)
    {
      forall i, j | 0 <= i < |loaders| && 0 <= j < |added|
        ensures loaders[i].Obj() != added[j].Obj()
      {
        assert loaders[i].Obj() in Objs();
      }
      PathNotALoader(loaders, this);
      PathNotALoader(added, this);
      var newLoaders, newLoaderIndex := IndexExtended(loaders, added);
      if newLoaderIndex.Failure? {
        return Some(newLoaderIndex.error);
      }
      path := newPath;
      loaders := newLoaders;
      loaderIndex := newLoaderIndex.value;
      return None;
    }

    /**
     * closeLoaders(): the first call closes every loader in order, collecting
     * each IOException and going on, then marks the path closed; later calls
     * close nothing and return no errors.
     */
    method CloseLoaders() returns (errors: seq<Exception>)
      requires Valid()
      modifies this`closed, Objs()
      ensures Valid() && closed
      ensures old(closed) ==> errors == [] && unchanged(Objs())
      ensures !old(closed) ==> errors == CloseErrors(old(CloseFailuresOf(loaders)))
      ensures !old(closed) ==> forall i :: 0 <= i < |loaders| && loaders[i].JarLoader? ==> loaders[i].jar.closed
    {
      if closed {
        return [];
      }
      errors := CloseAll(loaders);
      closed := true;
    }

    /** getURLs(): a copy of the original search path. */
    function GetURLs(): (r: seq<Url>)
      reads this
      ensures r == path
    {
      path
    }

    /** getIndexKeys(): the union of all loaders' index keys. */
    function GetIndexKeys(): (r: set<string>)
      reads this, Objs()
      ensures Valid() ==> KeysOf(loaders).Success? && r == AllKeys(KeysOf(loaders).value)
    {
      loaderIndex.indexKeys
    }

    /**
     * getResource(name, check): the first loader's resource over the index's
     * candidates; a loader's exception (a closed jar) escapes the loop.
     */
    method GetResource(name: string) returns (r: Result<Option<ResourceInfo>, Exception>)
      ensures r == FirstHit(Get(loaderIndex, name), name)
    {
      var candidates := Get(loaderIndex, name);
      var i := 0;
      while i < |candidates|
        invariant 0 <= i <= |candidates|
        invariant FirstHit(candidates, name) == First(ResourceAnswers(candidates, name)[i..])
      {
        var fastResource := candidates[i].GetResource(name);
        if fastResource != Success(None) {
          return fastResource;
        }
        assert ResourceAnswers(candidates, name)[i..][1..] == ResourceAnswers(candidates, name)[i + 1..];
        i := i + 1;
      }
      return Success(None);
    }

    /** findResource(name, check): the first loader's URL over the index's candidates; a loader's exception escapes. */
    method FindResource(name: string) returns (r: Result<Option<Url>, Exception>)
      ensures r == FirstUrlHit(Get(loaderIndex, name), name)
    {
      var candidates := Get(loaderIndex, name);
      var i := 0;
      while i < |candidates|
        invariant 0 <= i <= |candidates|
        invariant FirstUrlHit(candidates, name) == First(UrlAnswers(candidates, name)[i..])
      {
        var url := candidates[i].FindResource(name);
        if url != Success(None) {
          return url;
        }
        assert UrlAnswers(candidates, name)[i..][1..] == UrlAnswers(candidates, name)[i + 1..];
        i := i + 1;
      }
      return Success(None);
    }

    /** findResources(name, check): an enumeration of every loader's URL over the index's candidates. */
    method FindResources(name: string) returns (r: UrlEnumeration)
      ensures fresh(r) && r.Pending() == AllUrlHits(Get(loaderIndex, name), name)
    {
      r := new UrlEnumeration(name, Get(loaderIndex, name));
    }

    /** getResources(name, check): an enumeration of every loader's resource over the index's candidates. */
    method GetResources(name: string) returns (r: ResourceEnumeration)
      ensures fresh(r) && r.Pending() == AllHits(Get(loaderIndex, name), name)
    {
      r := new ResourceEnumeration(name, Get(loaderIndex, name));
    }
  }

  /**
   * new FastURLClassPath(urls): the loaders of the worklist run from urls
   * against an empty map, indexed (multi-threaded); the worklist's
   * IllegalStateException or the index's failure escapes.
   */
  method Create(env: Env, urls: seq<Url>) returns (r: Result<FastURLClassPath, Exception>)
    ensures var w := Run(TraversalOf(env), Start(urls, {}));
      && (w.error.Some? ==> r == Failure(w.error.value))
      && (w.error.None? ==> (r.Success? <==> UrlKeysOf(env, w.visited).Success?))
      && (r.Success? ==>
            && fresh(r.value) && r.value.Valid() && r.value.env == env && !r.value.closed
            && r.value.path == urls && LoadersFor(env, r.value.loaders, w.visited)
            && r.value.fastLoaderMap.Keys == w.keys)
  {
    var noLoaders: map<string, Loader> := map[];
    assert noLoaders.Keys == {};
    ghost var t := TraversalOf(env);
    var created, fastLoaderMap := CreateLoaders(env, urls, noLoaders, t);
    if created.Failure? {
      return Failure(created.error);
    }
    var loaders := created.value;
    ghost var w := Run(t, Start(urls, {}));
    MappedLoadersFor(t, env, loaders, w.visited, fastLoaderMap, noLoaders);
    UnindexedValid(loaders);
    KeysOfLoadersFor(env, loaders, w.visited);
    var loaderIndex := BuildIndex(loaders);
    if loaderIndex.Failure? {
      return Failure(loaderIndex.error);
    }
    var classPath := new FastURLClassPath(env, urls, loaders, loaderIndex.value, fastLoaderMap, t);
    return Success(classPath);
  }

  /** The loaders' objects, whose state their lookups read. */
  ghost function LookupObjs(cs: seq<Loader>): set<object> {
    set l | l in cs :: l.Obj()
  }

  /** Each loader's getResource answer for the name, in loader order. */
  function ResourceAnswers(cs: seq<Loader>, name: string): (r: seq<Result<Option<ResourceInfo>, Exception>>)
    reads LookupObjs(cs)
    ensures |r| == |cs| && forall i :: 0 <= i < |cs| ==> r[i] == cs[i].GetResource(name)
  {
    if cs == [] then [] else [cs[0].GetResource(name)] + ResourceAnswers(cs[1..], name)
  }

  /** Each loader's findResource answer for the name, in loader order. */
  function UrlAnswers(cs: seq<Loader>, name: string): (r: seq<Result<Option<Url>, Exception>>)
    reads LookupObjs(cs)
    ensures |r| == |cs| && forall i :: 0 <= i < |cs| ==> r[i] == cs[i].FindResource(name)
  {
    if cs == [] then [] else [cs[0].FindResource(name)] + UrlAnswers(cs[1..], name)
  }

  /** The first answer that is not null: a hit or an exception; null when every answer is null. */
  function First<T>(answers: seq<Result<Option<T>, Exception>>): (r: Result<Option<T>, Exception>)
    ensures r != Success(None) ==>
      exists i :: 0 <= i < |answers| && answers[i] == r && forall j :: 0 <= j < i ==> answers[j] == Success(None)
    ensures r == Success(None) ==> forall i :: 0 <= i < |answers| ==> answers[i] == Success(None)
  {
    if answers == [] then Success(None)
    else if answers[0] != Success(None) then answers[0]
    else
      var rest := First(answers[1..]);
      assert forall i :: 1 <= i < |answers| ==> answers[1..][i - 1] == answers[i];
      rest
  }

  /** What one answer adds to an enumeration: its hit, its exception, or nothing for null. */
  function HitOf<T>(r: Result<Option<T>, Exception>): seq<Result<T, Exception>> {
    match r
    case Failure(e) => [Failure(e)]
    case Success(Some(x)) => [Success(x)]
    case Success(None) => []
  }

  /** Every hit and every exception among the answers, in order. */
  function Hits<T>(answers: seq<Result<Option<T>, Exception>>): seq<Result<T, Exception>> {
    if answers == [] then [] else HitOf(answers[0]) + Hits(answers[1..])
  }

  /** What an enumeration still has to deliver: the value it holds, then the hits from the cursor on. */
  function PendingOf<T>(cached: Option<T>, answers: seq<Result<Option<T>, Exception>>, index: nat): seq<Result<T, Exception>> {
    (match cached case Some(x) => [Success(x)] case None => [])
    + (if index <= |answers| then Hits(answers[index..]) else [])
  }

  /** What is pending from a loader on: that loader's hit or exception, if any, then what is pending after it. */
  lemma PendingStep<T>(answers: seq<Result<Option<T>, Exception>>, i: nat)
    requires i < |answers|
    ensures PendingOf(None, answers, i) == HitOf(answers[i]) + PendingOf(None, answers, i + 1)
  {
    HitsFrom(answers, i);
  }

  /** A held value is delivered before anything the loaders still have to answer. */
  lemma PendingHeld<T>(answers: seq<Result<Option<T>, Exception>>, i: nat, x: T)
    ensures PendingOf(Some(x), answers, i) == [Success(x)] + PendingOf(None, answers, i)
  {
  }

  /** Past the last loader nothing is pending. */
  lemma PendingExhausted<T>(answers: seq<Result<Option<T>, Exception>>)
    ensures PendingOf(None, answers, |answers|) == []
  {
    assert answers[|answers|..] == [];
  }

  /** The hits from position i on: those of the i-th answer, then those from the next one on. */
  lemma HitsFrom<T>(answers: seq<Result<Option<T>, Exception>>, i: nat)
    requires i < |answers|
    ensures Hits(answers[i..]) == HitOf(answers[i]) + Hits(answers[i + 1..])
  {
    assert answers[i..][1..] == answers[i + 1..];
  }

  /** The first answer that is not null is the head of the hits; there is none exactly when there are no hits. */
  lemma {:induction false} FirstIsHeadOfHits<T>(answers: seq<Result<Option<T>, Exception>>)
    ensures HitOf(First(answers)) == if Hits(answers) == [] then [] else [Hits(answers)[0]]
  {
    if answers != [] && answers[0] == Success(None) {
      FirstIsHeadOfHits(answers[1..]);
    }
  }

  /** getResource's answer as findResource gives it: the resource's URL, or the same null or exception. */
  function UrlAnswer(a: Result<Option<ResourceInfo>, Exception>): Result<Option<Url>, Exception> {
    match a
    case Success(Some(res)) => Success(Some(res.url))
    case Success(None) => Success(None)
    case Failure(e) => Failure(e)
  }

  /** A resource hit as a URL hit. */
  function UrlOf(h: Result<ResourceInfo, Exception>): Result<Url, Exception> {
    match h
    case Success(res) => Success(res.url)
    case Failure(e) => Failure(e)
  }

  /** Each loader's findResource answer is its getResource answer's URL. */
  lemma UrlAnswersOf(cs: seq<Loader>, name: string)
    ensures forall i :: 0 <= i < |cs| ==> UrlAnswers(cs, name)[i] == UrlAnswer(ResourceAnswers(cs, name)[i])
  {
    forall i | 0 <= i < |cs|
      ensures UrlAnswers(cs, name)[i] == UrlAnswer(ResourceAnswers(cs, name)[i])
    {
      var g := cs[i].GetResource(name);
      match g
      case Success(Some(res)) =>
      case Success(None) =>
      case Failure(e) =>
    }
  }

  /** Answers related pointwise by UrlAnswer have related first answers and related hits. */
  lemma {:induction false} UrlAnswersAgree(answers: seq<Result<Option<ResourceInfo>, Exception>>, urls: seq<Result<Option<Url>, Exception>>)
    requires |urls| == |answers| && forall i :: 0 <= i < |answers| ==> urls[i] == UrlAnswer(answers[i])
    ensures First(urls) == UrlAnswer(First(answers))
    ensures |Hits(urls)| == |Hits(answers)|
    ensures forall k :: 0 <= k < |Hits(answers)| ==> Hits(urls)[k] == UrlOf(Hits(answers)[k])
  {
    if answers != [] {
      UrlAnswersAgree(answers[1..], urls[1..]);
      var h := Hits(answers[1..]);
      var u := Hits(urls[1..]);
      match answers[0]
      case Success(Some(res)) =>
        assert Hits(answers) == [Success(res)] + h && Hits(urls) == [Success(res.url)] + u;
      case Success(None) =>
        assert Hits(answers) == h && Hits(urls) == u;
      case Failure(e) =>
        assert Hits(answers) == [Failure(e)] + h && Hits(urls) == [Failure(e)] + u;
    }
  }

  /**
   * The end of getResource's loop over the loaders, in order: the first
   * resource found or exception thrown, whichever comes first; null when
   * every loader answers null.
   */
  function FirstHit(cs: seq<Loader>, name: string): (r: Result<Option<ResourceInfo>, Exception>)
    reads LookupObjs(cs)
    ensures r != Success(None) ==>
      exists i :: 0 <= i < |cs| && cs[i].GetResource(name) == r
                  && forall j :: 0 <= j < i ==> cs[j].GetResource(name) == Success(None)
    ensures r == Success(None) ==> forall i :: 0 <= i < |cs| ==> cs[i].GetResource(name) == Success(None)
  {
    First(ResourceAnswers(cs, name))
  }

  /** The end of findResource's loop over the loaders: the first URL found or exception thrown. */
  function FirstUrlHit(cs: seq<Loader>, name: string): Result<Option<Url>, Exception>
    reads LookupObjs(cs)
  {
    First(UrlAnswers(cs, name))
  }

  /** Every resource the loaders find and every exception they throw, in loader order. */
  function AllHits(cs: seq<Loader>, name: string): seq<Result<ResourceInfo, Exception>>
    reads LookupObjs(cs)
  {
    Hits(ResourceAnswers(cs, name))
  }

  /** Every URL the loaders find and every exception they throw, in loader order. */
  function AllUrlHits(cs: seq<Loader>, name: string): seq<Result<Url, Exception>>
    reads LookupObjs(cs)
  {
    Hits(UrlAnswers(cs, name))
  }

  /**
   * findResource agrees with getResource, and both with the first element of
   * getResources and findResources: the first hit (or exception) is the head
   * of all of them, and there is none exactly when the enumeration is empty.
   */
  lemma FirstHitIsHeadOfAll(cs: seq<Loader>, name: string)
    ensures FirstUrlHit(cs, name) == UrlAnswer(FirstHit(cs, name))
    ensures HitOf(FirstHit(cs, name)) == if AllHits(cs, name) == [] then [] else [AllHits(cs, name)[0]]
  {
    UrlAnswersOf(cs, name);
    UrlAnswersAgree(ResourceAnswers(cs, name), UrlAnswers(cs, name));
    FirstIsHeadOfHits(ResourceAnswers(cs, name));
  }

  /** findResources yields exactly the URLs of what getResources yields, exceptions included, in the same order. */
  lemma UrlHitsAreHitUrls(cs: seq<Loader>, name: string)
    ensures |AllUrlHits(cs, name)| == |AllHits(cs, name)|
    ensures forall i :: 0 <= i < |AllHits(cs, name)| ==> AllUrlHits(cs, name)[i] == UrlOf(AllHits(cs, name)[i])
  {
    UrlAnswersOf(cs, name);
    UrlAnswersAgree(ResourceAnswers(cs, name), UrlAnswers(cs, name));
  }

  /** An enumeration is none of the loaders it asks, so moving its cursor leaves their answers as they were. */
  lemma UrlEnumerationNotALoader(cs: seq<Loader>, e: UrlEnumeration)
    ensures e !in LookupObjs(cs)
  {
  }

  /** The same for the enumeration of getResources. */
  lemma ResourceEnumerationNotALoader(cs: seq<Loader>, e: ResourceEnumeration)
    ensures e !in LookupObjs(cs)
  {
  }

  /** The loaders answer as before as long as their objects are as before. */
  twostate lemma AnswersFramed(cs: seq<Loader>)
    requires unchanged(LookupObjs(cs))
    ensures forall name :: UrlAnswers(cs, name) == old(UrlAnswers(cs, name))
    ensures forall name :: ResourceAnswers(cs, name) == old(ResourceAnswers(cs, name))
  {
  }

  /**
   * The enumeration of findResources: a cursor over the candidate loaders and
   * the URL found but not yet returned. Its pending outcomes are the URLs it
   * has yet to return and the exceptions it has yet to throw, in order. The
   * cursor moves past a loader before asking it, so after a loader throws the
   * next call asks the one after it.
   */
  class UrlEnumeration {
    const name: string
    const loaderList: seq<Loader>
    var index: nat
    var url: Option<Url>

    /** The outcomes the enumeration has yet to deliver, in order. */
    function Pending(): seq<Result<Url, Exception>>
      reads this, LookupObjs(loaderList)
    {
      PendingOf(url, UrlAnswers(loaderList, name), index)
    }

    constructor (name: string, loaderList: seq<Loader>)
      ensures this.name == name && this.loaderList == loaderList && index == 0 && url.None?
      ensures Pending() == AllUrlHits(loaderList, name)
    {
      this.name := name;
      this.loaderList := loaderList;
      index := 0;
      url := None;
      assert UrlAnswers(loaderList, name)[0..] == UrlAnswers(loaderList, name);
    }

    /**
     * next(): moves the cursor to the next URL, if any, without losing one;
     * a loader's exception is thrown and is then no longer pending.
     */
    method Next() returns (r: Result<bool, Exception>)
      requires index <= |loaderList|
      modifies this
      ensures index <= |loaderList|
      ensures old(Pending()) == [] ==> r == Success(false) && Pending() == []
      ensures old(Pending()) != [] && old(Pending())[0].Success? ==>
        r == Success(true) && Pending() == old(Pending()) && url == Some(Pending()[0].value)
      ensures old(Pending()) != [] && old(Pending())[0].Failure? ==>
        r == Failure(old(Pending())[0].error) && Pending() == old(Pending())[1..]
    {
      if url.Some? {
        return Success(true);
      }
      UrlEnumerationNotALoader(loaderList, this);
      ghost var answers := UrlAnswers(loaderList, name);
      ghost var before := PendingOf(None, answers, index);
      assert before == old(Pending());
      var i := index;
      var hit: Result<Option<Url>, Exception> := Success(None);
      while i < |loaderList| && hit == Success(None)
        invariant index <= i <= |loaderList|
        invariant hit == Success(None) ==> PendingOf(None, answers, i) == before
        invariant hit != Success(None) ==> before == HitOf(hit) + PendingOf(None, answers, i)
      {
        hit := loaderList[i].FindResource(name);
        assert hit == answers[i];
        PendingStep(answers, i);
        i := i + 1;
      }
      index, url := i, if hit.Success? then hit.value else None;
      AnswersFramed(loaderList);
      assert Pending() == PendingOf(url, answers, i);
      match hit
      case Failure(e) =>
        assert before == [Failure(e)] + Pending();
        r := Failure(e);
      case Success(Some(x)) =>
        PendingHeld(answers, i, x);
        assert before == Pending();
        r := Success(true);
      case Success(None) =>
        PendingExhausted(answers);
        assert before == [] == Pending();
        r := Success(false);
    }

    /** hasMoreElements(): whether a URL is left; asking again consumes nothing but a thrown exception. */
    method HasMoreElements() returns (r: Result<bool, Exception>)
      requires index <= |loaderList|
      modifies this
      ensures index <= |loaderList|
      ensures old(Pending()) == [] ==> r == Success(false) && Pending() == []
      ensures old(Pending()) != [] && old(Pending())[0].Success? ==> r == Success(true) && Pending() == old(Pending())
      ensures old(Pending()) != [] && old(Pending())[0].Failure? ==>
        r == Failure(old(Pending())[0].error) && Pending() == old(Pending())[1..]
    {
      r := Next();
    }

    /** nextElement(): the next pending outcome, or NoSuchElementException when none is left. */
    method NextElement() returns (r: Result<Url, Exception>)
      requires index <= |loaderList|
      modifies this
      ensures index <= |loaderList|
      ensures old(Pending()) == [] ==> r.Failure? && r.error.kind == NoSuchElementException && Pending() == []
      ensures old(Pending()) != [] ==> r == old(Pending())[0] && Pending() == old(Pending())[1..]
    {
      var more := Next();
      if more.Failure? {
        return Failure(more.error);
      }
      if !more.value {
        return Failure(Err(NoSuchElementException, ""));
      }
      UrlEnumerationNotALoader(loaderList, this);
      var found := url.value;
      ghost var answers := UrlAnswers(loaderList, name);
      PendingHeld(answers, index, found);
      assert Pending() == [Success(found)] + PendingOf(None, answers, index);
      label Held:
      url := None;
      AnswersFramed@Held(loaderList);
      assert Pending() == PendingOf(None, answers, index);
      return Success(found);
    }
  }

  /**
   * The enumeration of getResources: a cursor over the candidate loaders and
   * the resource found but not yet returned, with pending outcomes as for
   * findResources.
   */
  class ResourceEnumeration {
    const name: string
    const loaderList: seq<Loader>
    var index: nat
    var resource: Option<ResourceInfo>

    /** The outcomes the enumeration has yet to deliver, in order. */
    function Pending(): seq<Result<ResourceInfo, Exception>>
      reads this, LookupObjs(loaderList)
    {
      PendingOf(resource, ResourceAnswers(loaderList, name), index)
    }

    constructor (name: string, loaderList: seq<Loader>)
      ensures this.name == name && this.loaderList == loaderList && index == 0 && resource.None?
      ensures Pending() == AllHits(loaderList, name)
    {
      this.name := name;
      this.loaderList := loaderList;
      index := 0;
      resource := None;
      assert ResourceAnswers(loaderList, name)[0..] == ResourceAnswers(loaderList, name);
    }

    /**
     * next(): moves the cursor to the next resource, if any, without losing one;
     * a loader's exception is thrown and is then no longer pending.
     */
    method Next() returns (r: Result<bool, Exception>)
      requires index <= |loaderList|
      modifies this
      ensures index <= |loaderList|
      ensures old(Pending()) == [] ==> r == Success(false) && Pending() == []
      ensures old(Pending()) != [] && old(Pending())[0].Success? ==>
        r == Success(true) && Pending() == old(Pending()) && resource == Some(Pending()[0].value)
      ensures old(Pending()) != [] && old(Pending())[0].Failure? ==>
        r == Failure(old(Pending())[0].error) && Pending() == old(Pending())[1..]
    {
      if resource.Some? {
        return Success(true);
      }
      ResourceEnumerationNotALoader(loaderList, this);
      ghost var answers := ResourceAnswers(loaderList, name);
      ghost var before := PendingOf(None, answers, index);
      assert before == old(Pending());
      var i := index;
      var hit: Result<Option<ResourceInfo>, Exception> := Success(None);
      while i < |loaderList| && hit == Success(None)
        invariant index <= i <= |loaderList|
        invariant hit == Success(None) ==> PendingOf(None, answers, i) == before
        invariant hit != Success(None) ==> before == HitOf(hit) + PendingOf(None, answers, i)
      {
        hit := loaderList[i].GetResource(name);
        assert hit == answers[i];
        PendingStep(answers, i);
        i := i + 1;
      }
      index, resource := i, if hit.Success? then hit.value else None;
      AnswersFramed(loaderList);
      assert Pending() == PendingOf(resource, answers, i);
      match hit
      case Failure(e) =>
        assert before == [Failure(e)] + Pending();
        r := Failure(e);
      case Success(Some(x)) =>
        PendingHeld(answers, i, x);
        assert before == Pending();
        r := Success(true);
      case Success(None) =>
        PendingExhausted(answers);
        assert before == [] == Pending();
        r := Success(false);
    }

    /** hasMoreElements(): whether a resource is left; asking again consumes nothing but a thrown exception. */
    method HasMoreElements() returns (r: Result<bool, Exception>)
      requires index <= |loaderList|
      modifies this
      ensures index <= |loaderList|
      ensures old(Pending()) == [] ==> r == Success(false) && Pending() == []
      ensures old(Pending()) != [] && old(Pending())[0].Success? ==> r == Success(true) && Pending() == old(Pending())
      ensures old(Pending()) != [] && old(Pending())[0].Failure? ==>
        r == Failure(old(Pending())[0].error) && Pending() == old(Pending())[1..]
    {
      r := Next();
    }

    /** nextElement(): the next pending outcome, or NoSuchElementException when none is left. */
    method NextElement() returns (r: Result<ResourceInfo, Exception>)
      requires index <= |loaderList|
      modifies this
      ensures index <= |loaderList|
      ensures old(Pending()) == [] ==> r.Failure? && r.error.kind == NoSuchElementException && Pending() == []
      ensures old(Pending()) != [] ==> r == old(Pending())[0] && Pending() == old(Pending())[1..]
    {
      var more := Next();
      if more.Failure? {
        return Failure(more.error);
      }
      if !more.value {
        return Failure(Err(NoSuchElementException, ""));
      }
      ResourceEnumerationNotALoader(loaderList, this);
      var found := resource.value;
      ghost var answers := ResourceAnswers(loaderList, name);
      PendingHeld(answers, index, found);
      assert Pending() == [Success(found)] + PendingOf(None, answers, index);
      label Held:
      resource := None;
      AnswersFramed@Held(loaderList);
      assert Pending() == PendingOf(None, answers, index);
      return Success(found);
    }
  }
}
