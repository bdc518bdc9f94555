/**
 * FastURLClassLoader: a class loader that, when enabled, answers from a
 * FastURLClassPath instead of its superclass's search path. What the
 * superclass (LaunchedURLClassLoader and the JDK's URLClassLoader) does is
 * not part of this model: a call the loader hands on to it is the value Super.
 */
module FastURLClassLoaders {
  import opened Wrappers
  import opened JavaErrors
  import opened Text
  import opened Platform
  import opened FastResources
  import opened FastLoaders
  import opened FastLoaderIndexes
  import opened FastURLClassPaths

  /** The answer of a call: computed by the fast search path, or handed on to the superclass. */
  datatype Dispatch<+T> = Fast(value: T) | Super

  const NOT_SUPPORTED: Exception := Err(IllegalStateException, "Not support getIndexKeys!")

  /** The NullPointerException a call on the absent search path throws. */
  const NO_CLASS_PATH: Exception := Err(NullPointerException, "")

  /** name.replace('.', '/'): a binary class or package name as a resource path. */
  function NameToPath(name: string): (r: string)
    ensures |r| == |name|
    ensures forall i :: 0 <= i < |r| ==> r[i] != '.'
    ensures forall i :: 0 <= i < |r| ==> (r[i] == '/' <==> name[i] == '.' || name[i] == '/')
    ensures forall i :: 0 <= i < |r| && name[i] != '.' ==> r[i] == name[i]
  {
    ReplaceChar(name, '.', '/')
  }

  /** The resource findClass asks for: the name with every '.' made '/', then ".class". */
  function ClassResourceName(name: string): (r: string)
    ensures EndsWith(r, ".class") && |r| == |name| + 6
    ensures r[..|name|] == NameToPath(name)
  {
    NameToPath(name) + ".class"
  }

  /** Two class names that differ other than by '.' against '/' ask for different resources. */
  lemma ClassResourceNameSeparates(a: string, b: string)
    requires |a| == |b|
    requires exists i :: 0 <= i < |a| && a[i] != b[i] && !(a[i] in {'.', '/'} && b[i] in {'.', '/'})
    ensures ClassResourceName(a) != ClassResourceName(b)
  {
    var i :| 0 <= i < |a| && a[i] != b[i] && !(a[i] in {'.', '/'} && b[i] in {'.', '/'});
    assert ClassResourceName(a)[..|a|][i] != ClassResourceName(b)[..|b|][i];
  }

  /** The manifest section of a package: its name as a path, with a trailing '/'. */
  function PackageSection(name: string): (r: string)
    ensures |r| == |name| + 1 && r[|name|] == '/'
    ensures r[..|name|] == NameToPath(name)
  {
    NameToPath(name) + "/"
  }

  /** The Sealed value that decides: the package section's if it has one, else the main attributes'. */
  function SealedValue(name: string, man: Manifest): Option<string> {
    var path := PackageSection(name);
    if path in man.sections && "Sealed" in man.sections[path] then Some(man.sections[path]["Sealed"])
    else if "Sealed" in man.main then Some(man.main["Sealed"])
    else None
  }

  /** isSealed(name, man): the deciding Sealed value is "true", ignoring case. */
  predicate IsSealed(name: string, man: Manifest) {
    var sealed := SealedValue(name, man);
    sealed.Some? && EqualsIgnoreCase("true", sealed.value)
  }

  /** "true".equalsIgnoreCase(s) holds of exactly the sixteen spellings of true. */
  lemma TrueIgnoringCase(s: string)
    ensures EqualsIgnoreCase("true", s)
        <==> |s| == 4 && s[0] in {'t', 'T'} && s[1] in {'r', 'R'} && s[2] in {'u', 'U'} && s[3] in {'e', 'E'}
  {
    assert ToLowerAscii("true") == "true";
    if |s| == 4 && ToLowerAscii(s) == "true" {
      assert LowerAscii(s[0]) == 't' && LowerAscii(s[1]) == 'r' && LowerAscii(s[2]) == 'u' && LowerAscii(s[3]) == 'e';
    }
  }

  /** A package section with a Sealed value decides alone: the main attributes do not matter. */
  lemma SectionOverridesMain(name: string, man: Manifest, main: map<string, string>)
    requires PackageSection(name) in man.sections && "Sealed" in man.sections[PackageSection(name)]
    ensures IsSealed(name, man) == IsSealed(name, man.(main := main))
    ensures IsSealed(name, man) <==> EqualsIgnoreCase("true", man.sections[PackageSection(name)]["Sealed"])
  {
  }

  /** Without a Sealed value in its section, a package is sealed exactly when the main attributes say so. */
  lemma MainDecidesOtherwise(name: string, man: Manifest)
    requires !(PackageSection(name) in man.sections && "Sealed" in man.sections[PackageSection(name)])
    ensures IsSealed(name, man) <==> "Sealed" in man.main && EqualsIgnoreCase("true", man.main["Sealed"])
  {
  }

  /** A package the class loader has defined: sealed to a code-source URL, or not sealed. */
  datatype Package = Package(name: string, sealBase: Option<Url>) {
    predicate Sealed() {
      sealBase.Some?
    }

    predicate SealedTo(url: Url) {
      sealBase == Some(url)
    }
  }

  /**
   * getAndVerifyPackage(pkgname, man, url): the package already defined under
   * the name, if any, after the sealing checks. packages is what getPackage
   * finds.
   */
  function GetAndVerifyPackage(pkgname: string, man: Option<Manifest>, url: Url, packages: map<string, Package>): (r: Result<Option<Package>, Exception>)
    ensures pkgname !in packages ==> r == Success(None)
    ensures pkgname in packages && packages[pkgname].Sealed() ==>
      (r.Failure? <==> !packages[pkgname].SealedTo(url))
    ensures pkgname in packages && !packages[pkgname].Sealed() ==>
      (r.Failure? <==> man.Some? && IsSealed(pkgname, man.value))
    ensures r.Failure? ==> r.error.kind == SecurityException
    ensures r.Success? && pkgname in packages ==> r.value == Some(packages[pkgname])
  {
    if pkgname !in packages then Success(None)
    else
      var pkg := packages[pkgname];
      if pkg.Sealed() then
        if !pkg.SealedTo(url) then Failure(Err(SecurityException, "sealing violation: package " + pkgname + " is sealed"))
        else Success(Some(pkg))
      else if man.Some? && IsSealed(pkgname, man.value) then
        Failure(Err(SecurityException, "sealing violation: can't seal package " + pkgname + ": already loaded"))
      else Success(Some(pkg))
  }

  /** A class from the URL its package is sealed to, or from a manifest that does not seal, always passes. */
  lemma VerifyPasses(pkgname: string, man: Option<Manifest>, url: Url, packages: map<string, Package>)
    requires pkgname in packages
    requires packages[pkgname].SealedTo(url) || (!packages[pkgname].Sealed() && (man.None? || !IsSealed(pkgname, man.value)))
    ensures GetAndVerifyPackage(pkgname, man, url, packages) == Success(Some(packages[pkgname]))
  {
  }

  /** e.addSuppressed for each of more, in order. */
  function AddSuppressed(e: Exception, more: seq<Exception>): (r: Exception)
    ensures r.kind == e.kind && r.message == e.message
    ensures more == [] ==> r == e
    ensures |r.suppressed| == |e.suppressed| + |more|
    ensures r.suppressed[..|e.suppressed|] == e.suppressed && r.suppressed[|e.suppressed|..] == more
  {
    e.(suppressed := e.suppressed + more)
  }

  /**
   * What close() throws, given the superclass's IOException, if any, and the
   * errors closeLoaders returned: the superclass's wins, else the first close
   * error; every other close error is attached to it as suppressed.
   */
  function CloseOutcome(superError: Option<Exception>, errors: seq<Exception>): (r: Option<Exception>)
    ensures r.None? <==> superError.None? && errors == []
    ensures superError.Some? ==> r == Some(AddSuppressed(superError.value, errors))
    ensures superError.None? && errors != [] ==> r == Some(AddSuppressed(errors[0], errors[1..]))
  {
    var first := superError;
    if errors == [] then first
    else
      var (thrown, rest) := if first.None? then (errors[0], errors[1..]) else (first.value, errors);
      Some(AddSuppressed(thrown, rest))
  }

  /**
   * Nothing is lost: the exception thrown, read back as itself followed by
   * what close() attached to it, is the superclass's error (if any) followed
   * by every close error, in order.
   */
  lemma CloseReportsEveryError(superError: Option<Exception>, errors: seq<Exception>)
    requires superError.None? ==> forall i :: 0 <= i < |errors| ==> errors[i].suppressed == []
    requires superError.Some? ==> superError.value.suppressed == []
    ensures var r := CloseOutcome(superError, errors);
      r.Some? ==> ([r.value.(suppressed := [])] + r.value.suppressed
                   == (match superError case Some(e) => [e] case None => []) + errors)
  {
    var r := CloseOutcome(superError, errors);
    if r.Some? {
      if superError.Some? {
        assert r.value.(suppressed := []) == superError.value;
      } else {
        assert r.value.(suppressed := []) == errors[0];
        assert errors == [errors[0]] + errors[1..];
      }
    }
  }

  /**
   * close() as written: with the loader disabled the search path is null and
   * closeLoaders throws a NullPointerException, which replaces whatever the
   * superclass threw.
   */
  function CloseOutcomeAsWritten(enable: bool, superError: Option<Exception>, errors: seq<Exception>): (r: Option<Exception>)
    ensures !enable ==> r == Some(NO_CLASS_PATH)
    ensures enable ==> r == CloseOutcome(superError, errors)
  {
    if !enable then Some(NO_CLASS_PATH) else CloseOutcome(superError, errors)
  }

  /** close() as intended: a disabled loader has no loaders of its own, so only the superclass's error is thrown. */
  function CloseOutcomeIntended(enable: bool, superError: Option<Exception>, errors: seq<Exception>): (r: Option<Exception>)
    ensures !enable ==> r == superError
    ensures enable ==> r == CloseOutcome(superError, errors)
  {
    CloseOutcome(superError, if enable then errors else [])
  }

  /** A disabled loader whose superclass closes cleanly throws from close() as written, and not as intended. */
  lemma DisabledCloseThrows()
    ensures CloseOutcomeAsWritten(false, None, []) == Some(NO_CLASS_PATH)
    ensures CloseOutcomeIntended(false, None, []) == None
  {
  }

  /** The class loader: the enable switch, the superclass's URL list, and the fast search path when enabled. */
  class FastURLClassLoader {
    const enable: bool
    /** The URLs handed to the superclass: none when enabled. */
    const superUrls: seq<Url>
    /** fastURLClassPath: present exactly when enabled. */
    const classPath: FastURLClassPath?

    ghost function Repr(): set<object>
      reads this, classPath
    {
      if classPath == null then {} else {classPath} + classPath.Objs()
    }

    ghost predicate Valid()
      reads this, Repr()
    {
      (enable <==> classPath != null) && (classPath != null ==> classPath.Valid())
    }

    constructor (enable: bool, superUrls: seq<Url>, classPath: FastURLClassPath?)
      ensures this.enable == enable && this.superUrls == superUrls && this.classPath == classPath
    {
      this.enable := enable;
      this.superUrls := superUrls;
      this.classPath := classPath;
    }

    /** addURL(url): appended to the fast search path, or handed on. */
    method AddURL(url: Url) returns (r: Dispatch<Option<Exception>>)
      requires Valid()
      modifies Repr()
      ensures Valid()
      ensures !enable ==> r == Super
      ensures enable ==> r.Fast? && classPath.closed == old(classPath.closed)
      ensures enable && r.value.None? ==> classPath.path == old(classPath.path) + [url]
      ensures enable && r.value.Some? ==> classPath.path == old(classPath.path) && classPath.loaders == old(classPath.loaders)
    {
      if enable {
        var err := classPath.AddURL(url);
        r := Fast(err);
      } else {
        r := Super;
      }
    }

    /** getURLs(): the fast search path's URLs, or handed on. */
    function GetURLs(): (r: Dispatch<seq<Url>>)
      reads this, Repr()
      requires Valid()
      ensures enable <==> r.Fast?
      ensures enable ==> r.value == classPath.path
    {
      if enable then Fast(classPath.GetURLs()) else Super
    }

    /** getIndexKeys(): the keys of the fast search path's index; an IllegalStateException when disabled. */
    function GetIndexKeys(): (r: Result<set<string>, Exception>)
      reads this, Repr()
      requires Valid()
      ensures !enable ==> r == Failure(NOT_SUPPORTED)
      ensures enable ==> r.Success? && KeysOf(classPath.loaders).Success? && r.value == AllKeys(KeysOf(classPath.loaders).value)
    {
      if enable then Success(classPath.GetIndexKeys()) else Failure(NOT_SUPPORTED)
    }

    /**
     * findClass(name): the resource the class is read from, found under
     * ClassResourceName(name); a ClassNotFoundException when there is none,
     * and the search path's exception (a closed jar) when a loader throws.
     */
    method FindClass(name: string) returns (r: Dispatch<Result<ResourceInfo, Exception>>)
      requires Valid()
      ensures !enable ==> r == Super
      ensures enable ==> r.Fast?
      ensures enable ==> var hit := FirstHit(Get(classPath.loaderIndex, ClassResourceName(name)), ClassResourceName(name));
        && (r.value.Success? <==> hit.Success? && hit.value.Some?)
        && (r.value.Success? ==> r.value.value == hit.value.value)
        && (hit.Failure? ==> r.value == Failure(hit.error))
        && (hit == Success(None) ==> r.value == Failure(Err(ClassNotFoundException, name)))
    {
      if !enable {
        return Super;
      }
      var path := ClassResourceName(name);
      var found := classPath.GetResource(path);
      match found
      case Failure(e) =>
        r := Fast(Failure(e));
      case Success(Some(res)) =>
        r := Fast(Success(res));
      case Success(None) =>
        r := Fast(Failure(Err(ClassNotFoundException, name)));
    }

    /** findResource(name): the first URL of the resource on the fast search path, or handed on. */
    method FindResource(name: string) returns (r: Dispatch<Result<Option<Url>, Exception>>)
      requires Valid()
      ensures !enable ==> r == Super
      ensures enable ==> r == Fast(FirstUrlHit(Get(classPath.loaderIndex, name), name))
    {
      if !enable {
        return Super;
      }
      var url := classPath.FindResource(name);
      r := Fast(url);
    }

    /** findResources(name): every URL of the resource on the fast search path, in order, or handed on. */
    method FindResources(name: string) returns (r: Dispatch<UrlEnumeration>)
      requires Valid()
      ensures !enable ==> r == Super
      ensures enable ==> r.Fast? && fresh(r.value) && r.value.Pending() == AllUrlHits(Get(classPath.loaderIndex, name), name)
    {
      if !enable {
        return Super;
      }
      var e := classPath.FindResources(name);
      r := Fast(e);
    }

    /**
     * close() as written: superError is what the superclass's close threw.
     * A disabled loader dereferences the null search path.
     */
    method CloseAsWritten(superError: Option<Exception>) returns (thrown: Option<Exception>)
      requires Valid()
      modifies Repr()
      ensures Valid()
      ensures !enable ==> thrown == Some(NO_CLASS_PATH)
      ensures enable ==> thrown == CloseOutcomeAsWritten(enable, superError,
        if old(classPath.closed) then [] else CloseErrors(old(CloseFailuresOf(classPath.loaders))))
      ensures enable ==> classPath.closed
    {
      if !enable {
        return Some(NO_CLASS_PATH);
      }
      var errors := classPath.CloseLoaders();
      thrown := CloseOutcomeAsWritten(enable, superError, errors);
    }

    /** close() as intended: the search path's loaders are closed only when there is one. */
    method Close(superError: Option<Exception>) returns (thrown: Option<Exception>)
      requires Valid()
      modifies Repr()
      ensures Valid()
      ensures !enable ==> thrown == superError
      ensures enable ==> thrown == CloseOutcomeIntended(enable, superError,
        if old(classPath.closed) then [] else CloseErrors(old(CloseFailuresOf(classPath.loaders))))
      ensures enable ==> classPath.closed
    {
      var errors := [];
      if enable {
        errors := classPath.CloseLoaders();
      }
      thrown := CloseOutcomeIntended(enable, superError, errors);
    }
  }

  /**
   * new FastURLClassLoader(urls, parent, enable): enabled, the superclass gets
   * no URLs and the fast search path is built over urls (which may throw);
   * disabled, the superclass gets urls and there is no fast search path.
   */
  method New(env: Env, urls: seq<Url>, enable: bool) returns (r: Result<FastURLClassLoader, Exception>)
    ensures !enable ==> r.Success?
    ensures enable ==> var w := Run(TraversalOf(env), Start(urls, {}));
      && (w.error.Some? ==> r == Failure(w.error.value))
      && (w.error.None? ==> (r.Success? <==> UrlKeysOf(env, w.visited).Success?))
    ensures r.Success? ==> fresh(r.value) && r.value.Valid() && r.value.enable == enable
    ensures r.Success? && !enable ==> r.value.superUrls == urls && r.value.classPath == null
    ensures r.Success? && enable ==>
      (r.value.superUrls == [] && fresh(r.value.classPath) && r.value.classPath.path == urls && !r.value.classPath.closed)
  {
    if !enable {
      var loader := new FastURLClassLoader(false, urls, null);
      return Success(loader);
    }
    var created := Create(env, urls);
    if created.Failure? {
      return Failure(created.error);
    }
    var loader := new FastURLClassLoader(true, [], created.value);
    r := Success(loader);
  }
}
