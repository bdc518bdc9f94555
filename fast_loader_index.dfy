/**
 * FastLoaderIndex: every loader's index keys merged, in search-path order,
 * into a map from key to the loaders holding it, plus the directory loaders
 * as the fallback list for names the map does not know.
 */
module FastLoaderIndexes {
  import opened Wrappers
  import opened JavaErrors
  import opened Text
  import opened FastLoaders

  const BUILD_FAILED: string := "FastURLClassLoader build index failed!"

  /**
   * The number of key workers: 1 without multi-threading, otherwise one per
   * ten loaders, at most 4. Workers run in their own threads only when there
   * are more than one of them, that is from 20 loaders on.
   */
  function WorkerCount(multiThreads: bool, length: nat): (r: int)
    ensures 0 <= r <= 4
    ensures !multiThreads ==> r == 1
    ensures multiThreads && length >= 40 ==> r == 4
    ensures multiThreads && length < 10 ==> r == 0
    ensures r > 1 <==> multiThreads && length >= 20
  {
    if !multiThreads then 1
    else if length > 100 then 4
    else if length / 10 < 4 then length / 10 else 4
  }

  /** The keys of every loader, in order, or the error of the first loader whose keys fail. */
  function KeysOf(ls: seq<Loader>): (r: Result<seq<set<string>>, Exception>)
    ensures r.Success? ==> |r.value| == |ls| && forall i :: 0 <= i < |ls| ==> ls[i].KeySpec() == Success(r.value[i])
  {
    if ls == [] then Success([])
    else
      match KeysOf(ls[..|ls| - 1])
      case Failure(e) => Failure(e)
      case Success(ks) =>
        match ls[|ls| - 1].KeySpec()
        case Failure(e) => Failure(e)
        case Success(k) => Success(ks + [k])
  }

  /** The keys fail exactly when some loader's keys fail, and then with the error of the first such loader. */
  lemma {:induction false} KeysOfFailure(ls: seq<Loader>)
    ensures KeysOf(ls).Failure? <==> exists i :: 0 <= i < |ls| && ls[i].KeySpec().Failure?
    ensures KeysOf(ls).Failure? ==>
      exists i :: 0 <= i < |ls| && ls[i].KeySpec() == Failure(KeysOf(ls).error)
                  && forall j :: 0 <= j < i ==> ls[j].KeySpec().Success?
  {
    if ls != [] {
      var init := ls[..|ls| - 1];
      KeysOfFailure(init);
      assert forall i :: 0 <= i < |init| ==> init[i] == ls[i];
      if KeysOf(init).Success? && ls[|ls| - 1].KeySpec().Success? {
        assert KeysOf(ls).Success?;
      }
    }
  }

  /** Loaders appended to loaders whose keys succeed: the keys of all succeed exactly when the appended ones' do. */
  lemma KeysOfAppend(ls: seq<Loader>, added: seq<Loader>)
    requires KeysOf(ls).Success?
    ensures KeysOf(ls + added).Success? <==> KeysOf(added).Success?
  {
    KeysOfFailure(ls);
    KeysOfFailure(added);
    KeysOfFailure(ls + added);
    assert forall i :: 0 <= i < |ls| ==> (ls + added)[i] == ls[i];
    assert forall i :: 0 <= i < |added| ==> (ls + added)[|ls| + i] == added[i];
  }

  /** The positions whose flag is set, in increasing order. */
  function Picks(flags: seq<bool>): seq<nat> {
    if flags == [] then []
    else Picks(flags[..|flags| - 1]) + (if flags[|flags| - 1] then [|flags| - 1] else [])
  }

  /** The loaders whose flag is set, in order. */
  function Select(ls: seq<Loader>, flags: seq<bool>): seq<Loader>
    requires |ls| == |flags|
  {
    if ls == [] then []
    else Select(ls[..|ls| - 1], flags[..|flags| - 1]) + (if flags[|flags| - 1] then [ls[|ls| - 1]] else [])
  }

  /** The picked positions lie in range, increase, and are exactly the flagged positions. */
  lemma {:induction false} PicksFacts(flags: seq<bool>)
    ensures forall j :: 0 <= j < |Picks(flags)| ==> Picks(flags)[j] < |flags|
    ensures forall j1, j2 :: 0 <= j1 < j2 < |Picks(flags)| ==> Picks(flags)[j1] < Picks(flags)[j2]
    ensures forall i :: 0 <= i < |flags| ==> (flags[i] <==> i in Picks(flags))
  {
    if flags != [] {
      var n := |flags| - 1;
      var init := flags[..n];
      PicksFacts(init);
      assert forall i :: 0 <= i < n ==> init[i] == flags[i];
      var p0 := Picks(init);
      if flags[n] {
        assert Picks(flags) == p0 + [n];
      } else {
        assert Picks(flags) == p0;
      }
    }
  }

  /**
   * Select keeps exactly the flagged loaders, each once, in their original
   * order: it is the loaders at the flagged positions.
   */
  lemma {:induction false} SelectIsPicks(ls: seq<Loader>, flags: seq<bool>)
    requires |ls| == |flags|
    ensures |Select(ls, flags)| == |Picks(flags)|
    ensures forall j :: 0 <= j < |Picks(flags)| ==> Picks(flags)[j] < |ls| && Select(ls, flags)[j] == ls[Picks(flags)[j]]
  {
    PicksFacts(flags);
    if ls != [] {
      var n := |ls| - 1;
      SelectIsPicks(ls[..n], flags[..n]);
      PicksFacts(flags[..n]);
      var s0 := Select(ls[..n], flags[..n]);
      var p0 := Picks(flags[..n]);
      assert forall j :: 0 <= j < |p0| ==> s0[j] == ls[p0[j]];
      if flags[n] {
        assert Select(ls, flags) == s0 + [ls[n]] && Picks(flags) == p0 + [n];
      } else {
        assert Select(ls, flags) == s0 && Picks(flags) == p0;
      }
    }
  }

  /** Whether each loader's key set holds the key. */
  function KeyFlags(ks: seq<set<string>>, key: string): (r: seq<bool>)
    ensures |r| == |ks| && forall i :: 0 <= i < |ks| ==> (r[i] <==> key in ks[i])
  {
    seq(|ks|, i requires 0 <= i < |ks| => key in ks[i])
  }

  /** Whether each loader is a directory loader. */
  function DirFlags(ls: seq<Loader>): (r: seq<bool>)
    ensures |r| == |ls| && forall i :: 0 <= i < |ls| ==> (r[i] <==> ls[i].DirLoader?)
  {
    seq(|ls|, i requires 0 <= i < |ls| => ls[i].DirLoader?)
  }

  /** The loaders holding a key, in search-path order. */
  function Holders(ls: seq<Loader>, ks: seq<set<string>>, key: string): seq<Loader>
    requires |ls| == |ks|
  {
    Select(ls, KeyFlags(ks, key))
  }

  /** The directory loaders, in search-path order. */
  function FileLoaders(ls: seq<Loader>): seq<Loader> {
    Select(ls, DirFlags(ls))
  }

  /** The union of the key sets. */
  function AllKeys(ks: seq<set<string>>): (r: set<string>)
    ensures forall key :: key in r <==> exists i :: 0 <= i < |ks| && key in ks[i]
  {
    set i, key | 0 <= i < |ks| && key in ks[i] :: key
  }

  /** What FastLoaderIndex holds. */
  datatype Index = Index(indexMap: map<string, seq<Loader>>, fileLoaders: seq<Loader>, indexKeys: set<string>)

  /** The index of loaders with the given key sets. */
  function IndexOf(ls: seq<Loader>, ks: seq<set<string>>): Index
    requires |ls| == |ks|
  {
    Index(map key | key in AllKeys(ks) :: Holders(ls, ks, key), FileLoaders(ls), AllKeys(ks))
  }

  /** new FastLoaderIndex(loaders, multiThreads): the index, or IllegalStateException carrying the failure. */
  function BuildSpec(ls: seq<Loader>): Result<Index, Exception> {
    match KeysOf(ls)
    case Failure(e) => Failure(Exception(IllegalStateException, BUILD_FAILED, [e]))
    case Success(ks) => Success(IndexOf(ls, ks))
  }

  /**
   * For every key, the index lists exactly the loaders whose key set holds it,
   * each once, in search-path order; the key set is the union of all loaders'
   * keys, and the fallback list is the directory loaders in order.
   */
  lemma IndexContents(ls: seq<Loader>, ks: seq<set<string>>, key: string)
    requires |ls| == |ks|
    ensures var idx := IndexOf(ls, ks);
      && idx.indexKeys == idx.indexMap.Keys
      && (key in idx.indexKeys <==> exists i :: 0 <= i < |ks| && key in ks[i])
      && (key in idx.indexMap ==>
            var p := Picks(KeyFlags(ks, key));
            && |idx.indexMap[key]| == |p|
            && (forall j :: 0 <= j < |p| ==> p[j] < |ls| && idx.indexMap[key][j] == ls[p[j]])
            && (forall j1, j2 :: 0 <= j1 < j2 < |p| ==> p[j1] < p[j2])
            && (forall i :: 0 <= i < |ks| ==> (key in ks[i] <==> i in p)))
  {
    SelectIsPicks(ls, KeyFlags(ks, key));
    PicksFacts(KeyFlags(ks, key));
  }

  /** The fallback list is the directory loaders, each once, in search-path order. */
  lemma FallbackContents(ls: seq<Loader>, ks: seq<set<string>>)
    requires |ls| == |ks|
    ensures var p := Picks(DirFlags(ls));
      var fallback := IndexOf(ls, ks).fileLoaders;
      && |fallback| == |p|
      && (forall j :: 0 <= j < |p| ==> p[j] < |ls| && fallback[j] == ls[p[j]])
      && (forall j1, j2 :: 0 <= j1 < j2 < |p| ==> p[j1] < p[j2])
      && (forall i :: 0 <= i < |ls| ==> (ls[i].DirLoader? <==> i in p))
  {
    SelectIsPicks(ls, DirFlags(ls));
    PicksFacts(DirFlags(ls));
  }

  lemma SelectStep(ls: seq<Loader>, flags: seq<bool>, i: nat)
    requires |ls| == |flags| && i < |ls|
    ensures Select(ls[..i + 1], flags[..i + 1]) == Select(ls[..i], flags[..i]) + (if flags[i] then [ls[i]] else [])
  {
    assert ls[..i + 1][..i] == ls[..i];
    assert flags[..i + 1][..i] == flags[..i];
  }

  lemma HoldersStep(ls: seq<Loader>, ks: seq<set<string>>, i: nat, key: string)
    requires |ls| == |ks| && i < |ls|
    ensures Holders(ls[..i + 1], ks[..i + 1], key) == Holders(ls[..i], ks[..i], key) + (if key in ks[i] then [ls[i]] else [])
  {
    assert KeyFlags(ks[..i + 1], key) == KeyFlags(ks, key)[..i + 1];
    assert KeyFlags(ks[..i], key) == KeyFlags(ks, key)[..i];
    SelectStep(ls, KeyFlags(ks, key), i);
  }

  lemma FileLoadersStep(ls: seq<Loader>, i: nat)
    requires i < |ls|
    ensures FileLoaders(ls[..i + 1]) == FileLoaders(ls[..i]) + (if ls[i].DirLoader? then [ls[i]] else [])
  {
    assert DirFlags(ls[..i + 1]) == DirFlags(ls)[..i + 1];
    assert DirFlags(ls[..i]) == DirFlags(ls)[..i];
    SelectStep(ls, DirFlags(ls), i);
  }

  /** A key no loader holds has no holders. */
  lemma {:induction false} NoHolders(ls: seq<Loader>, flags: seq<bool>)
    requires |ls| == |flags| && forall i :: 0 <= i < |flags| ==> !flags[i]
    ensures Select(ls, flags) == []
  {
    if ls != [] {
      NoHolders(ls[..|ls| - 1], flags[..|flags| - 1]);
    }
  }

  lemma KeysOfStep(ls: seq<Loader>, i: nat, ks: seq<set<string>>)
    requires i < |ls| && KeysOf(ls[..i]) == Success(ks)
    ensures KeysOf(ls[..i + 1]) ==
      match ls[i].KeySpec()
      case Failure(e) => Failure(e)
      case Success(k) => Success(ks + [k])
  {
    assert ls[..i + 1][..i] == ls[..i];
  }

  lemma {:induction false} KeysOfFailureExtends(ls: seq<Loader>, k: nat)
    requires k <= |ls| && KeysOf(ls[..k]).Failure?
    ensures KeysOf(ls) == KeysOf(ls[..k])
    decreases |ls| - k
  {
    if k < |ls| {
      var init := ls[..|ls| - 1];
      assert init[..k] == ls[..k];
      KeysOfFailureExtends(init, k);
    } else {
      assert ls[..k] == ls;
    }
  }

  /**
   * The index build: every loader's keys in order (a failure stops the build
   * with IllegalStateException and the failure as its suppressed error), then
   * each loader appended to the list of every key it holds, and the directory
   * loaders collected as the fallback list. The constructor's multiThreads flag
   * only chooses how many workers share the loop (WorkerCount); the index built
   * is the same either way, so the flag is not a parameter here.
   */
  method BuildIndex(loaders: seq<Loader>) returns (r: Result<Index, Exception>)
    requires forall i :: 0 <= i < |loaders| ==> loaders[i].Valid()
    modifies set i | 0 <= i < |loaders| :: loaders[i].Obj()
    ensures forall i :: 0 <= i < |loaders| ==> loaders[i].Valid()
    ensures r == BuildSpec(loaders)
  {
    var length := |loaders|;
    var indexKeysArr: seq<set<string>> := [];
    var i := 0;
    while i < length
      invariant 0 <= i <= length && |indexKeysArr| == i
      invariant KeysOf(loaders[..i]) == Success(indexKeysArr)
      invariant forall j :: 0 <= j < |loaders| ==> loaders[j].Valid()
    {
      var keys := FastLoaders.GetIndexKeys(loaders[i]);
      KeysOfStep(loaders, i, indexKeysArr);
      if keys.Failure? {
        KeysOfFailureExtends(loaders, i + 1);
        return Failure(Exception(IllegalStateException, BUILD_FAILED, [keys.error]));
      }
      indexKeysArr := indexKeysArr + [keys.value];
      i := i + 1;
    }
    assert loaders[..length] == loaders;
    var index := MergeKeys(loaders, indexKeysArr);
    return Success(index);
  }

  /** The index map after merging the first i loaders. */
  ghost predicate MergedUpTo(m: map<string, seq<Loader>>, ls: seq<Loader>, ks: seq<set<string>>, i: nat)
    requires |ls| == |ks| && i <= |ls|
  {
    && m.Keys == AllKeys(ks[..i])
    && forall key :: key in m ==> m[key] == Holders(ls[..i], ks[..i], key)
  }

  lemma AllKeysStep(ks: seq<set<string>>, i: nat)
    requires i < |ks|
    ensures AllKeys(ks[..i + 1]) == AllKeys(ks[..i]) + ks[i]
  {
    var prefix := ks[..i + 1];
    assert forall j :: 0 <= j < i ==> prefix[j] == ks[..i][j];
    assert prefix[i] == ks[i];
  }

  lemma MergeStepAt(before: map<string, seq<Loader>>, after: map<string, seq<Loader>>, ls: seq<Loader>, ks: seq<set<string>>, i: nat, key: string)
    requires |ls| == |ks| && i < |ls|
    requires MergedUpTo(before, ls, ks, i) && AddedFor(after, before, ks[i], ls[i]) && key in after
    ensures after[key] == Holders(ls[..i + 1], ks[..i + 1], key)
  {
    HoldersStep(ls, ks, i, key);
    if key !in before {
      NoHolders(ls[..i], KeyFlags(ks[..i], key));
    }
  }

  lemma MergeStep(before: map<string, seq<Loader>>, after: map<string, seq<Loader>>, ls: seq<Loader>, ks: seq<set<string>>, i: nat)
    requires |ls| == |ks| && i < |ls|
    requires MergedUpTo(before, ls, ks, i) && AddedFor(after, before, ks[i], ls[i])
    ensures MergedUpTo(after, ls, ks, i + 1)
  {
    forall key | key in after
      ensures after[key] == Holders(ls[..i + 1], ks[..i + 1], key)
    {
      MergeStepAt(before, after, ls, ks, i, key);
    }
    AllKeysStep(ks, i);
  }

  lemma MergedAll(m: map<string, seq<Loader>>, ls: seq<Loader>, ks: seq<set<string>>)
    requires |ls| == |ks| && MergedUpTo(m, ls, ks, |ls|)
    ensures m == IndexOf(ls, ks).indexMap
  {
    assert ls[..|ls|] == ls && ks[..|ks|] == ks;
  }

  /** The merge loop of the index build, over the computed key sets. */
  method MergeKeys(loaders: seq<Loader>, indexKeysArr: seq<set<string>>) returns (index: Index)
    requires |loaders| == |indexKeysArr|
    ensures index == IndexOf(loaders, indexKeysArr)
  {
    var indexMap: map<string, seq<Loader>> := map[];
    var fastFileLoaders: seq<Loader> := [];
    var i := 0;
    while i < |loaders|
      invariant 0 <= i <= |loaders|
      invariant MergedUpTo(indexMap, loaders, indexKeysArr, i)
      invariant fastFileLoaders == FileLoaders(loaders[..i])
    {
      var loader := loaders[i];
      var before := indexMap;
      indexMap := AddLoader(indexMap, indexKeysArr[i], loader);
      MergeStep(before, indexMap, loaders, indexKeysArr, i);
      FileLoadersStep(loaders, i);
      if loader.DirLoader? {
        fastFileLoaders := fastFileLoaders + [loader];
      }
      i := i + 1;
    }
    MergedAll(indexMap, loaders, indexKeysArr);
    assert loaders[..i] == loaders;
    index := Index(indexMap, fastFileLoaders, indexMap.Keys);
  }

  /** The list a map holds for a key, empty when it has none. */
  function ListOf<T>(m: map<string, seq<T>>, key: string): seq<T> {
    if key in m then m[key] else []
  }

  /** The merge state after the loader was appended for the keys in done. */
  ghost predicate AddedFor<T>(r: map<string, seq<T>>, indexMap: map<string, seq<T>>, done: set<string>, loader: T) {
    && r.Keys == indexMap.Keys + done
    && forall key :: key in r ==> r[key] == ListOf(indexMap, key) + (if key in done then [loader] else [])
  }

  lemma AddOne<T>(r: map<string, seq<T>>, indexMap: map<string, seq<T>>, keys: set<string>, remaining: set<string>, loader: T, key: string)
    requires AddedFor(r, indexMap, keys - remaining, loader) && key in remaining && remaining <= keys
    ensures AddedFor(r[key := ListOf(r, key) + [loader]], indexMap, keys - (remaining - {key}), loader)
  {
    assert ListOf(r, key) == ListOf(indexMap, key);
    assert (keys - remaining) + {key} == keys - (remaining - {key});
  }

  /** The inner merge loop: the loader appended to the list of each of its keys, a missing list started empty. */
  method AddLoader<T>(indexMap: map<string, seq<T>>, keys: set<string>, loader: T)
    returns (r: map<string, seq<T>>)
    ensures AddedFor(r, indexMap, keys, loader)
  {
    r := indexMap;
    var remaining := keys;
    while remaining != {}
      invariant remaining <= keys
      invariant AddedFor(r, indexMap, keys - remaining, loader)
      decreases |remaining|
    {
      var key :| key in remaining;
      AddOne(r, indexMap, keys, remaining, loader, key);
      r := r[key := ListOf(r, key) + [loader]];
      remaining := remaining - {key};
    }
    assert keys - remaining == keys;
  }

  /**
   * get(name): the directory loaders for a name starting with "."; otherwise
   * the loaders of the exact key, else of the text before the last '/', else
   * the directory loaders.
   */
  function Get(idx: Index, name: string): (r: seq<Loader>)
    ensures StartsWith(name, ".") ==> r == idx.fileLoaders
    ensures !StartsWith(name, ".") && name in idx.indexMap ==> r == idx.indexMap[name]
  {
    if StartsWith(name, ".") then idx.fileLoaders
    else if name in idx.indexMap then idx.indexMap[name]
    else
      var pos := LastIndexOf(name, '/');
      if pos != -1 && name[..pos] in idx.indexMap then idx.indexMap[name[..pos]]
      else idx.fileLoaders
  }

  /** getIndexKeys(): the union of all loaders' keys. */
  function GetIndexKeys(idx: Index): (r: set<string>)
    ensures r == idx.indexKeys
  {
    idx.indexKeys
  }

  /**
   * The index never hides a loader that holds the name, or failing that the
   * name's package (the text before its last '/'): the candidate list of a
   * built index contains it.
   */
  lemma GetKeepsHolders(ls: seq<Loader>, ks: seq<set<string>>, name: string, i: nat)
    requires |ls| == |ks| && i < |ls| && !StartsWith(name, ".")
    requires name in ks[i] || (name !in AllKeys(ks) && LastIndexOf(name, '/') != -1 && name[..LastIndexOf(name, '/')] in ks[i])
    ensures ls[i] in Get(IndexOf(ls, ks), name)
  {
    var key := if name in ks[i] then name else name[..LastIndexOf(name, '/')];
    IndexContents(ls, ks, key);
    var p := Picks(KeyFlags(ks, key));
    var j :| 0 <= j < |p| && p[j] == i;
    assert IndexOf(ls, ks).indexMap[key][j] == ls[i];
  }

  /** Only one package level is tried: "a/b/C.class" falls back to the directory loaders even when "a" is a key. */
  lemma OnePrefixLevelOnly(idx: Index)
    requires "a/b/C.class" !in idx.indexMap && "a/b" !in idx.indexMap
    ensures Get(idx, "a/b/C.class") == idx.fileLoaders
  {
    LastIndexOfSlash();
    assert "a/b/C.class"[..3] == "a/b";
  }

  lemma LastIndexOfSlash()
    ensures LastIndexOf("a/b/C.class", '/') == 3
  {
    var s := "a/b/C.class";
    assert s[3] == '/' && forall k :: 3 < k < |s| ==> s[k] != '/';
  }
}
