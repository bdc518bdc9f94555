/**
 * BytesLruCache: an access-ordered map from names to byte arrays with a
 * running byte count, `used`; inserting a new name evicts the least recently
 * used entry when the count is then over the cache's weight limit.
 */
module BytesLruCaches {
  import opened Wrappers
  import opened IntegerUtil

  /** One mapping of the cache. */
  datatype Entry = Entry(key: string, bytes: seq<bv8>)

  /** The cache's contents in access order, least recently used first, and its byte count. */
  datatype State = State(entries: seq<Entry>, used: int)

  /** No name is mapped twice. */
  ghost predicate DistinctKeys(es: seq<Entry>) {
    forall i, j :: 0 <= i < j < |es| ==> es[i].key != es[j].key
  }

  /** The total length of the stored byte arrays. */
  function Weight(es: seq<Entry>): nat {
    if es == [] then 0 else Weight(es[..|es| - 1]) + |es[|es| - 1].bytes|
  }

  /** The byte count is exactly the weight of what is stored. */
  ghost predicate Balanced(s: State) {
    s.used == Weight(s.entries)
  }

  /** Where key is, if it is mapped. */
  function Find(es: seq<Entry>, key: string): (r: Option<nat>)
    ensures r.Some? ==> r.value < |es| && es[r.value].key == key
    ensures r.None? <==> forall i :: 0 <= i < |es| ==> es[i].key != key
  {
    if es == [] then None
    else if es[|es| - 1].key == key then Some(|es| - 1)
    else Find(es[..|es| - 1], key)
  }

  /** The entries without the i-th. */
  function Without(es: seq<Entry>, i: nat): (r: seq<Entry>)
    requires i < |es|
    ensures |r| == |es| - 1
  {
    es[..i] + es[i + 1..]
  }

  /** The weight of two runs of entries is the sum of theirs. */
  lemma {:induction false} WeightAppend(a: seq<Entry>, b: seq<Entry>)
    ensures Weight(a + b) == Weight(a) + Weight(b)
    decreases |b|
  {
    if b == [] {
      assert a + b == a;
    } else {
      var n := |b| - 1;
      assert (a + b)[..|a + b| - 1] == a + b[..n];
      WeightAppend(a, b[..n]);
    }
  }

  /** Taking an entry out takes its bytes out of the weight. */
  lemma WeightWithout(es: seq<Entry>, i: nat)
    requires i < |es|
    ensures Weight(Without(es, i)) == Weight(es) - |es[i].bytes|
  {
    assert es == es[..i] + [es[i]] + es[i + 1..];
    WeightAppend(es[..i] + [es[i]], es[i + 1..]);
    WeightAppend(es[..i], [es[i]]);
    WeightAppend(es[..i], es[i + 1..]);
    assert Weight([es[i]]) == |es[i].bytes| by {
      assert [es[i]][..0] == [];
    }
  }

  /** Taking entries out, or moving them, never maps a name twice. */
  lemma WithoutDistinct(es: seq<Entry>, i: nat, e: Entry)
    requires i < |es| && DistinctKeys(es) && e.key == es[i].key
    ensures DistinctKeys(Without(es, i)) && DistinctKeys(Without(es, i) + [e])
  {
    var w := Without(es, i);
    assert forall j :: 0 <= j < |w| ==> w[j] == (if j < i then es[j] else es[j + 1]);
  }

  /**
   * put(key, bytes): the count grows by the new bytes; an existing mapping is
   * replaced and moved to the most recent end, its old bytes subtracted and
   * returned, and nothing is evicted; a new mapping is added at that end, and
   * if the count is then over maxWeight the eldest entry (the new one, if it
   * is alone) is evicted and its bytes subtracted.
   */
  function AfterPut(s: State, maxWeight: int32, key: string, bytes: seq<bv8>): (r: (State, Option<seq<bv8>>))
  {
    var used := s.used + |bytes|;
    match Find(s.entries, key)
    case Some(i) =>
      (State(Without(s.entries, i) + [Entry(key, bytes)], used - |s.entries[i].bytes|), Some(s.entries[i].bytes))
    case None =>
      var es := s.entries + [Entry(key, bytes)];
      if used > maxWeight as int then (State(es[1..], used - |es[0].bytes|), None)
      else (State(es, used), None)
  }

  /** get(key): the bytes mapped to key, if any; a hit moves the entry to the most recent end. */
  function AfterGet(s: State, key: string): (r: (State, Option<seq<bv8>>))
  {
    match Find(s.entries, key)
    case Some(i) => (State(Without(s.entries, i) + [s.entries[i]], s.used), Some(s.entries[i].bytes))
    case None => (s, None)
  }

  /** remove(key): the mapping goes and its bytes are returned; the count is left as it was. */
  function AfterRemove(s: State, key: string): (r: (State, Option<seq<bv8>>))
  {
    match Find(s.entries, key)
    case Some(i) => (State(Without(s.entries, i), s.used), Some(s.entries[i].bytes))
    case None => (s, None)
  }

  /** Replacing a mapping returns the old bytes, moves the count by the difference in length and evicts nothing. */
  lemma PutReplaces(s: State, maxWeight: int32, key: string, bytes: seq<bv8>)
    requires Find(s.entries, key).Some?
    ensures var (r, prev) := AfterPut(s, maxWeight, key, bytes);
      var old_ := s.entries[Find(s.entries, key).value];
      && prev == Some(old_.bytes)
      && r.used == s.used + |bytes| - |old_.bytes|
      && |r.entries| == |s.entries|
      && r.entries[|r.entries| - 1] == Entry(key, bytes)
      && (forall e :: e in s.entries && e.key != key ==> e in r.entries)
  {
    var i := Find(s.entries, key).value;
    var w := Without(s.entries, i);
    forall e | e in s.entries && e.key != key
      ensures e in AfterPut(s, maxWeight, key, bytes).0.entries
    {
      var j :| 0 <= j < |s.entries| && s.entries[j] == e;
      assert w[if j < i then j else j - 1] == e;
    }
  }

  /**
   * A new mapping evicts at most one entry, the least recently used one, and
   * only when the count is over maxWeight: every other entry stays, and the
   * new one is the most recent unless it was evicted itself.
   */
  lemma PutEvictsAtMostOne(s: State, maxWeight: int32, key: string, bytes: seq<bv8>)
    requires Find(s.entries, key).None?
    ensures var (r, prev) := AfterPut(s, maxWeight, key, bytes);
      var over := s.used + |bytes| > maxWeight as int;
      && prev.None?
      && (!over ==> r.entries == s.entries + [Entry(key, bytes)] && r.used == s.used + |bytes|)
      && (over && s.entries != [] ==>
            r.entries == s.entries[1..] + [Entry(key, bytes)] && r.used == s.used + |bytes| - |s.entries[0].bytes|)
      && (over && s.entries == [] ==> r.entries == [] && r.used == s.used)
  {
    var es := s.entries + [Entry(key, bytes)];
    if s.entries != [] {
      assert es[1..] == s.entries[1..] + [Entry(key, bytes)];
    }
  }

  /** One eviction may not be enough: the count can stay over maxWeight after put. */
  lemma PutMayStayOverweight()
    ensures var s := State([Entry("a", [0, 0])], 2);
      AfterPut(s, 1, "b", [0, 0, 0]).0 == State([Entry("b", [0, 0, 0])], 3)
  {
    var s := State([Entry("a", [0, 0])], 2);
    assert Find(s.entries, "b").None?;
  }

  /** put keeps the count equal to the weight stored. */
  lemma PutBalanced(s: State, maxWeight: int32, key: string, bytes: seq<bv8>)
    requires Balanced(s)
    ensures Balanced(AfterPut(s, maxWeight, key, bytes).0)
  {
    var e := Entry(key, bytes);
    assert Weight([e]) == |bytes| by {
      assert [e][..0] == [];
    }
    match Find(s.entries, key)
    case Some(i) =>
      WeightWithout(s.entries, i);
      WeightAppend(Without(s.entries, i), [e]);
    case None =>
      var es := s.entries + [e];
      WeightAppend(s.entries, [e]);
      if s.used + |bytes| > maxWeight as int {
        WeightWithout(es, 0);
        assert Without(es, 0) == es[1..];
      }
  }

  /** put never maps a name twice. */
  lemma PutKeepsKeysDistinct(s: State, maxWeight: int32, key: string, bytes: seq<bv8>)
    requires DistinctKeys(s.entries)
    ensures DistinctKeys(AfterPut(s, maxWeight, key, bytes).0.entries)
  {
    var e := Entry(key, bytes);
    match Find(s.entries, key)
    case Some(i) =>
      WithoutDistinct(s.entries, i, e);
    case None =>
      var es := s.entries + [e];
      assert DistinctKeys(es);
      assert forall j :: 0 <= j < |es| - 1 ==> es[1..][j] == es[j + 1];
  }

  /** get changes neither the count nor what is stored: it only reorders. */
  lemma GetKeepsContents(s: State, key: string)
    requires DistinctKeys(s.entries)
    ensures var (r, v) := AfterGet(s, key);
      && r.used == s.used && Weight(r.entries) == Weight(s.entries)
      && multiset(r.entries) == multiset(s.entries) && DistinctKeys(r.entries)
      && (v.Some? <==> Find(s.entries, key).Some?)
      && (v.Some? ==> r.entries[|r.entries| - 1] == Entry(key, v.value))
  {
    match Find(s.entries, key)
    case Some(i) =>
      var e := s.entries[i];
      WeightWithout(s.entries, i);
      WeightAppend(Without(s.entries, i), [e]);
      assert [e][..0] == [];
      WithoutDistinct(s.entries, i, e);
      assert s.entries == s.entries[..i] + [e] + s.entries[i + 1..];
    case None =>
  }

  /** remove keeps the count, so a removal of a non-empty array leaves it above the weight stored. */
  lemma RemoveUnbalances(s: State, key: string)
    requires Balanced(s) && DistinctKeys(s.entries)
    requires Find(s.entries, key).Some? && |s.entries[Find(s.entries, key).value].bytes| > 0
    ensures var (r, v) := AfterRemove(s, key);
      && r.used == s.used && !Balanced(r)
      && v == Some(s.entries[Find(s.entries, key).value].bytes)
      && Find(r.entries, key).None?
  {
    var i := Find(s.entries, key).value;
    WeightWithout(s.entries, i);
    var w := Without(s.entries, i);
    forall j | 0 <= j < |w|
      ensures w[j].key != key
    {
      assert w[j] == (if j < i then s.entries[j] else s.entries[j + 1]);
    }
  }

  /** clear keeps the count, so clearing a cache that stores any bytes leaves it unbalanced. */
  lemma ClearUnbalances(s: State)
    requires Balanced(s) && Weight(s.entries) > 0
    ensures !Balanced(State([], s.used))
  {
  }

  /** The cache: the access-ordered entries and the byte count, under a fixed weight limit. */
  class BytesLruCache {
    const maxWeight: int32
    var entries: seq<Entry>
    var used: int

    function Snapshot(): State
      reads this
    {
      State(entries, used)
    }

    ghost predicate Valid()
      reads this
    {
      DistinctKeys(entries)
    }

    constructor (maxWeight: int32)
      ensures this.maxWeight == maxWeight && entries == [] && used == 0
      ensures Valid() && Balanced(Snapshot())
    {
      this.maxWeight := maxWeight;
      entries := [];
      used := 0;
    }

    method Put(key: string, bytes: seq<bv8>) returns (prev: Option<seq<bv8>>)
      requires Valid()
      modifies this
      ensures Valid()
      ensures (Snapshot(), prev) == AfterPut(old(Snapshot()), maxWeight, key, bytes)
      ensures old(Balanced(Snapshot())) ==> Balanced(Snapshot())
    {
      PutKeepsKeysDistinct(Snapshot(), maxWeight, key, bytes);
      if Balanced(Snapshot()) {
        PutBalanced(Snapshot(), maxWeight, key, bytes);
      }
      used := used + |bytes|;
      var at := Find(entries, key);
      if at.Some? {
        prev := Some(entries[at.value].bytes);
        entries := Without(entries, at.value) + [Entry(key, bytes)];
        used := used - |prev.value|;
      } else {
        prev := None;
        entries := entries + [Entry(key, bytes)];
        if used > maxWeight as int {
          used := used - |entries[0].bytes|;
          entries := entries[1..];
        }
      }
    }

    method Get(key: string) returns (r: Option<seq<bv8>>)
      requires Valid()
      modifies this
      ensures Valid()
      ensures (Snapshot(), r) == AfterGet(old(Snapshot()), key)
      ensures used == old(used) && Weight(entries) == Weight(old(entries))
    {
      GetKeepsContents(Snapshot(), key);
      var at := Find(entries, key);
      if at.Some? {
        var e := entries[at.value];
        r := Some(e.bytes);
        entries := Without(entries, at.value) + [e];
      } else {
        r := None;
      }
    }

    /** containsKey(key): whether key is mapped; the order is left as it was. */
    function ContainsKey(key: string): (r: bool)
      reads this
      ensures r <==> exists i :: 0 <= i < |entries| && entries[i].key == key
    {
      Find(entries, key).Some?
    }

    /** size(): the number of mappings. */
    function Size(): (r: nat)
      reads this
      ensures r == |entries|
    {
      |entries|
    }

    method Remove(key: string) returns (r: Option<seq<bv8>>)
      requires Valid()
      modifies this
      ensures Valid()
      ensures (Snapshot(), r) == AfterRemove(old(Snapshot()), key)
    {
      var at := Find(entries, key);
      if at.Some? {
        r := Some(entries[at.value].bytes);
        WithoutDistinct(entries, at.value, entries[at.value]);
        entries := Without(entries, at.value);
      } else {
        r := None;
      }
    }

    /** clear(): every mapping goes; the count is left as it was. */
    method Clear()
      modifies this
      ensures Valid()
      ensures entries == [] && used == old(used)
    {
      entries := [];
    }
  }
}
