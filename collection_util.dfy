/**
 * CollectionUtil: null-tolerant helpers over Java collections. A collection
 * reference is an Option of the sequence of its elements in iteration order
 * (None is null); elements are values, never null.
 */
module CollectionUtil {
  import opened Wrappers
  import opened JavaErrors
  import opened IntegerUtil
  import opened Text

  /** isEmpty(collection) */
  predicate IsEmpty<T>(c: Option<seq<T>>) {
    c.None? || |c.value| == 0
  }

  /** isNotEmpty(collection) */
  predicate IsNotEmpty<T>(c: Option<seq<T>>) {
    !IsEmpty(c)
  }

  /** firstElement(List): the element at index 0, null for a null or empty list. */
  function FirstElement<T>(list: Option<seq<T>>): (r: Option<T>)
    ensures r.Some? <==> IsNotEmpty(list)
    ensures r.Some? ==> r.value == list.value[0]
  {
    if IsEmpty(list) then None else Some(list.value[0])
  }

  /** lastElement(List): the element at index size - 1, null for a null or empty list. */
  function LastElement<T>(list: Option<seq<T>>): (r: Option<T>)
    ensures r.Some? <==> IsNotEmpty(list)
    ensures r.Some? ==> r.value == list.value[|list.value| - 1]
  {
    if IsEmpty(list) then None else Some(list.value[|list.value| - 1])
  }

  /** A list is non-empty exactly when it has a first and a last element, and for one element they coincide. */
  lemma FirstAndLastElement<T>(list: Option<seq<T>>)
    ensures IsNotEmpty(list) <==> FirstElement(list).Some? && LastElement(list).Some?
    ensures list.Some? && |list.value| == 1 ==> FirstElement(list) == LastElement(list)
  {
  }

  /** The first of cands that source contains, in the order of cands. */
  function FirstIn<T(==)>(source: seq<T>, cands: seq<T>): (r: Option<T>)
    ensures r.Some? <==> exists i :: 0 <= i < |cands| && cands[i] in source
    ensures r.Some? ==> exists i :: 0 <= i < |cands| && cands[i] == r.value && r.value in source
                                     && forall j :: 0 <= j < i ==> cands[j] !in source
  {
    if cands == [] then None
    else if cands[0] in source then Some(cands[0])
    else
      var r := FirstIn(source, cands[1..]);
      assert forall i :: 1 <= i < |cands| ==> cands[i] == cands[1..][i - 1];
      r
  }

  /** The result findFirstMatch(source, candidates) must have: null when either is empty, else FirstIn. */
  function FirstMatch<T(==)>(source: Option<seq<T>>, candidates: Option<seq<T>>): Option<T> {
    if IsEmpty(source) || IsEmpty(candidates) then None else FirstIn(source.value, candidates.value)
  }

  /** findFirstMatch(source, candidates): the loop over the candidates. */
  method FindFirstMatch<T(==)>(source: Option<seq<T>>, candidates: Option<seq<T>>) returns (r: Option<T>)
    ensures r == FirstMatch(source, candidates)
    ensures r.Some? ==> r.value in source.value && r.value in candidates.value
    ensures r.None? <==> IsEmpty(source) || forall c :: c in candidates.GetOr([]) ==> c !in source.value
  {
    if IsEmpty(source) || IsEmpty(candidates) {
      return None;
    }
    var src, cands := source.value, candidates.value;
    var i := 0;
    while i < |cands|
      invariant 0 <= i <= |cands|
      invariant FirstIn(src, cands) == FirstIn(src, cands[i..])
    {
      if cands[i] in src {
        return Some(cands[i]);
      }
      assert cands[i..][1..] == cands[i + 1..];
      i := i + 1;
    }
    return None;
  }

  /** containsAny(source, candidates) == (findFirstMatch(source, candidates) != null) */
  predicate ContainsAny<T(==)>(source: Option<seq<T>>, candidates: Option<seq<T>>)
    ensures ContainsAny(source, candidates) <==>
      source.Some? && candidates.Some? && exists c :: c in candidates.value && c in source.value
  {
    FirstMatch(source, candidates).Some?
  }

  /** The elements of c that the type test accepts, in order; no type (null) accepts every element. */
  function Matching<T>(c: seq<T>, isInstance: Option<T -> bool>): (r: seq<T>)
    ensures |r| <= |c|
  {
    if c == [] then []
    else
      var last := c[|c| - 1];
      Matching(c[..|c| - 1], isInstance) + (if isInstance.None? || isInstance.value(last) then [last] else [])
  }

  /** findValueOfType(collection, type): the single matching element; null when none or several match. */
  method FindValueOfType<T>(collection: Option<seq<T>>, isInstance: Option<T -> bool>) returns (r: Option<T>)
    ensures r.Some? <==> collection.Some? && |Matching(collection.value, isInstance)| == 1
    ensures r.Some? ==> r.value == Matching(collection.value, isInstance)[0]
  {
    if IsEmpty(collection) {
      return None;
    }
    var c := collection.value;
    var value: Option<T> := None;
    var i := 0;
    while i < |c|
      invariant 0 <= i <= |c|
      invariant |Matching(c[..i], isInstance)| <= 1
      invariant value.Some? <==> |Matching(c[..i], isInstance)| == 1
      invariant value.Some? ==> value.value == Matching(c[..i], isInstance)[0]
    {
      assert c[..i + 1][..i] == c[..i];
      assert Matching(c[..i + 1], isInstance) == Matching(c[..i], isInstance)
        + (if isInstance.None? || isInstance.value(c[i]) then [c[i]] else []);
      if isInstance.None? || isInstance.value(c[i]) {
        if value.Some? {
          MatchingGrows(c, isInstance, i + 1);
          return None;
        }
        value := Some(c[i]);
      }
      i := i + 1;
    }
    assert c[..|c|] == c;
    r := value;
  }

  /** Matching over a longer prefix keeps at least as many elements. */
  lemma {:induction false} MatchingGrows<T>(c: seq<T>, isInstance: Option<T -> bool>, k: nat)
    requires k <= |c|
    ensures |Matching(c[..k], isInstance)| <= |Matching(c, isInstance)|
    decreases |c|
  {
    if k < |c| {
      assert c[..|c| - 1][..k] == c[..k];
      MatchingGrows(c[..|c| - 1], isInstance, k);
    } else {
      assert c[..k] == c;
    }
  }

  /**
   * hasUniqueObject(collection): false when empty, else whether every element
   * is the very same reference as the first one (null included); equal but
   * distinct objects count as different.
   */
  method HasUniqueObject(collection: Option<seq<object?>>) returns (r: bool)
    ensures r <==> IsNotEmpty(collection) && forall i :: 0 <= i < |collection.value| ==> collection.value[i] == collection.value[0]
  {
    if IsEmpty(collection) {
      return false;
    }
    var c := collection.value;
    var hasCandidate := false;
    var candidate: Option<object?> := None;
    var i := 0;
    while i < |c|
      invariant 0 <= i <= |c|
      invariant hasCandidate <==> i > 0
      invariant hasCandidate ==> candidate == Some(c[0])
      invariant forall j :: 0 <= j < i ==> c[j] == c[0]
    {
      if !hasCandidate {
        hasCandidate := true;
        candidate := Some(c[i]);
      } else if candidate.value != c[i] {
        return false;
      }
      i := i + 1;
    }
    return true;
  }

  /**
   * suitableCapacity(arraySize) as written: 5 + arraySize + arraySize / 10 is
   * evaluated in int arithmetic, which wraps, and only then widened to long and
   * passed to saturatedCast, which therefore never changes it.
   */
  function SuitableCapacityAsWritten(arraySize: int32): (r: int32)
    ensures (r - (5 + arraySize + JavaDivTen(arraySize))) % 0x1_0000_0000 == 0
    ensures INT_MIN <= 5 + arraySize + JavaDivTen(arraySize) <= INT_MAX ==> r == 5 + arraySize + JavaDivTen(arraySize)
  {
    var wrapped := ToInt32(ToInt32(5 + arraySize) + JavaDivTen(arraySize));
    assert (wrapped - (5 + arraySize + JavaDivTen(arraySize))) % 0x1_0000_0000 == 0 by {
      WrapsCompose(5 + arraySize, JavaDivTen(arraySize));
    }
    SaturatedCast(wrapped)
  }

  /** Wrapping a partial sum and then the whole sum wraps the whole sum. */
  lemma WrapsCompose(a: int, b: int)
    ensures (ToInt32(ToInt32(a) + b) - (a + b)) % 0x1_0000_0000 == 0
  {
    var t := ToInt32(a);
    var k := (t - a) / 0x1_0000_0000;
    assert t - a == k * 0x1_0000_0000;
    var u := ToInt32(t + b);
    var m := (u - (t + b)) / 0x1_0000_0000;
    assert u - (t + b) == m * 0x1_0000_0000;
    assert u - (a + b) == (k + m) * 0x1_0000_0000;
  }

  /** For Integer.MAX_VALUE the as-written capacity wraps to a negative number. */
  lemma SuitableCapacityOverflows()
    ensures SuitableCapacityAsWritten(INT_MAX) == -1932735280 < 0
  {
  }

  /**
   * suitableCapacity(arraySize) as evidently intended: the sum computed in long
   * arithmetic, then saturated to int. It never undercuts a non-negative request.
   */
  function SuitableCapacity(arraySize: int32): (r: int32)
    ensures arraySize >= 0 ==> arraySize <= r
    ensures 0 <= arraySize && 5 + arraySize + arraySize / 10 <= INT_MAX ==> r == 5 + arraySize + arraySize / 10
    ensures 0 <= arraySize && 5 + arraySize + arraySize / 10 > INT_MAX ==> r == INT_MAX
  {
    SaturatedCastClamps(5 + arraySize + JavaDivTen(arraySize));
    SaturatedCast(5 + arraySize + JavaDivTen(arraySize))
  }

  /** Wherever the sum fits in an int the two definitions agree. */
  lemma SuitableCapacityAgreesWhenNoOverflow(arraySize: int32)
    requires INT_MIN <= 5 + arraySize + JavaDivTen(arraySize) <= INT_MAX
    ensures SuitableCapacityAsWritten(arraySize) == SuitableCapacity(arraySize)
  {
  }

  /** The longest array whose as-written capacity is still non-negative has 1952257857 elements. */
  const LONGEST_SIZED_ARRAY: int32 := 1952257857

  /** For a valid array length the as-written capacity is negative exactly past LONGEST_SIZED_ARRAY. */
  lemma SuitableCapacityNegativeExactly(arraySize: int32)
    requires arraySize >= 0
    ensures SuitableCapacityAsWritten(arraySize) < 0 <==> arraySize > LONGEST_SIZED_ARRAY
  {
    var sum := 5 + arraySize + JavaDivTen(arraySize);
    var r := SuitableCapacityAsWritten(arraySize);
    assert sum > INT_MAX <==> arraySize > LONGEST_SIZED_ARRAY;
    if sum > INT_MAX {
      assert sum < 0x1_0000_0000;
      var k := (r - sum) / 0x1_0000_0000;
      assert r - sum == k * 0x1_0000_0000;
      assert k == -1;
    }
  }

  /**
   * newArrayList(elements...) (and asList): a list of exactly the elements in
   * order, built in an ArrayList of the as-written suitable capacity; a null
   * array throws NullPointerException, and a capacity that wrapped negative
   * makes the ArrayList constructor throw IllegalArgumentException.
   */
  method NewArrayList<T>(elements: Option<seq<T>>) returns (r: Result<seq<T>, Exception>)
    requires elements.Some? ==> |elements.value| <= INT_MAX
    ensures elements.None? ==> r.Failure? && r.error.kind == NullPointerException
    ensures elements.Some? ==> (r.Failure? <==> SuitableCapacityAsWritten(|elements.value| as int32) < 0)
    ensures elements.Some? && r.Failure? ==>
      r.error == Err(IllegalArgumentException, "Illegal Capacity: " + IntToDecimal(SuitableCapacityAsWritten(|elements.value| as int32) as int))
    ensures elements.Some? && r.Success? ==> r.value == elements.value
  {
    if elements.None? {
      return Failure(Err(NullPointerException, ""));
    }
    var es := elements.value;
    var capacity := SuitableCapacityAsWritten(|es| as int32);
    if capacity < 0 {
      return Failure(Err(IllegalArgumentException, "Illegal Capacity: " + IntToDecimal(capacity as int)));
    }
    var list: seq<T> := [];
    var i := 0;
    while i < |es|
      invariant 0 <= i <= |es|
      invariant list == es[..i]
    {
      list := list + [es[i]];
      i := i + 1;
    }
    assert es[..|es|] == es;
    return Success(list);
  }

  /** asList(elements...) delegates to newArrayList. */
  method AsList<T>(elements: Option<seq<T>>) returns (r: Result<seq<T>, Exception>)
    requires elements.Some? ==> |elements.value| <= INT_MAX
    ensures elements.None? ==> r.Failure? && r.error.kind == NullPointerException
    ensures elements.Some? ==> (r.Failure? <==> |elements.value| > LONGEST_SIZED_ARRAY)
    ensures elements.Some? && r.Failure? ==> r.error.kind == IllegalArgumentException
    ensures elements.Some? && r.Success? ==> r.value == elements.value
  {
    r := NewArrayList(elements);
    if elements.Some? {
      SuitableCapacityNegativeExactly(|elements.value| as int32);
    }
  }
}
