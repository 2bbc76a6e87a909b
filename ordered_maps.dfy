/**
 * A Python `dict`: a map whose keys remember the order of their first
 * insertion. Assigning to a key that is already present replaces its value
 * and keeps its position.
 */
module OrderedMaps {
  import opened Wrappers

  datatype OrderedMap<K(!new), V> = OrderedMap(keys: seq<K>, entries: map<K, V>) {

    /** Every key is listed once, and exactly the keys of `entries` are listed. */
    ghost predicate Valid() {
      Distinct(keys) && forall k :: k in entries <==> k in keys
    }

    /** `d[k] = v`. */
    function Put(k: K, v: V): (d: OrderedMap<K, V>)
      ensures d.entries == entries[k := v]
      ensures k in entries ==> d.keys == keys
      ensures k !in entries ==> d.keys == keys + [k]
      ensures Valid() ==> d.Valid()
    {
      if k in entries then OrderedMap(keys, entries[k := v])
      else OrderedMap(keys + [k], entries[k := v])
    }
  }

  /** `{}`. */
  function Empty<K(!new), V>(): (d: OrderedMap<K, V>)
    ensures d.Valid() && d.keys == [] && d.entries == map[]
  {
    OrderedMap([], map[])
  }

  /**
   * The elements of `s` in the order of their first occurrence, each once:
   * the key order of a dict after assigning to the keys `s` in turn.
   */
  function Dedup<T(==,!new)>(s: seq<T>): (r: seq<T>)
    ensures forall x :: x in r <==> x in s
    ensures Distinct(r)
  {
    if s == [] then []
    else
      var init := Dedup(s[..|s| - 1]);
      if s[|s| - 1] in s[..|s| - 1] then init else init + [s[|s| - 1]]
  }

  /** Appending an element adds it to the order unless it was already there. */
  lemma DedupSnoc<T(!new)>(s: seq<T>, x: T)
    ensures Dedup(s + [x]) == if x in s then Dedup(s) else Dedup(s) + [x]
  {
    assert (s + [x])[..|s|] == s;
  }

  /** A sequence without repetitions is its own first-occurrence order. */
  lemma {:induction false} DedupDistinct<T(!new)>(s: seq<T>)
    requires Distinct(s)
    ensures Dedup(s) == s
  {
    if s != [] {
      DedupDistinct(s[..|s| - 1]);
      assert s == s[..|s| - 1] + [s[|s| - 1]];
    }
  }

  /** Python's `s.index(x)`: the position of the first occurrence of `x`. */
  function FirstIndex<T(==)>(s: seq<T>, x: T): (i: nat)
    requires x in s
    ensures i < |s| && s[i] == x && x !in s[..i]
  {
    if s[0] == x then 0
    else
      var i := 1 + FirstIndex(s[1..], x);
      assert s[..i] == [s[0]] + s[1..][..i - 1];
      i
  }

  /** A position holding `x` with no `x` before it is the first occurrence. */
  lemma FirstIndexIs<T>(s: seq<T>, x: T, i: nat)
    requires i < |s| && s[i] == x && x !in s[..i]
    ensures FirstIndex(s, x) == i
  {
  }

  /**
   * The key order is the order of first occurrence: of two keys, the one
   * listed first occurs first in `s`.
   */
  lemma {:induction false} DedupOrder<T(!new)>(s: seq<T>)
    ensures forall i, j :: 0 <= i < j < |Dedup(s)| ==> FirstIndex(s, Dedup(s)[i]) < FirstIndex(s, Dedup(s)[j])
  {
    if s != [] {
      var init := s[..|s| - 1];
      var x := s[|s| - 1];
      var r0 := Dedup(init);
      DedupOrder(init);
      forall y | y in init
        ensures FirstIndex(s, y) == FirstIndex(init, y)
      {
        var k := FirstIndex(init, y);
        assert s[..k] == init[..k];
        FirstIndexIs(s, y, k);
      }
      if x !in init {
        assert s[..|s| - 1] == init;
        FirstIndexIs(s, x, |s| - 1);
      }
    }
  }
}
