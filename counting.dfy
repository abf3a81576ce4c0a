/** Insertion-ordered counting maps: a Python `defaultdict(int)` as `items()` walks it, with the keys in the order
    in which they were first incremented. */
module Counting {

  /** The keys in iteration order and the count of each. */
  datatype Counter<K(!new)> = Counter(keys: seq<K>, counts: map<K, nat>)
  {
    /** Each key is listed once, the listed keys are exactly the counted keys, and every count is positive (a key
        only enters the map through an increment). */
    ghost predicate Valid()
    {
      && (forall i, j :: 0 <= i < j < |keys| ==> keys[i] != keys[j])
      && (forall k :: k in counts <==> k in keys)
      && (forall k :: k in counts ==> counts[k] > 0)
    }

    /** The count of `k`, zero for a key never incremented (read without inserting). */
    function Get(k: K): nat
    {
      if k in counts then counts[k] else 0
    }

    /** `counts[k] += 1`: only `k`'s count changes, and a key seen for the first time goes to the end of the
        iteration order. */
    function Inc(k: K): (c: Counter<K>)
      ensures c.Get(k) == Get(k) + 1
      ensures forall k' :: k' != k ==> c.Get(k') == Get(k')
      ensures c.keys == keys + (if k in counts then [] else [k])
      ensures Valid() ==> c.Valid()
    {
      if k in counts then Counter(keys, counts[k := counts[k] + 1])
      else Counter(keys + [k], counts[k := 1])
    }

    /** The sum of the counts of the keys `ks`. */
    function SumOver(ks: seq<K>): nat
    {
      if ks == [] then 0 else SumOver(ks[..|ks| - 1]) + Get(ks[|ks| - 1])
    }

    /** The sum of all counts. */
    function Total(): nat
    {
      SumOver(keys)
    }
  }

  /** The counter that results from incrementing the elements of `stream` in order, starting from an empty one. */
  function Tally<K(!new)>(stream: seq<K>): Counter<K>
  {
    if stream == [] then Counter([], map[]) else Tally(stream[..|stream| - 1]).Inc(stream[|stream| - 1])
  }

  /** The position of the first occurrence of `x` in `s`. */
  function IndexOf<K(==)>(s: seq<K>, x: K): (i: nat)
    requires x in s
    ensures i < |s| && s[i] == x
    ensures forall j :: 0 <= j < i ==> s[j] != x
  {
    if s[0] == x then 0 else 1 + IndexOf(s[1..], x)
  }

  lemma TallySnoc<K(!new)>(stream: seq<K>, x: K)
    ensures Tally(stream + [x]) == Tally(stream).Inc(x)
  {
    assert (stream + [x])[..|stream|] == stream;
  }

  /** Counting a stream gives a valid counter that holds exactly the elements of the stream, each with its number
      of occurrences. */
  lemma {:induction false} TallyCounts<K(!new)>(stream: seq<K>)
    ensures Tally(stream).Valid()
    ensures forall k :: k in Tally(stream).keys <==> k in stream
    ensures forall k :: Tally(stream).Get(k) == multiset(stream)[k]
  {
    if stream != [] {
      var p, x := stream[..|stream| - 1], stream[|stream| - 1];
      TallyCounts(p);
      assert stream == p + [x];
      assert multiset(stream) == multiset(p) + multiset{x};
    }
  }

  /** Counting more elements adds their number of occurrences to each count. */
  lemma TallyAppend<K(!new)>(stream: seq<K>, more: seq<K>)
    ensures forall k :: Tally(stream + more).Get(k) == Tally(stream).Get(k) + multiset(more)[k]
  {
    TallyCounts(stream);
    TallyCounts(stream + more);
    assert multiset(stream + more) == multiset(stream) + multiset(more);
  }

  /** Counting the same element `n` times gives a counter holding that element alone, with count `n`. */
  lemma {:induction false} TallyRepeat<K(!new)>(stream: seq<K>, x: K)
    requires forall i :: 0 <= i < |stream| ==> stream[i] == x
    ensures Tally(stream) == if stream == [] then Counter([], map[]) else Counter([x], map[x := |stream|])
  {
    if stream != [] {
      var p := stream[..|stream| - 1];
      assert forall i :: 0 <= i < |p| ==> p[i] == x;
      TallyRepeat(p, x);
      assert stream[|stream| - 1] == x;
      var c := Tally(p);
      assert Tally(stream) == c.Inc(x);
      if p == [] {
        assert c.Inc(x) == Counter([x], map[x := 1]);
      } else {
        assert c.counts == map[x := |p|];
        assert c.Inc(x) == Counter([x], map[x := |p|][x := |p| + 1]);
        assert map[x := |p|][x := |p| + 1] == map[x := |stream|];
      }
    }
  }

  /** `ks` lists elements of `s` in the order of their first occurrence in `s`. */
  ghost predicate InFirstOccurrenceOrder<K>(ks: seq<K>, s: seq<K>)
  {
    && (forall i :: 0 <= i < |ks| ==> ks[i] in s)
    && (forall i, j :: 0 <= i < j < |ks| ==> IndexOf(s, ks[i]) < IndexOf(s, ks[j]))
  }

  /** Appending to a sequence moves no first occurrence, and a new element first occurs at the end. */
  lemma IndexOfSnoc<K>(s: seq<K>, x: K)
    ensures forall k :: k in s ==> IndexOf(s + [x], k) == IndexOf(s, k)
    ensures x !in s ==> IndexOf(s + [x], x) == |s|
  {
    forall k | k in s
      ensures IndexOf(s + [x], k) == IndexOf(s, k)
    {
      var i, i' := IndexOf(s, k), IndexOf(s + [x], k);
      assert (s + [x])[i] == k;
      assert s[i'] == k;
    }
  }

  /** Counting a stream lists its distinct elements in the order of their first occurrence. */
  lemma {:induction false} TallyOrder<K(!new)>(stream: seq<K>)
    ensures InFirstOccurrenceOrder(Tally(stream).keys, stream)
  {
    if stream != [] {
      var p, x := stream[..|stream| - 1], stream[|stream| - 1];
      assert stream == p + [x];
      TallyOrder(p);
      TallyCounts(p);
      IndexOfSnoc(p, x);
      var ks, ks' := Tally(p).keys, Tally(stream).keys;
      assert ks' == ks + (if x in p then [] else [x]);
      forall i | 0 <= i < |ks'|
        ensures ks'[i] in stream
        ensures ks'[i] in p ==> IndexOf(stream, ks'[i]) == IndexOf(p, ks'[i])
        ensures ks'[i] !in p ==> IndexOf(stream, ks'[i]) == |p|
      {
        if i < |ks| {
          assert ks'[i] == ks[i];
        }
      }
    }
  }

  /** Raising the count of one key by one raises the sum over `ks` by the number of times `ks` lists that key. */
  lemma {:induction false} SumOverBump<K(!new)>(c: Counter<K>, d: Counter<K>, k: K, ks: seq<K>)
    requires d.Get(k) == c.Get(k) + 1
    requires forall k' :: k' != k ==> d.Get(k') == c.Get(k')
    ensures d.SumOver(ks) == c.SumOver(ks) + multiset(ks)[k]
  {
    if ks != [] {
      var p := ks[..|ks| - 1];
      SumOverBump(c, d, k, p);
      assert ks == p + [ks[|ks| - 1]];
    }
  }

  /** A key listed at most once is counted once in the multiset of the list, or not at all. */
  lemma {:induction false} DistinctOccurrence<K>(ks: seq<K>, k: K)
    requires forall i, j :: 0 <= i < j < |ks| ==> ks[i] != ks[j]
    ensures multiset(ks)[k] == if k in ks then 1 else 0
  {
    if ks != [] {
      var p := ks[..|ks| - 1];
      DistinctOccurrence(p, k);
      assert ks == p + [ks[|ks| - 1]];
    }
  }

  /** The counts of a tallied stream add up to its length: every element is counted exactly once. */
  lemma {:induction false} TallyTotal<K(!new)>(stream: seq<K>)
    ensures Tally(stream).Total() == |stream|
  {
    if stream != [] {
      var p, x := stream[..|stream| - 1], stream[|stream| - 1];
      TallyTotal(p);
      TallyCounts(p);
      var c := Tally(p);
      var d := c.Inc(x);
      assert Tally(stream) == d;
      SumOverBump(c, d, x, c.keys);
      DistinctOccurrence(c.keys, x);
      if x !in c.counts {
        assert d.keys == c.keys + [x];
        assert d.keys[..|c.keys|] == c.keys;
      }
    }
  }
}
