/** Sorting a handful of readings and taking their median (contracts/price-guard/src/lib.rs). */
module Medians {
  import opened Prelude

  predicate Ascending(s: seq<int>) {
    forall i, j | 0 <= i < j < |s| :: s[i] <= s[j]
  }

  /** Inserts `x` from the right, before every larger element. */
  function Insert(s: seq<int>, x: int): seq<int> {
    if s == [] then [x]
    else if s[|s| - 1] > x then Insert(s[..|s| - 1], x) + [s[|s| - 1]]
    else s + [x]
  }

  function SortUp(s: seq<int>): seq<int> {
    if s == [] then [] else Insert(SortUp(s[..|s| - 1]), s[|s| - 1])
  }

  /** Where insertion from the right puts a key. */
  lemma {:induction false} InsertAt(s: seq<int>, x: int, j: nat)
    requires j <= |s| && (j > 0 ==> s[j - 1] <= x)
    requires forall k | j <= k < |s| :: s[k] > x
    ensures Insert(s, x) == s[..j] + [x] + s[j..]
  {
    if j < |s| {
      var t := s[..|s| - 1];
      InsertAt(t, x, j);
      assert s[j..] == t[j..] + [s[|s| - 1]];
    }
  }

  lemma InsertSlot(s: seq<int>, x: int) returns (j: nat)
    requires Ascending(s)
    ensures j <= |s| && Insert(s, x) == s[..j] + [x] + s[j..]
    ensures (forall k | 0 <= k < j :: s[k] <= x) && (forall k | j <= k < |s| :: s[k] > x)
  {
    j := |s|;
    while j > 0 && s[j - 1] > x
      invariant j <= |s| && forall k | j <= k < |s| :: s[k] > x
    {
      j := j - 1;
    }
    InsertAt(s, x, j);
  }

  lemma SplicedElements(s: seq<int>, x: int, j: nat)
    requires j <= |s|
    ensures multiset(s[..j] + [x] + s[j..]) == multiset(s) + multiset{x}
  {
    assert s == s[..j] + s[j..];
  }

  lemma InsertSorts(s: seq<int>, x: int)
    requires Ascending(s)
    ensures Ascending(Insert(s, x)) && multiset(Insert(s, x)) == multiset(s) + multiset{x} && |Insert(s, x)| == |s| + 1
  {
    var j := InsertSlot(s, x);
    SplicedAscends(s, x, j);
    SplicedElements(s, x, j);
  }

  lemma SplicedAscends(s: seq<int>, x: int, j: nat)
    requires Ascending(s) && j <= |s|
    requires (forall k | 0 <= k < j :: s[k] <= x) && (forall k | j <= k < |s| :: s[k] > x)
    ensures Ascending(s[..j] + [x] + s[j..])
  {
    var r := s[..j] + [x] + s[j..];
    forall a, b | 0 <= a < b < |r|
      ensures r[a] <= r[b]
    {
      if a < j {
        assert r[a] == s[a];
        if b > j { assert r[b] == s[b - 1]; }
      } else if a > j {
        assert r[a] == s[a - 1] && r[b] == s[b - 1];
      } else {
        assert r[b] == s[b - 1];
      }
    }
  }

  /** Sorting yields the ascending permutation. */
  lemma {:induction false} SortUpSorts(s: seq<int>)
    ensures Ascending(SortUp(s)) && multiset(SortUp(s)) == multiset(s) && |SortUp(s)| == |s|
  {
    if s != [] {
      assert s == s[..|s| - 1] + [s[|s| - 1]];
      SortUpSorts(s[..|s| - 1]);
      InsertSorts(SortUp(s[..|s| - 1]), s[|s| - 1]);
    }
  }

  lemma TopIsLast(a: seq<int>, b: seq<int>)
    requires Ascending(a) && Ascending(b) && multiset(a) == multiset(b) && a != []
    ensures b != [] && a[|a| - 1] <= b[|b| - 1]
  {
    var x := a[|a| - 1];
    assert x in multiset(a);
    assert x in b;
    var k :| 0 <= k < |b| && b[k] == x;
  }

  /** There is only one ascending permutation. */
  lemma {:induction false} AscendingUnique(a: seq<int>, b: seq<int>)
    requires Ascending(a) && Ascending(b) && multiset(a) == multiset(b)
    ensures a == b
    decreases |a|
  {
    if a != [] {
      TopIsLast(a, b);
      TopIsLast(b, a);
      DropLast(a);
      DropLast(b);
      AscendingUnique(a[..|a| - 1], b[..|b| - 1]);
    } else if b != [] {
      TopIsLast(b, a);
    }
  }

  lemma DropLast(s: seq<int>)
    requires s != []
    ensures s == s[..|s| - 1] + [s[|s| - 1]]
    ensures multiset(s[..|s| - 1]) == multiset(s) - multiset{s[|s| - 1]}
  {
    assert s == s[..|s| - 1] + [s[|s| - 1]];
  }

  /** The middle of an ascending sequence, or the mean of its two middles rounded toward zero. */
  function Middle(s: seq<int>): int
    requires s != []
  {
    if |s| % 2 == 1 then s[|s| / 2] else Quot(s[|s| / 2 - 1] + s[|s| / 2], 2)
  }

  function Median(values: seq<int>): int
    requires values != []
  {
    SortUpSorts(values);
    Middle(SortUp(values))
  }

  /** The median does not depend on the order the readings arrived in. */
  lemma MedianOrderFree(a: seq<int>, b: seq<int>)
    requires a != [] && b != [] && multiset(a) == multiset(b)
    ensures Median(a) == Median(b) && SortUp(a) == SortUp(b)
  {
    SortUpSorts(a);
    SortUpSorts(b);
    AscendingUnique(SortUp(a), SortUp(b));
  }

  lemma MiddleBetween(s: seq<int>)
    requires s != [] && Ascending(s) && s[0] > 0
    ensures s[(|s| - 1) / 2] <= Middle(s) <= s[|s| / 2]
    ensures s[0] <= s[(|s| - 1) / 2] && s[|s| / 2] <= s[|s| - 1]
  {
    var h, k := (|s| - 1) / 2, |s| / 2;
    assert 0 <= h <= k < |s| && (|s| % 2 == 1 ==> h == k) && (|s| % 2 == 0 ==> h == k - 1);
    assert s[h] <= s[k];
  }

  /** The median splits the readings: at least half of them lie on either side of it. */
  lemma MedianBetween(values: seq<int>)
    requires values != [] && forall v | v in values :: v > 0
    ensures var s := SortUp(values);
            && |s| == |values| && Ascending(s)
            && s[(|s| - 1) / 2] <= Median(values) <= s[|s| / 2]
            && 0 < s[0] <= Median(values) <= s[|s| - 1]
  {
    SortUpSorts(values);
    SameElements(SortUp(values), values);
    assert SortUp(values)[0] in SortUp(values);
    MiddleBetween(SortUp(values));
  }

  lemma SameElements(a: seq<int>, b: seq<int>)
    requires multiset(a) == multiset(b)
    ensures forall v :: v in a <==> v in b
  {
    assert forall v :: v in a <==> v in multiset(a);
    assert forall v :: v in b <==> v in multiset(b);
  }

  function Least(s: seq<int>): int
    requires s != []
  {
    if |s| == 1 then s[0] else Min(s[0], Least(s[1..]))
  }

  function Greatest(s: seq<int>): int
    requires s != []
  {
    if |s| == 1 then s[0] else Max(s[0], Greatest(s[1..]))
  }

  lemma {:induction false} LeastGreatest(s: seq<int>)
    requires s != []
    ensures Least(s) in s && Greatest(s) in s
    ensures forall v | v in s :: Least(s) <= v <= Greatest(s)
  {
    if |s| > 1 {
      LeastGreatest(s[1..]);
      assert s == [s[0]] + s[1..];
    }
  }

  /** From the lowest reading to the highest it is at most `bandBps` basis points up; one reading alone always fits. */
  predicate WithinBand(values: seq<int>, bandBps: nat) {
    |values| < 2 ||
    (Least(values) > 0 && Quot((Greatest(values) - Least(values)) * BPS, Least(values)) <= bandBps)
  }

  /** Readings within the band are within it of anything between the lowest and the highest. */
  lemma BandBoundsDistance(values: seq<int>, bandBps: nat, m: int, v: int)
    requires |values| >= 2 && WithinBand(values, bandBps)
    requires v in values && Least(values) <= m <= Greatest(values)
    ensures v > 0 && Abs(m - v) * BPS < (bandBps + 1) * v
  {
    LeastGreatest(values);
    var lo, hi := Least(values), Greatest(values);
    assert Abs(m - v) <= hi - lo;
    QuotAtLeast((hi - lo) * BPS, lo, bandBps + 1);
    assert (hi - lo) * BPS < (bandBps + 1) * lo;
    MulMono(lo, v, bandBps + 1);
  }

  // ----- the fixed-capacity buffer the contract sorts in

  const CAPACITY: nat := 8

  class SortBuf {
    const items: array<int>
    var len: nat

    ghost predicate Valid()
      reads this
    {
      items.Length == CAPACITY && len <= CAPACITY
    }

    ghost function Contents(): seq<int>
      reads this, items
      requires Valid()
    {
      items[..len]
    }

    /** Refuses more readings than it can hold rather than dropping any; the caller checks first. */
    constructor (values: seq<int>)
      requires |values| <= CAPACITY
      ensures Valid() && fresh(items) && Contents() == values
    {
      items := new int[CAPACITY];
      len := |values|;
      new;
      var i := 0;
      while i < |values|
        invariant 0 <= i <= |values| && Valid() && len == |values|
        invariant items[..i] == values[..i]
      {
        items[i] := values[i];
        i := i + 1;
      }
    }

    /** One round of the sort: shifts larger readings right until `items[i]` has its place among the
        first `i`. */
    method Place(i: nat)
      requires Valid() && i < len
      modifies items
      ensures Valid() && items[..i + 1] == Insert(old(items[..i]), old(items[i]))
      ensures forall k | i < k < items.Length :: items[k] == old(items[k])
    {
      var key := items[i];
      ghost var prefix := items[..i];
      var j := i;
      while j > 0 && items[j - 1] > key
        invariant j <= i
        invariant forall k | 0 <= k < j :: items[k] == prefix[k]
        invariant forall k | j <= k < i :: items[k + 1] == prefix[k]
        invariant forall k | j <= k < i :: prefix[k] > key
        invariant forall k | i < k < items.Length :: items[k] == old(items[k])
      {
        items[j] := items[j - 1];
        j := j - 1;
      }
      items[j] := key;
      InsertAt(prefix, key, j);
      ghost var placed := prefix[..j] + [key] + prefix[j..];
      forall k | 0 <= k <= i
        ensures items[k] == placed[k]
      {
        if k > j { assert items[(k - 1) + 1] == prefix[k - 1]; }
      }
      assert items[..i + 1] == placed;
      assert old(items[..i]) == prefix;
    }

    /** The in-place insertion sort: the buffer ends up holding the ascending permutation of what it
        held. */
    method Sort()
      requires Valid()
      modifies items
      ensures Valid() && Contents() == SortUp(old(Contents()))
    {
      ghost var was := Contents();
      var i := 1;
      assert len > 0 ==> items[..1] == [was[0]] == SortUp(was[..1]);
      while i < len
        invariant 1 <= i && (len > 0 ==> i <= len)
        invariant len > 0 ==> items[..i] == SortUp(was[..i])
        invariant forall k | i <= k < len :: items[k] == was[k]
      {
        Place(i);
        assert was[..i + 1][..i] == was[..i];
        i := i + 1;
      }
      assert len > 0 ==> was[..len] == was;
    }

    function Get(i: nat): int
      reads this, items
      requires Valid() && i < len
    {
      items[i]
    }
  }
}
