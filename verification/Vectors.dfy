/** Vectors as the pallet uses them: linear search, `swap_remove`, `retain`, `sort` and `binary_search`. */
module Vectors {
  import opened Words

  function Elems<T>(s: seq<T>): set<T> {
    set x | x in s
  }

  ghost predicate NoDup<T>(s: seq<T>) {
    forall i, j :: 0 <= i < j < |s| ==> s[i] != s[j]
  }

  /** The first position of `x`, as `iter().position` finds it. */
  function Position<T(==)>(s: seq<T>, x: T): (r: Option<nat>)
    ensures r.None? <==> x !in s
    ensures r.Some? ==> r.value < |s| && s[r.value] == x && x !in s[..r.value]
  {
    if |s| == 0 then None
    else if s[0] == x then Some(0)
    else match Position(s[1..], x)
      case None => None
      case Some(p) =>
        assert s[..p + 1] == [s[0]] + s[1..][..p];
        Some(p + 1)
  }

  function SwapRemove<T>(s: seq<T>, p: nat): seq<T>
    requires p < |s|
  {
    s[p := s[|s| - 1]][..|s| - 1]
  }

  /** `retain` of everything outside `out`. */
  function Without<T(==)>(s: seq<T>, out: set<T>): (r: seq<T>)
    ensures |r| <= |s|
  {
    if |s| == 0 then []
    else
      var rest := Without(s[..|s| - 1], out);
      if s[|s| - 1] in out then rest else rest + [s[|s| - 1]]
  }

  lemma ElemsCard<T>(s: seq<T>)
    requires NoDup(s)
    ensures |Elems(s)| == |s|
  {
    if |s| > 0 {
      var front := s[..|s| - 1];
      ElemsCard(front);
      assert Elems(s) == Elems(front) + {s[|s| - 1]};
    }
  }

  lemma ElemsAtMost<T>(s: seq<T>)
    ensures |Elems(s)| <= |s|
  {
    if |s| > 0 {
      var front := s[..|s| - 1];
      ElemsAtMost(front);
      assert Elems(s) == Elems(front) + {s[|s| - 1]};
    }
  }

  lemma SubsetCard<T>(a: set<T>, b: set<T>)
    requires a <= b
    ensures |a| <= |b|
  {
    if a != {} {
      var x :| x in a;
      SubsetCard(a - {x}, b - {x});
    }
  }

  lemma SwapCard<T>(s: set<T>, leaver: T, joiner: T)
    requires leaver in s && joiner !in s
    ensures |s - {leaver} + {joiner}| == |s|
  {
  }

  /** `r` is `s` with its last element moved into position `p`. */
  ghost predicate LastMovedTo<T>(s: seq<T>, r: seq<T>, p: nat)
    requires p < |s|
  {
    |r| == |s| - 1 && forall k :: 0 <= k < |r| ==> r[k] == if k == p then s[|s| - 1] else s[k]
  }

  /** `swap_remove` moves the last element into the gap; on a vector without duplicates it drops exactly one element. */
  lemma SwapRemoveDropsOne<T>(s: seq<T>, p: nat)
    requires p < |s| && NoDup(s)
    ensures LastMovedTo(s, SwapRemove(s, p), p)
    ensures NoDup(SwapRemove(s, p))
    ensures Elems(SwapRemove(s, p)) == Elems(s) - {s[p]}
  {
    var r := SwapRemove(s, p);
    forall x | x in Elems(s) - {s[p]} ensures x in r {
      var k :| 0 <= k < |s| && s[k] == x;
      if k < |s| - 1 { assert r[k] == x; } else { assert r[p] == x; }
    }
    forall k | 0 <= k < |r| ensures r[k] in Elems(s) - {s[p]} {
      assert r[k] == if k == p then s[|s| - 1] else s[k];
    }
  }

  lemma {:induction false} WithoutElems<T>(s: seq<T>, out: set<T>)
    ensures Elems(Without(s, out)) == Elems(s) - out
    ensures NoDup(s) ==> NoDup(Without(s, out))
  {
    if |s| > 0 {
      var front, last := s[..|s| - 1], s[|s| - 1];
      WithoutElems(front, out);
      assert s == front + [last];
      assert Elems(s) == Elems(front) + {last};
      var rest := Without(front, out);
      if last !in out {
        assert Elems(rest + [last]) == Elems(rest) + {last};
        if NoDup(s) { assert last !in Elems(front); assert last !in Elems(rest); }
      }
    }
  }

  /** `where` places `r` in `s`, in increasing positions. */
  ghost predicate Embeds<T>(r: seq<T>, s: seq<T>, where: seq<nat>) {
    && |where| == |r|
    && (forall k :: 0 <= k < |r| ==> where[k] < |s| && s[where[k]] == r[k])
    && (forall j, k :: 0 <= j < k < |r| ==> where[j] < where[k])
  }

  lemma EmbedsExtend<T>(r: seq<T>, s: seq<T>, where: seq<nat>, x: T)
    requires Embeds(r, s, where)
    ensures Embeds(r, s + [x], where)
    ensures Embeds(r + [x], s + [x], where + [|s|])
  {
  }

  /** `retain` keeps the survivors in their order. */
  lemma {:induction false} WithoutOrder<T>(s: seq<T>, out: set<T>) returns (where: seq<nat>)
    ensures Embeds(Without(s, out), s, where)
  {
    where := [];
    if |s| > 0 {
      var front, last := s[..|s| - 1], s[|s| - 1];
      where := WithoutOrder(front, out);
      EmbedsExtend(Without(front, out), front, where, last);
      assert s == front + [last];
      if last !in out { where := where + [|front|]; }
    }
  }

  lemma WithoutNothing<T>(s: seq<T>, out: set<T>)
    requires Elems(s) !! out
    ensures Without(s, out) == s
  {
    if |s| > 0 {
      var front := s[..|s| - 1];
      assert Elems(front) <= Elems(s);
      assert s[|s| - 1] in Elems(s);
      WithoutNothing(front, out);
    }
  }

  lemma WithoutTwice<T>(s: seq<T>, out: set<T>)
    ensures Without(Without(s, out), out) == Without(s, out)
  {
    WithoutElems(s, out);
    WithoutNothing(Without(s, out), out);
  }

  // ----- sort and binary_search on account identifiers

  ghost predicate Sorted(s: seq<nat>) {
    forall i, j :: 0 <= i < j < |s| ==> s[i] <= s[j]
  }

  function Insert(s: seq<nat>, x: nat): seq<nat> {
    if |s| == 0 then [x]
    else if x < s[|s| - 1] then Insert(s[..|s| - 1], x) + [s[|s| - 1]]
    else s + [x]
  }

  function Sort(s: seq<nat>): seq<nat> {
    if |s| == 0 then [] else Insert(Sort(s[..|s| - 1]), s[|s| - 1])
  }

  lemma InsertKeeps(s: seq<nat>, x: nat)
    ensures multiset(Insert(s, x)) == multiset(s) + multiset{x}
  {
    if |s| > 0 && x < s[|s| - 1] {
      InsertKeeps(s[..|s| - 1], x);
      assert s == s[..|s| - 1] + [s[|s| - 1]];
    }
  }

  lemma SortedAppend(s: seq<nat>, x: nat)
    requires Sorted(s) && forall y :: y in s ==> y <= x
    ensures Sorted(s + [x])
  {
    assert forall k :: 0 <= k < |s| ==> s[k] in s;
  }

  lemma {:induction false} InsertIntoSorted(s: seq<nat>, x: nat)
    requires Sorted(s)
    ensures Sorted(Insert(s, x))
  {
    if |s| == 0 {
    } else if x < s[|s| - 1] {
      var front, last := s[..|s| - 1], s[|s| - 1];
      InsertIntoSorted(front, x);
      InsertKeeps(front, x);
      forall y | y in Insert(front, x) ensures y <= last {
        assert y in multiset(front) + multiset{x};
      }
      SortedAppend(Insert(front, x), last);
    } else {
      SortedAppend(s, x);
    }
  }

  lemma SameElems(a: seq<nat>, b: seq<nat>)
    requires multiset(a) == multiset(b)
    ensures Elems(a) == Elems(b)
  {
    forall x ensures x in a <==> x in b {
      assert x in a <==> x in multiset(a);
      assert x in b <==> x in multiset(b);
    }
  }

  lemma {:induction false} SortSorts(s: seq<nat>)
    ensures Sorted(Sort(s))
    ensures multiset(Sort(s)) == multiset(s)
    ensures Elems(Sort(s)) == Elems(s)
  {
    if |s| > 0 {
      var front, last := s[..|s| - 1], s[|s| - 1];
      SortSorts(front);
      InsertIntoSorted(Sort(front), last);
      InsertKeeps(Sort(front), last);
      assert s == front + [last];
    }
    SameElems(Sort(s), s);
  }

  /** `position`, as the loop the iterator runs. */
  method FindPosition(s: seq<nat>, x: nat) returns (r: Option<nat>)
    ensures r == Position(s, x)
  {
    var k := 0;
    while k < |s|
      invariant 0 <= k <= |s|
      invariant x !in s[..k]
    {
      if s[k] == x {
        var p := Position(s, x);
        assert p.value == k;
        return Some(k);
      }
      k := k + 1;
    }
    return None;
  }

  method BinarySearch(s: seq<nat>, x: nat) returns (found: bool)
    requires Sorted(s)
    ensures found <==> x in s
  {
    var lo, hi := 0, |s|;
    while lo < hi
      invariant 0 <= lo <= hi <= |s|
      invariant forall k :: 0 <= k < lo ==> s[k] < x
      invariant forall k :: hi <= k < |s| ==> x < s[k]
    {
      var mid := (lo + hi) / 2;
      if s[mid] == x { return true; }
      if s[mid] < x { lo := mid + 1; } else { hi := mid; }
    }
    return false;
  }

  /** The fast purge: keep what a binary search in the sorted list does not find. */
  method RetainNotFound(s: seq<nat>, sorted: seq<nat>) returns (kept: seq<nat>)
    requires Sorted(sorted)
    ensures kept == Without(s, Elems(sorted))
  {
    kept := [];
    for k := 0 to |s|
      invariant kept == Without(s[..k], Elems(sorted))
    {
      var found := BinarySearch(sorted, s[k]);
      if !found { kept := kept + [s[k]]; }
      assert s[..k + 1][..k] == s[..k];
    }
    assert s[..|s|] == s;
  }

  /** `retain(|i| i != who)`. */
  method RetainOthers<T(==)>(s: seq<T>, who: T) returns (kept: seq<T>)
    ensures kept == Without(s, {who})
  {
    kept := [];
    for k := 0 to |s|
      invariant kept == Without(s[..k], {who})
    {
      if s[k] != who { kept := kept + [s[k]]; }
      assert s[..k + 1][..k] == s[..k];
    }
    assert s[..|s|] == s;
  }
}
