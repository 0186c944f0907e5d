/**
 * The sort engine of `applyFilters`: `filtered.sort(...)` with a fee comparator or an
 * experience comparator, done in place and stable, or no sort at all.
 */
module Sorting {
  import opened Wrappers
  import opened Doctors
  import opened Filtering

  /** The two orders offered by the sort radio buttons. */
  datatype Order = ByFees | ByExperience

  /** The sort radio value as `applyFilters` tests it: `'fees'`, `'experience'`, or anything
      else (including no checked button), which leaves the filter order alone. */
  function OrderOf(sort: string): (r: Option<Order>)
    ensures r == Some(ByFees) <==> sort == "fees"
    ensures r == Some(ByExperience) <==> sort == "experience"
  {
    if sort == "fees" then Some(ByFees)
    else if sort == "experience" then Some(ByExperience)
    else None
  }

  /** `(a, b) => a.fees - b.fees` sorts by fees, smallest first, and
      `(a, b) => b.experience - a.experience` by experience, largest first:
      both are ascending orders of this key. */
  function Key(o: Order, d: Doctor): int {
    match o
    case ByFees => d.fees
    case ByExperience => -d.experience
  }

  /** The comparator handed to `sort`: negative when `a` goes first, positive when `b`
      does, zero for a tie. The fee comparator puts the cheaper record first and the
      experience comparator the more experienced one. */
  function Compare(o: Order, a: Doctor, b: Doctor): (c: int)
    ensures o == ByFees ==> (c < 0 <==> a.fees < b.fees) && (c == 0 <==> a.fees == b.fees)
    ensures o == ByExperience ==>
      (c < 0 <==> a.experience > b.experience) && (c == 0 <==> a.experience == b.experience)
  {
    match o
    case ByFees => a.fees - b.fees
    case ByExperience => b.experience - a.experience
  }

  /** Ascending order of the key is the comparator's order: the comparator keeps `a` before
      `b` exactly when `a`'s key does not exceed `b`'s, puts `b` first exactly when `a`'s key
      is larger, and calls them equal exactly when their keys are equal. */
  lemma KeyMatchesComparator(o: Order, a: Doctor, b: Doctor)
    ensures Key(o, a) <= Key(o, b) <==> Compare(o, a, b) <= 0
    ensures Key(o, a) > Key(o, b) <==> Compare(o, a, b) > 0
    ensures Key(o, a) == Key(o, b) <==> Compare(o, a, b) == 0
  {
  }

  predicate SortedBy(s: seq<Doctor>, o: Order) {
    forall i, j :: 0 <= i < j < |s| ==> Key(o, s[i]) <= Key(o, s[j])
  }

  /** The records whose comparator key is `k`: the records the comparator calls equal. */
  function KeyIs(o: Order, k: int): Doctor -> bool {
    d => Key(o, d) == k
  }

  /** Places `x` after every element of `s` whose key does not exceed its own, scanning from
      the right, as an insertion step of a stable sort does. */
  function Insert(x: Doctor, s: seq<Doctor>, o: Order): (r: seq<Doctor>)
    ensures |r| == |s| + 1
    decreases |s|
  {
    if s == [] || Key(o, s[|s| - 1]) <= Key(o, x) then s + [x]
    else Insert(x, s[..|s| - 1], o) + [s[|s| - 1]]
  }

  /** The stable sort of `s` by the key of `o`, by insertion from the left. */
  function SortBy(s: seq<Doctor>, o: Order): (r: seq<Doctor>)
    ensures |r| == |s|
    decreases |s|
  {
    if s == [] then []
    else Insert(s[|s| - 1], SortBy(s[..|s| - 1], o), o)
  }

  lemma {:induction false} InsertPermutes(x: Doctor, s: seq<Doctor>, o: Order)
    ensures multiset(Insert(x, s, o)) == multiset(s) + multiset{x}
    decreases |s|
  {
    if !(s == [] || Key(o, s[|s| - 1]) <= Key(o, x)) {
      InsertPermutes(x, s[..|s| - 1], o);
      assert s == s[..|s| - 1] + [s[|s| - 1]];
    }
  }

  /** The sort neither loses nor duplicates a record. */
  lemma {:induction false} SortByPermutes(s: seq<Doctor>, o: Order)
    ensures multiset(SortBy(s, o)) == multiset(s)
    decreases |s|
  {
    if s != [] {
      SortByPermutes(s[..|s| - 1], o);
      InsertPermutes(s[|s| - 1], SortBy(s[..|s| - 1], o), o);
      assert s == s[..|s| - 1] + [s[|s| - 1]];
    }
  }

  lemma {:induction false} InsertSorted(x: Doctor, s: seq<Doctor>, o: Order)
    requires SortedBy(s, o)
    ensures SortedBy(Insert(x, s, o), o)
    decreases |s|
  {
    if s == [] || Key(o, s[|s| - 1]) <= Key(o, x) {
    } else {
      var init, last := s[..|s| - 1], s[|s| - 1];
      InsertSorted(x, init, o);
      InsertPermutes(x, init, o);
      var t := Insert(x, init, o);
      forall i | 0 <= i < |t|
        ensures Key(o, t[i]) <= Key(o, last)
      {
        assert t[i] in multiset(init) + multiset{x};
        if t[i] != x {
          assert t[i] in init;
        }
      }
    }
  }

  /** The sort puts the keys in ascending order. */
  lemma {:induction false} SortBySorted(s: seq<Doctor>, o: Order)
    ensures SortedBy(SortBy(s, o), o)
    decreases |s|
  {
    if s != [] {
      SortBySorted(s[..|s| - 1], o);
      InsertSorted(s[|s| - 1], SortBy(s[..|s| - 1], o), o);
    }
  }

  /** Inserting `x` puts it after every element with its key, so among the records with any
      one key, the relative order is the old one followed by `x`. */
  lemma {:induction false} InsertKeepsTies(x: Doctor, s: seq<Doctor>, o: Order, k: int)
    ensures Filter(Insert(x, s, o), KeyIs(o, k)) == Filter(s, KeyIs(o, k)) + Filter([x], KeyIs(o, k))
    decreases |s|
  {
    var p := KeyIs(o, k);
    if s == [] || Key(o, s[|s| - 1]) <= Key(o, x) {
      FilterConcat(s, [x], p);
    } else {
      var init, last := s[..|s| - 1], s[|s| - 1];
      InsertKeepsTies(x, init, o, k);
      FilterConcat(Insert(x, init, o), [last], p);
      assert s == init + [last];
      FilterConcat(init, [last], p);
      // `last` sorts strictly after `x`, so at most one of them has the key `k`
      assert !(p(x) && p(last));
      FilterSwap(Filter(init, p), x, last, p);
    }
  }

  /** Stability: the records the comparator calls equal keep their relative order. */
  lemma {:induction false} SortByStable(s: seq<Doctor>, o: Order, k: int)
    ensures Filter(SortBy(s, o), KeyIs(o, k)) == Filter(s, KeyIs(o, k))
    decreases |s|
  {
    if s != [] {
      var init, last := s[..|s| - 1], s[|s| - 1];
      SortByStable(init, o, k);
      InsertKeepsTies(last, SortBy(init, o), o, k);
      assert s == init + [last];
      FilterConcat(init, [last], KeyIs(o, k));
    }
  }

  /** A list already in order is left as it is. */
  lemma {:induction false} SortBySortedIsIdentity(s: seq<Doctor>, o: Order)
    requires SortedBy(s, o)
    ensures SortBy(s, o) == s
    decreases |s|
  {
    if s != [] {
      var init, last := s[..|s| - 1], s[|s| - 1];
      assert SortedBy(init, o) by {
        forall i, j | 0 <= i < j < |init| ensures Key(o, init[i]) <= Key(o, init[j]) {
          assert init[i] == s[i] && init[j] == s[j];
        }
      }
      SortBySortedIsIdentity(init, o);
      assert SortBy(s, o) == Insert(last, init, o);
      assert init == [] || Key(o, init[|init| - 1]) <= Key(o, last);
      assert s == init + [last];
    }
  }

  /** Sorting twice with the same key gives the same list as sorting once. */
  lemma SortByIdempotent(s: seq<Doctor>, o: Order)
    ensures SortBy(SortBy(s, o), o) == SortBy(s, o)
  {
    SortBySorted(s, o);
    SortBySortedIsIdentity(SortBy(s, o), o);
  }

  /** `x` lands just after the last element whose key does not exceed its own, when every
      element after that point has a larger key. */
  lemma {:induction false} InsertPosition(x: Doctor, t: seq<Doctor>, o: Order, j: nat)
    requires j <= |t|
    requires j == 0 || Key(o, t[j - 1]) <= Key(o, x)
    requires forall k :: j <= k < |t| ==> Key(o, t[k]) > Key(o, x)
    ensures Insert(x, t, o) == t[..j] + [x] + t[j..]
    decreases |t|
  {
    if j < |t| {
      var init := t[..|t| - 1];
      assert t == init + [t[|t| - 1]];
      assert Insert(x, t, o) == Insert(x, init, o) + [t[|t| - 1]];
      InsertPosition(x, init, o, j);
      assert init[..j] == t[..j];
      assert t[j..] == init[j..] + [t[|t| - 1]];
    }
  }

  lemma SortByLast(s: seq<Doctor>, o: Order, i: nat)
    requires i < |s|
    ensures SortBy(s[..i + 1], o) == Insert(s[i], SortBy(s[..i], o), o)
  {
    assert s[..i + 1][..i] == s[..i];
  }

  /** The inner loop of the insertion: shifts right, one place, the elements of `a[..i]`
      from the right end down to the first whose key does not exceed `x`'s, and returns the
      index of the hole left for `x`. */
  method ShiftRight(a: array<Doctor>, i: nat, x: Doctor, o: Order) returns (j: nat)
    requires i < a.Length
    modifies a
    ensures j <= i
    ensures forall k :: 0 <= k < j ==> a[k] == old(a[k])
    ensures forall k :: j < k <= i ==> a[k] == old(a[k - 1])
    ensures forall k :: i < k < a.Length ==> a[k] == old(a[k])
    ensures j == 0 || Key(o, old(a[j - 1])) <= Key(o, x)
    ensures forall k :: j <= k < i ==> Key(o, old(a[k])) > Key(o, x)
  {
    ghost var before := a[..];
    j := i;
    while j > 0 && Key(o, a[j - 1]) > Key(o, x)
      invariant j <= i
      invariant forall k :: 0 <= k < j ==> a[k] == before[k]
      invariant forall k :: j < k <= i ==> a[k] == before[k - 1]
      invariant forall k :: i < k < a.Length ==> a[k] == before[k]
      invariant forall k :: j <= k < i ==> Key(o, before[k]) > Key(o, x)
    {
      a[j] := a[j - 1];
      j := j - 1;
    }
  }

  /** Inserts `a[i]` into the sorted prefix `a[..i]`. */
  method InsertAt(a: array<Doctor>, i: nat, o: Order)
    requires i < a.Length
    modifies a
    ensures a[..i + 1] == Insert(old(a[i]), old(a[..i]), o)
    ensures forall k :: i < k < a.Length ==> a[k] == old(a[k])
  {
    ghost var sorted := a[..i];
    var x := a[i];
    var j := ShiftRight(a, i, x, o);
    a[j] := x;
    InsertPosition(x, sorted, o, j);
    ghost var placed := sorted[..j] + [x] + sorted[j..];
    forall k | 0 <= k <= i
      ensures a[k] == placed[k]
    {
      if k < j {
        assert placed[k] == sorted[k];
      } else if k > j {
        assert placed[k] == sorted[k - 1];
      }
    }
    assert a[..i + 1] == placed;
  }

  /** `filtered.sort(comparator)`: a stable insertion sort of the array in place. */
  method SortInPlace(a: array<Doctor>, o: Order)
    modifies a
    ensures a[..] == SortBy(old(a[..]), o)
  {
    ghost var input := a[..];
    var i := 0;
    while i < a.Length
      invariant 0 <= i <= a.Length
      invariant a[..i] == SortBy(input[..i], o)
      invariant forall k :: i <= k < a.Length ==> a[k] == input[k]
    {
      InsertAt(a, i, o);
      SortByLast(input, o, i);
      i := i + 1;
    }
    assert input[..a.Length] == input;
    assert a[..a.Length] == a[..];
  }

  /** What `applyFilters` does to the filtered list: sorts it by fee or by experience, or
      leaves it in filter order for any other sort value. */
  function Arrange(s: seq<Doctor>, sort: string): (r: seq<Doctor>)
    ensures multiset(r) == multiset(s)
    ensures sort == "fees" ==> forall i, j :: 0 <= i < j < |r| ==> r[i].fees <= r[j].fees
    ensures sort == "experience" ==> forall i, j :: 0 <= i < j < |r| ==> r[i].experience >= r[j].experience
    ensures sort != "fees" && sort != "experience" ==> r == s
  {
    match OrderOf(sort)
    case None => s
    case Some(o) =>
      SortBySorted(s, o);
      SortByPermutes(s, o);
      SortBy(s, o)
  }

  /** Records that tie under the active comparator keep their filter order. */
  lemma ArrangeStable(s: seq<Doctor>, sort: string, o: Order, k: int)
    requires OrderOf(sort) == Some(o)
    ensures Filter(Arrange(s, sort), KeyIs(o, k)) == Filter(s, KeyIs(o, k))
  {
    SortByStable(s, o, k);
  }
}
