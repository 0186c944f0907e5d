/**
 * The filter engine (`allDoctors.filter(...)` in `applyFilters`) and the
 * autocomplete suggestion matcher (`filter(...).slice(0, 3)` in the search
 * box's `input` listener).
 */
module Filtering {
  import opened Text
  import opened Doctors

  /** `r` is `s` with some elements left out, the rest in their original order. */
  ghost predicate IsSubsequence(r: seq<Doctor>, s: seq<Doctor>)
    decreases |s|
  {
    if r == [] then true
    else if s == [] then false
    else (r[0] == s[0] && IsSubsequence(r[1..], s[1..])) || IsSubsequence(r, s[1..])
  }

  lemma {:induction false} SubsequenceOfPrefix(r: seq<Doctor>, s: seq<Doctor>, k: nat)
    requires k <= |s| && IsSubsequence(r, s[..k])
    ensures IsSubsequence(r, s)
    decreases k
  {
    if r != [] {
      assert s[..k] != [];
      assert s[..k][1..] == s[1..][..k - 1];
      if r[0] == s[0] && IsSubsequence(r[1..], s[..k][1..]) {
        SubsequenceOfPrefix(r[1..], s[1..], k - 1);
      } else {
        SubsequenceOfPrefix(r, s[1..], k - 1);
      }
    }
  }

  /** `Array.prototype.filter`: the elements of `s` satisfying `p`, in their original order. */
  function Filter(s: seq<Doctor>, p: Doctor -> bool): (r: seq<Doctor>)
    ensures forall d :: d in r <==> d in s && p(d)
  {
    if s == [] then []
    else if p(s[0]) then [s[0]] + Filter(s[1..], p)
    else Filter(s[1..], p)
  }

  /** A filter never lengthens its input. */
  lemma {:induction false} FilterShrinks(s: seq<Doctor>, p: Doctor -> bool)
    ensures |Filter(s, p)| <= |s|
  {
    if s != [] {
      FilterShrinks(s[1..], p);
    }
  }

  /** Each kept element is kept as often as it occurs, and the others not at all. */
  lemma {:induction false} FilterCounts(s: seq<Doctor>, p: Doctor -> bool)
    ensures forall d :: multiset(Filter(s, p))[d] == if p(d) then multiset(s)[d] else 0
  {
    if s != [] {
      assert s == [s[0]] + s[1..];
      FilterCounts(s[1..], p);
    }
  }

  /** The kept elements keep their relative order. */
  lemma {:induction false} FilterIsSubsequence(s: seq<Doctor>, p: Doctor -> bool)
    ensures IsSubsequence(Filter(s, p), s)
  {
    if s != [] {
      FilterIsSubsequence(s[1..], p);
      var rest := Filter(s[1..], p);
      if p(s[0]) {
        assert ([s[0]] + rest)[1..] == rest;
      }
    }
  }

  /** A filter that keeps everything is the identity. */
  lemma {:induction false} FilterKeepsAll(s: seq<Doctor>, p: Doctor -> bool)
    requires forall d :: d in s ==> p(d)
    ensures Filter(s, p) == s
  {
    if s != [] {
      FilterKeepsAll(s[1..], p);
    }
  }

  /** Two records of which at most one passes may be filtered in either order. */
  lemma FilterSwap(pre: seq<Doctor>, x: Doctor, y: Doctor, p: Doctor -> bool)
    requires !(p(x) && p(y))
    ensures pre + Filter([x], p) + Filter([y], p) == pre + Filter([y], p) + Filter([x], p)
  {
    assert [x][1..] == [] && [y][1..] == [];
  }

  /** Filtering distributes over concatenation. */
  lemma {:induction false} FilterConcat(a: seq<Doctor>, b: seq<Doctor>, p: Doctor -> bool)
    ensures Filter(a + b, p) == Filter(a, p) + Filter(b, p)
  {
    if a != [] {
      assert (a + b)[0] == a[0] && (a + b)[1..] == a[1..] + b;
      FilterConcat(a[1..], b, p);
    } else {
      assert a + b == b;
    }
  }

  /** How much of `s` must be read to see the first `n` survivors of `p`. */
  function Cut(s: seq<Doctor>, p: Doctor -> bool, n: nat): (k: nat)
    ensures k <= |s|
  {
    if n == 0 || s == [] then 0 else 1 + Cut(s[1..], p, if p(s[0]) then n - 1 else n)
  }

  /** The first `n` survivors of a filter are exactly the survivors of a prefix of the input. */
  lemma {:induction false} FilterTake(s: seq<Doctor>, p: Doctor -> bool, n: nat)
    requires n <= |Filter(s, p)|
    ensures Filter(s[..Cut(s, p, n)], p) == Filter(s, p)[..n]
  {
    if n == 0 {
      assert Filter(s[..0], p) == [];
    } else {
      var m := if p(s[0]) then n - 1 else n;
      FilterTake(s[1..], p, m);
      var k := Cut(s[1..], p, m);
      assert s[..k + 1] == [s[0]] + s[1..][..k];
      assert ([s[0]] + s[1..][..k])[1..] == s[1..][..k];
    }
  }

  // ---- The three predicates of applyFilters -----------------------------------------

  /** `doc.name.toLowerCase().includes(query)`: an empty query matches every name, and no
      query longer than the name matches it. */
  predicate NameMatch(d: Doctor, query: string): (r: bool)
    ensures query == "" ==> r
    ensures r ==> |query| <= |d.name|
  {
    Contains(Lower(d.name), query)
  }

  /** `mode ? doc.moc === mode : true`: no mode matches every record, a record always matches
      its own mode, and a chosen mode is compared exactly, case and all. */
  predicate ModeMatch(d: Doctor, mode: string): (r: bool)
    ensures mode == "" ==> r
    ensures d.moc == mode ==> r
    ensures r && mode != "" ==> d.moc == mode
  {
    mode == "" || d.moc == mode
  }

  /** `specialties.map(s => s.toLowerCase())`. */
  function LowerAll(ss: seq<string>): (r: seq<string>)
    ensures |r| == |ss|
    ensures forall i :: 0 <= i < |ss| ==> r[i] == Lower(ss[i])
  {
    seq(|ss|, i requires 0 <= i < |ss| => Lower(ss[i]))
  }

  /** An empty selection matches everything; otherwise the record's specialty, lower-cased,
      must be one of the selected ones, lower-cased. Selecting the record's own specialty
      always keeps it. */
  predicate SpecialtyMatch(d: Doctor, specialties: seq<string>): (r: bool)
    ensures specialties == [] ==> r
    ensures EffectiveSpecialty(d) in specialties ==> r
  {
    |specialties| == 0 || Lower(EffectiveSpecialty(d)) in LowerAll(specialties)
  }

  /** A specialty is selected exactly when one of the selected names equals it up to case. */
  lemma SpecialtyMatchIff(specialties: seq<string>)
    ensures forall d :: SpecialtyMatch(d, specialties) <==>
      (specialties == [] ||
       exists i :: 0 <= i < |specialties| && Lower(specialties[i]) == Lower(EffectiveSpecialty(d)))
  {
    forall d | specialties != [] && Lower(EffectiveSpecialty(d)) in LowerAll(specialties)
      ensures exists i :: 0 <= i < |specialties| && Lower(specialties[i]) == Lower(EffectiveSpecialty(d))
    {
      var i :| 0 <= i < |specialties| && LowerAll(specialties)[i] == Lower(EffectiveSpecialty(d));
    }
  }

  /** `nameMatch && modeMatch && specMatch`: with no criteria every record matches, and a
      matching record's name is at least as long as the query and its mode is the chosen
      one. */
  predicate Matches(d: Doctor, query: string, mode: string, specialties: seq<string>): (r: bool)
    ensures query == "" && mode == "" && specialties == [] ==> r
    ensures r ==> |query| <= |d.name|
    ensures r && mode != "" ==> d.moc == mode
  {
    NameMatch(d, query) && ModeMatch(d, mode) && SpecialtyMatch(d, specialties)
  }

  function Matcher(query: string, mode: string, specialties: seq<string>): Doctor -> bool {
    d => Matches(d, query, mode, specialties)
  }

  /** `allDoctors.filter(...)` with the three predicates of `applyFilters`. */
  function FilterDoctors(all: seq<Doctor>, query: string, mode: string, specialties: seq<string>)
    : (r: seq<Doctor>)
    ensures |r| <= |all|
  {
    FilterShrinks(all, Matcher(query, mode, specialties));
    Filter(all, Matcher(query, mode, specialties))
  }

  /** The records `applyFilters` keeps, before sorting: a record is kept exactly when all
      three predicates hold, as often as it occurs, and the original order is kept. */
  lemma FilterDoctorsCorrect(all: seq<Doctor>, query: string, mode: string, specialties: seq<string>)
    ensures IsSubsequence(FilterDoctors(all, query, mode, specialties), all)
    ensures forall d :: d in FilterDoctors(all, query, mode, specialties) <==>
      && d in all
      && Contains(Lower(d.name), query)
      && (mode == "" || d.moc == mode)
      && (specialties == [] ||
          exists i :: 0 <= i < |specialties| && Lower(specialties[i]) == Lower(EffectiveSpecialty(d)))
    ensures forall d ::
      multiset(FilterDoctors(all, query, mode, specialties))[d]
        == if Matches(d, query, mode, specialties) then multiset(all)[d] else 0
  {
    FilterIsSubsequence(all, Matcher(query, mode, specialties));
    FilterCounts(all, Matcher(query, mode, specialties));
    SpecialtyMatchIff(specialties);
  }

  /** With no query, no mode and no specialty the filter returns the full list, in order. */
  lemma FilterNeutral(all: seq<Doctor>)
    ensures FilterDoctors(all, "", "", []) == all
  {
    forall d | d in all
      ensures Matches(d, "", "", [])
    {
      ContainsEmpty(Lower(d.name));
    }
    FilterKeepsAll(all, Matcher("", "", []));
  }

  // ---- Suggestions ----------------------------------------------------------------

  const MAX_SUGGESTIONS := 3

  function NameMatcher(query: string): Doctor -> bool {
    d => NameMatch(d, query)
  }

  /** `allDoctors.filter(doc => doc.name.toLowerCase().includes(query)).slice(0, 3)`. */
  function FirstMatches(all: seq<Doctor>, query: string): (r: seq<Doctor>)
    ensures |r| <= MAX_SUGGESTIONS
    ensures forall i :: 0 <= i < |r| ==> r[i] in all && Contains(Lower(r[i].name), query)
  {
    var matches := Filter(all, NameMatcher(query));
    var n := if |matches| < MAX_SUGGESTIONS then |matches| else MAX_SUGGESTIONS;
    assert forall i :: 0 <= i < n ==> matches[i] in matches;
    matches[..n]
  }

  /** The first matches are all the matches of some prefix of the list, in list order, and
      all the matches of the whole list when there are fewer than three. */
  lemma FirstMatchesArePrefix(all: seq<Doctor>, query: string)
    ensures IsSubsequence(FirstMatches(all, query), all)
    ensures exists k :: 0 <= k <= |all| && FirstMatches(all, query) == Filter(all[..k], NameMatcher(query))
    ensures |FirstMatches(all, query)| < MAX_SUGGESTIONS ==>
      FirstMatches(all, query) == Filter(all, NameMatcher(query))
  {
    var p := NameMatcher(query);
    var r := FirstMatches(all, query);
    assert r == Filter(all, p)[..|r|];
    FilterTake(all, p, |r|);
    var k := Cut(all, p, |r|);
    FilterIsSubsequence(all[..k], p);
    SubsequenceOfPrefix(r, all, k);
  }

  /** The records whose names are offered under the search box for the text `input`. */
  function Suggestions(all: seq<Doctor>, input: string): (r: seq<Doctor>)
    ensures |r| <= MAX_SUGGESTIONS
    ensures Trim(Lower(input)) == "" ==> r == []
    ensures forall i :: 0 <= i < |r| ==> r[i] in all && Contains(Lower(r[i].name), Trim(Lower(input)))
  {
    var query := Trim(Lower(input));
    if query == "" then [] else FirstMatches(all, query)
  }

  /** For a query that is not blank, the suggestions are the first matches in list order. */
  lemma SuggestionsAreFirstMatches(all: seq<Doctor>, input: string)
    requires Trim(Lower(input)) != ""
    ensures IsSubsequence(Suggestions(all, input), all)
    ensures exists k ::
      0 <= k <= |all| && Suggestions(all, input) == Filter(all[..k], NameMatcher(Trim(Lower(input))))
    ensures |Suggestions(all, input)| < MAX_SUGGESTIONS ==>
      Suggestions(all, input) == Filter(all, NameMatcher(Trim(Lower(input))))
  {
    FirstMatchesArePrefix(all, Trim(Lower(input)));
  }
}
