/**
 * The filter state mirrored into the page address: `updateURLParams` writes the search
 * text, consultation mode, checked specialties and sort key as query parameters, and
 * `applyFiltersFromURL` reads them back. An unset mode or sort (`undefined` or the empty
 * string, both falsy in the page script) is written here as "".
 */
module UrlState {
  import opened Wrappers
  import opened UrlParams

  const SEARCH := "search"
  const MODE := "mode"
  const SPECIALTY := "specialty"
  const SORT := "sort"

  /** The names the page manages; every other parameter belongs to someone else. */
  const MANAGED: set<string> := {SEARCH, MODE, SPECIALTY, SORT}

  lemma KeysDistinct()
    ensures SEARCH != MODE && SEARCH != SPECIALTY && SEARCH != SORT
    ensures MODE != SPECIALTY && MODE != SORT && SPECIALTY != SORT
  {
    assert SEARCH[1] != SORT[1] && SEARCH[1] != SPECIALTY[1] && SPECIALTY[1] != SORT[1];
    assert MODE[0] != SORT[0];
  }

  /** `values.forEach(v => params.append(key, v))`. */
  function AppendAll(ps: seq<Param>, key: string, values: seq<string>): (r: seq<Param>)
    ensures |r| == |ps| + |values|
  {
    if values == [] then ps
    else Append(AppendAll(ps, key, values[..|values| - 1]), key, values[|values| - 1])
  }

  /** Appending a list adds exactly those values, in order, after the existing ones. */
  lemma {:induction false} AppendAllAdds(ps: seq<Param>, key: string, values: seq<string>)
    ensures GetAll(AppendAll(ps, key, values), key) == GetAll(ps, key) + values
  {
    if values != [] {
      var init := values[..|values| - 1];
      AppendAllAdds(ps, key, init);
      AppendAdds(AppendAll(ps, key, init), key, values[|values| - 1]);
      assert init + [values[|values| - 1]] == values;
    }
  }

  lemma {:induction false} AppendAllKeepsOthers(ps: seq<Param>, key: string, values: seq<string>, other: string)
    requires other != key
    ensures GetAll(AppendAll(ps, key, values), other) == GetAll(ps, other)
  {
    if values != [] {
      AppendAllKeepsOthers(ps, key, values[..|values| - 1], other);
      AppendKeepsOthers(AppendAll(ps, key, values[..|values| - 1]), key, values[|values| - 1], other);
    }
  }

  /** The parameters that do not belong to the page, in their order. */
  function Foreign(ps: seq<Param>): (r: seq<Param>)
    ensures forall i :: 0 <= i < |r| ==> r[i].key !in MANAGED
    ensures |r| <= |ps|
  {
    if ps == [] then []
    else if ps[0].key in MANAGED then Foreign(ps[1..])
    else [ps[0]] + Foreign(ps[1..])
  }

  lemma {:induction false} ForeignConcat(a: seq<Param>, b: seq<Param>)
    ensures Foreign(a + b) == Foreign(a) + Foreign(b)
  {
    if a == [] {
      assert a + b == b;
    } else {
      assert (a + b)[0] == a[0] && (a + b)[1..] == a[1..] + b;
      ForeignConcat(a[1..], b);
    }
  }

  lemma {:induction false} DeleteKeepsForeign(ps: seq<Param>, key: string)
    requires key in MANAGED
    ensures Foreign(Delete(ps, key)) == Foreign(ps)
  {
    if ps != [] {
      DeleteKeepsForeign(ps[1..], key);
      if ps[0].key != key {
        assert ([ps[0]] + Delete(ps[1..], key))[1..] == Delete(ps[1..], key);
      }
    }
  }

  lemma {:induction false} SetKeepsForeign(ps: seq<Param>, key: string, value: string)
    requires key in MANAGED
    ensures Foreign(Set(ps, key, value)) == Foreign(ps)
  {
    if ps == [] {
      assert Foreign([Param(key, value)]) == [];
    } else if ps[0].key == key {
      assert ([Param(key, value)] + Delete(ps[1..], key))[1..] == Delete(ps[1..], key);
      DeleteKeepsForeign(ps[1..], key);
    } else {
      assert ([ps[0]] + Set(ps[1..], key, value))[1..] == Set(ps[1..], key, value);
      SetKeepsForeign(ps[1..], key, value);
    }
  }

  lemma {:induction false} AppendAllKeepsForeign(ps: seq<Param>, key: string, values: seq<string>)
    requires key in MANAGED
    ensures Foreign(AppendAll(ps, key, values)) == Foreign(ps)
  {
    if values != [] {
      var before := AppendAll(ps, key, values[..|values| - 1]);
      AppendAllKeepsForeign(ps, key, values[..|values| - 1]);
      ForeignConcat(before, [Param(key, values[|values| - 1])]);
      assert Foreign([Param(key, values[|values| - 1])]) == [];
    }
  }

  /** `mode ? set(key, mode) : delete(key)`. */
  function SetOrDelete(ps: seq<Param>, key: string, value: string): (r: seq<Param>)
    ensures value == "" ==> NoKey(r, key)
    ensures |r| <= |ps| + 1
  {
    if value != "" then Set(ps, key, value) else Delete(ps, key)
  }

  /** What `updateURLParams` (without `pushState`) makes of the current parameters. */
  function WriteState(ps: seq<Param>, search: string, mode: string, specialties: seq<string>, sort: string)
    : (r: seq<Param>)
    ensures sort == "" ==> NoKey(r, SORT)
    ensures |r| <= |ps| + 3 + |specialties|
  {
    var withSearch := Set(ps, SEARCH, search);
    var withMode := SetOrDelete(withSearch, MODE, mode);
    var cleared := Delete(withMode, SPECIALTY);
    var withSpecialties := AppendAll(cleared, SPECIALTY, specialties);
    SetOrDelete(withSpecialties, SORT, sort)
  }

  /** The values one name has, once set or deleted by `SetOrDelete`. */
  function Written(value: string): seq<string> {
    if value == "" then [] else [value]
  }

  /** The optional value `get` gives back, once set or deleted by `SetOrDelete`. */
  function Present(value: string): (r: Option<string>)
    ensures r.None? <==> value == ""
  {
    if value == "" then None else Some(value)
  }

  lemma SetOrDeleteWrites(ps: seq<Param>, key: string, value: string)
    ensures GetAll(SetOrDelete(ps, key, value), key) == Written(value)
  {
    if value != "" {
      SetReplaces(ps, key, value);
    } else {
      DeleteRemovesAll(ps, key);
    }
  }

  lemma SetOrDeleteKeepsOthers(ps: seq<Param>, key: string, value: string, other: string)
    requires other != key
    ensures GetAll(SetOrDelete(ps, key, value), other) == GetAll(ps, other)
  {
    if value != "" {
      SetKeepsOthers(ps, key, value, other);
    } else {
      DeleteKeepsOthers(ps, key, other);
    }
  }

  lemma SetOrDeleteKeepsForeign(ps: seq<Param>, key: string, value: string)
    requires key in MANAGED
    ensures Foreign(SetOrDelete(ps, key, value)) == Foreign(ps)
  {
    if value != "" {
      SetKeepsForeign(ps, key, value);
    } else {
      DeleteKeepsForeign(ps, key);
    }
  }

  /**
   * After `updateURLParams`: `search` has exactly the given value, `mode` and `sort` have
   * their value when set and none when unset, and `specialty` has the given list in order.
   */
  lemma WriteStateValues(ps: seq<Param>, search: string, mode: string, specialties: seq<string>, sort: string)
    ensures GetAll(WriteState(ps, search, mode, specialties, sort), SEARCH) == [search]
    ensures GetAll(WriteState(ps, search, mode, specialties, sort), MODE) == Written(mode)
    ensures GetAll(WriteState(ps, search, mode, specialties, sort), SPECIALTY) == specialties
    ensures GetAll(WriteState(ps, search, mode, specialties, sort), SORT) == Written(sort)
  {
    KeysDistinct();
    var p1 := Set(ps, SEARCH, search);
    var p2 := SetOrDelete(p1, MODE, mode);
    var p3 := Delete(p2, SPECIALTY);
    var p4 := AppendAll(p3, SPECIALTY, specialties);
    SetReplaces(ps, SEARCH, search);
    SetOrDeleteKeepsOthers(p1, MODE, mode, SEARCH);
    DeleteKeepsOthers(p2, SPECIALTY, SEARCH);
    AppendAllKeepsOthers(p3, SPECIALTY, specialties, SEARCH);
    SetOrDeleteKeepsOthers(p4, SORT, sort, SEARCH);

    SetOrDeleteWrites(p1, MODE, mode);
    DeleteKeepsOthers(p2, SPECIALTY, MODE);
    AppendAllKeepsOthers(p3, SPECIALTY, specialties, MODE);
    SetOrDeleteKeepsOthers(p4, SORT, sort, MODE);

    DeleteRemovesAll(p2, SPECIALTY);
    AppendAllAdds(p3, SPECIALTY, specialties);
    SetOrDeleteKeepsOthers(p4, SORT, sort, SPECIALTY);

    SetOrDeleteWrites(p4, SORT, sort);
  }

  /** `updateURLParams` leaves every parameter it does not manage, and their order, alone. */
  lemma WriteStateKeepsForeign(ps: seq<Param>, search: string, mode: string, specialties: seq<string>, sort: string)
    ensures Foreign(WriteState(ps, search, mode, specialties, sort)) == Foreign(ps)
  {
    var p1 := Set(ps, SEARCH, search);
    var p2 := SetOrDelete(p1, MODE, mode);
    var p3 := Delete(p2, SPECIALTY);
    var p4 := AppendAll(p3, SPECIALTY, specialties);
    SetKeepsForeign(ps, SEARCH, search);
    SetOrDeleteKeepsForeign(p1, MODE, mode);
    DeleteKeepsForeign(p2, SPECIALTY);
    AppendAllKeepsForeign(p3, SPECIALTY, specialties);
    SetOrDeleteKeepsForeign(p4, SORT, sort);
  }

  /** The filter state as `applyFiltersFromURL` reads it. */
  datatype State = State(search: string, mode: Option<string>, specialties: seq<string>, sort: Option<string>)

  /** `get('search') || ''`, `get('mode')`, `getAll('specialty')`, `get('sort')`. */
  function ReadState(ps: seq<Param>): (r: State)
    ensures r.mode.Some? ==> Param(MODE, r.mode.value) in ps
    ensures r.sort.Some? ==> Param(SORT, r.sort.value) in ps
  {
    State(Get(ps, SEARCH).GetOr(""), Get(ps, MODE), GetAll(ps, SPECIALTY), Get(ps, SORT))
  }

  /** Read-after-write: reading the address back gives the state that was written. */
  lemma RoundTrip(ps: seq<Param>, search: string, mode: string, specialties: seq<string>, sort: string)
    ensures ReadState(WriteState(ps, search, mode, specialties, sort))
         == State(search, Present(mode), specialties, Present(sort))
  {
    var w := WriteState(ps, search, mode, specialties, sort);
    WriteStateValues(ps, search, mode, specialties, sort);
    GetIsFirst(w, SEARCH);
    GetIsFirst(w, MODE);
    GetIsFirst(w, SORT);
  }

  /** An address with no filter parameters reads as the neutral state. */
  lemma ReadEmpty(ps: seq<Param>)
    requires NoKey(ps, SEARCH) && NoKey(ps, MODE) && NoKey(ps, SPECIALTY) && NoKey(ps, SORT)
    ensures ReadState(ps) == State("", None, [], None)
  {
    GetAllEmpty(ps, SEARCH);
    GetAllEmpty(ps, MODE);
    GetAllEmpty(ps, SPECIALTY);
    GetAllEmpty(ps, SORT);
    GetIsFirst(ps, SEARCH);
    GetIsFirst(ps, MODE);
    GetIsFirst(ps, SORT);
  }

  /** `?search=&specialty=Dentist&specialty=ENT&sort=experience` reads as no search text,
      no mode, the two specialties in order and the experience sort. */
  lemma ScenarioRead()
    ensures ReadState([Param(SEARCH, ""), Param(SPECIALTY, "Dentist"), Param(SPECIALTY, "ENT"),
                       Param(SORT, "experience")])
         == State("", None, ["Dentist", "ENT"], Some("experience"))
  {
    KeysDistinct();
    var ps := [Param(SEARCH, ""), Param(SPECIALTY, "Dentist"), Param(SPECIALTY, "ENT"),
               Param(SORT, "experience")];
    var t3 := [Param(SORT, "experience")];
    var t2 := [Param(SPECIALTY, "ENT")] + t3;
    var t1 := [Param(SPECIALTY, "Dentist")] + t2;
    assert ps[1..] == t1 && t1[1..] == t2 && t2[1..] == t3 && t3[1..] == [];
    assert GetAll(t3, SPECIALTY) == [];
    assert GetAll(t2, SPECIALTY) == ["ENT"];
    assert GetAll(t1, SPECIALTY) == ["Dentist", "ENT"];
    assert Get(t3, SORT) == Some("experience");
    assert Get(t2, SORT) == Some("experience");
    assert Get(t1, SORT) == Some("experience");
    assert Get(ps, SORT) == Some("experience");
    assert NoKey(ps, MODE);
    GetAllEmpty(ps, MODE);
    GetIsFirst(ps, MODE);
  }
}
