/**
 * The page itself: the fetched records, the records on display and the address's query
 * parameters, with the event handlers that recompute the display (`applyFilters`), write
 * the filter state to the address (`updateURLParams`) and restore it from there
 * (`applyFiltersFromURL`). The values of the form controls are parameters of the handlers.
 */
module Listing {
  import opened Wrappers
  import opened Text
  import opened Doctors
  import opened Filtering
  import opened Sorting
  import opened UrlParams
  import opened UrlState

  /** The records `applyFilters` displays for a normalised query and the control values:
      the matching records, arranged by the sort key. */
  function View(all: seq<Doctor>, query: string, mode: string, specialties: seq<string>, sort: string)
    : (r: seq<Doctor>)
    ensures |r| <= |all|
  {
    Arrange(FilterDoctors(all, query, mode, specialties), sort)
  }

  /** The display holds exactly the filtered records, each as often as filtered; a record is
      displayed exactly when it is listed and matches; no record is shown more often than
      it is listed. */
  lemma ViewContents(all: seq<Doctor>, query: string, mode: string, specialties: seq<string>, sort: string)
    ensures multiset(View(all, query, mode, specialties, sort))
         == multiset(FilterDoctors(all, query, mode, specialties))
    ensures forall d :: d in View(all, query, mode, specialties, sort) <==>
      d in all && Matches(d, query, mode, specialties)
    ensures multiset(View(all, query, mode, specialties, sort)) <= multiset(all)
  {
    var filtered := FilterDoctors(all, query, mode, specialties);
    FilterDoctorsCorrect(all, query, mode, specialties);
    var r := Arrange(filtered, sort);
    assert forall d :: d in r <==> d in multiset(r);
    assert forall d :: d in filtered <==> d in multiset(filtered);
  }

  /** The values of the form controls `applyFilters` reads: the search box text, the checked
      mode and sort ("" when no radio button is checked) and the checked specialties. */
  datatype Form = Form(search: string, mode: string, specialties: seq<string>, sort: string)

  /** What the search box, mode radio, specialty boxes and sort radio hold once
      `applyFiltersFromURL` has copied the address into them: an absent or empty `mode` or
      `sort` leaves its radio group unchecked. */
  function Controls(ps: seq<Param>): (r: Form)
    ensures r.search == Get(ps, SEARCH).GetOr("")
    ensures r.mode == Get(ps, MODE).GetOr("")
    ensures r.specialties == GetAll(ps, SPECIALTY)
    ensures r.sort == Get(ps, SORT).GetOr("")
  {
    var u := ReadState(ps);
    Form(u.search, u.mode.GetOr(""), u.specialties, u.sort.GetOr(""))
  }

  /** The records `applyFiltersFromURL` displays for the address `ps`. */
  function ViewFromUrl(all: seq<Doctor>, ps: seq<Param>): (r: seq<Doctor>)
    ensures multiset(r) <= multiset(all)
  {
    var c := Controls(ps);
    ViewContents(all, Trim(Lower(c.search)), c.mode, c.specialties, c.sort);
    View(all, Trim(Lower(c.search)), c.mode, c.specialties, c.sort)
  }

  /** The address `applyFiltersFromURL` leaves behind for the address `ps`. */
  function RestoredParams(ps: seq<Param>): (r: seq<Param>)
    ensures Foreign(r) == Foreign(ps)
  {
    var c := Controls(ps);
    WriteStateKeepsForeign(ps, Trim(Lower(c.search)), c.mode, c.specialties, c.sort);
    WriteState(ps, Trim(Lower(c.search)), c.mode, c.specialties, c.sort)
  }

  /**
   * Reloading the address written by `applyFilters` shows the same records: the search text
   * was stored already lower-cased and trimmed, and every other control value comes back as
   * it was written.
   */
  lemma ReloadShowsSameView(all: seq<Doctor>, ps: seq<Param>, input: string, mode: string,
                            specialties: seq<string>, sort: string)
    ensures ViewFromUrl(all, WriteState(ps, Trim(Lower(input)), mode, specialties, sort))
         == View(all, Trim(Lower(input)), mode, specialties, sort)
  {
    RoundTrip(ps, Trim(Lower(input)), mode, specialties, sort);
    NormalizeQueryIdempotent(input);
  }

  /** Restoring from an address and then reloading the restored address shows the same
      records again. */
  lemma RestoreIsStable(all: seq<Doctor>, ps: seq<Param>)
    ensures ViewFromUrl(all, RestoredParams(ps)) == ViewFromUrl(all, ps)
  {
    var c := Controls(ps);
    ReloadShowsSameView(all, ps, c.search, c.mode, c.specialties, c.sort);
  }

  /** `filtered.sort(...)` on a fresh array holding the filtered records: sorted by the
      key `sort` names, and left in filter order for any other key. */
  method SortFiltered(filtered: seq<Doctor>, sort: string) returns (r: seq<Doctor>)
    ensures r == Arrange(filtered, sort)
  {
    var a := new Doctor[|filtered|](i requires 0 <= i < |filtered| => filtered[i]);
    assert a[..] == filtered;
    var order := OrderOf(sort);
    if order.Some? {
      SortInPlace(a, order.value);
    }
    r := a[..];
  }

  /** The list `applyFilters` computes: `allDoctors.filter(...)`, then the sort. */
  method Refresh(all: seq<Doctor>, query: string, mode: string, specialties: seq<string>, sort: string)
    returns (r: seq<Doctor>)
    ensures r == View(all, query, mode, specialties, sort)
    ensures multiset(r) <= multiset(all)
  {
    var filtered := FilterDoctors(all, query, mode, specialties);
    r := SortFiltered(filtered, sort);
    ViewContents(all, query, mode, specialties, sort);
  }

  /** `updateURLParams` up to `history.pushState`: a copy of the current parameters, changed
      step by step with `set`, `delete` and `append`. */
  method UpdateURLParams(current: seq<Param>, search: string, mode: string, specialties: seq<string>,
                         sort: string)
    returns (url: seq<Param>)
    ensures url == WriteState(current, search, mode, specialties, sort)
  {
    url := Set(current, SEARCH, search);
    if mode != "" {
      url := Set(url, MODE, mode);
    } else {
      url := Delete(url, MODE);
    }
    url := Delete(url, SPECIALTY);
    ghost var cleared := url;
    for i := 0 to |specialties|
      invariant url == AppendAll(cleared, SPECIALTY, specialties[..i])
    {
      assert specialties[..i + 1][..i] == specialties[..i];
      url := Append(url, SPECIALTY, specialties[i]);
    }
    assert specialties[..|specialties|] == specialties;
    if sort != "" {
      url := Set(url, SORT, sort);
    } else {
      url := Delete(url, SORT);
    }
  }

  class Page {
    /** `allDoctors`: the normalised records, in fetch order. */
    var allDoctors: seq<Doctor>
    /** `displayedDoctors`: the records on display, in display order. */
    var displayedDoctors: seq<Doctor>
    /** The query parameters of `window.location`. */
    var params: seq<Param>

    /** Every record is normalised, and the display holds each record at most as often as
        the full list does. */
    predicate Valid()
      reads this
    {
      && (forall i :: 0 <= i < |allDoctors| ==> Normalized(allDoctors[i]))
      && multiset(displayedDoctors) <= multiset(allDoctors)
    }

    /** What the handlers may rely on in a valid page: every record on display is a listed
        record, hence has a specialty and a mode. */
    lemma DisplayedAreNormalized()
      requires Valid()
      ensures forall d :: d in displayedDoctors ==> d in allDoctors && Normalized(d)
    {
      forall d | d in displayedDoctors
        ensures d in allDoctors && Normalized(d)
      {
        assert d in multiset(displayedDoctors);
        assert d in multiset(allDoctors);
        var i :| 0 <= i < |allDoctors| && allDoctors[i] == d;
      }
    }

    /** The page before the fetch has answered, at the address `address`. */
    constructor (address: seq<Param>)
      ensures Valid()
      ensures allDoctors == [] && displayedDoctors == [] && params == address
    {
      allDoctors := [];
      displayedDoctors := [];
      params := address;
    }

    /** The fetch callback: normalise the fetched records in place, keep them as the full
        list and display all of them. */
    method Load(data: array<Doctor>, picks: seq<Pick>)
      requires |picks| == data.Length
      modifies this, data
      ensures Valid()
      ensures |allDoctors| == data.Length
      ensures forall i :: 0 <= i < data.Length ==> allDoctors[i] == NormalizeDoctor(old(data[i]), picks[i])
      ensures displayedDoctors == allDoctors
      ensures params == old(params)
    {
      NormalizeAll(data, picks);
      allDoctors := data[..];
      displayedDoctors := allDoctors;
    }

    /** `applyFilters`, given the search box text and the checked mode, specialties and sort
        ("" for an unchecked radio group): filter, sort in place, write the address, display. */
    method ApplyFilters(input: string, mode: string, specialties: seq<string>, sort: string)
      requires Valid()
      modifies this
      ensures Valid()
      ensures allDoctors == old(allDoctors)
      ensures displayedDoctors == View(allDoctors, Trim(Lower(input)), mode, specialties, sort)
      ensures params == WriteState(old(params), Trim(Lower(input)), mode, specialties, sort)
      ensures forall d :: d in displayedDoctors ==> d in allDoctors && Normalized(d)
    {
      var query := Trim(Lower(input));
      var shown := Refresh(allDoctors, query, mode, specialties, sort);
      var url := UpdateURLParams(params, query, mode, specialties, sort);
      params := url;  // history.pushState
      displayedDoctors := shown;
      DisplayedAreNormalized();
    }

    /** `applyFiltersFromURL`: copy the address into the controls, then `applyFilters`. */
    method ApplyFiltersFromURL()
      requires Valid()
      modifies this
      ensures Valid()
      ensures allDoctors == old(allDoctors)
      ensures displayedDoctors == ViewFromUrl(allDoctors, old(params))
      ensures params == RestoredParams(old(params))
    {
      var search := Get(params, SEARCH).GetOr("");
      var mode := Get(params, MODE);
      var specialties := GetAll(params, SPECIALTY);
      var sort := Get(params, SORT);
      ApplyFilters(search, mode.GetOr(""), specialties, sort.GetOr(""));
    }
  }

  /** The `DOMContentLoaded` handler as written: `applyFiltersFromURL` runs while the fetch
      is still pending, and the fetch callback then displays every record. */
  method StartupAsWritten(address: seq<Param>, data: array<Doctor>, picks: seq<Pick>)
    returns (page: Page)
    requires |picks| == data.Length
    modifies data
    ensures page.Valid()
    ensures |page.allDoctors| == data.Length
    ensures forall i :: 0 <= i < data.Length ==> page.allDoctors[i] == NormalizeDoctor(old(data[i]), picks[i])
    ensures page.displayedDoctors == page.allDoctors
    ensures page.params == RestoredParams(address)
  {
    page := new Page(address);
    page.ApplyFiltersFromURL();
    page.Load(data, picks);
  }

  /** Page start-up with the address restored once the records are there: the display
      is the view the address describes. */
  method Startup(address: seq<Param>, data: array<Doctor>, picks: seq<Pick>) returns (page: Page)
    requires |picks| == data.Length
    modifies data
    ensures page.Valid()
    ensures |page.allDoctors| == data.Length
    ensures forall i :: 0 <= i < data.Length ==> page.allDoctors[i] == NormalizeDoctor(old(data[i]), picks[i])
    ensures page.displayedDoctors == ViewFromUrl(page.allDoctors, address)
    ensures page.params == RestoredParams(address)
    ensures page.displayedDoctors == ViewFromUrl(page.allDoctors, page.params)
  {
    page := new Page(address);
    page.Load(data, picks);
    page.ApplyFiltersFromURL();
    RestoreIsStable(page.allDoctors, address);
  }

  // ---- Worked examples ------------------------------------------------------------

  const AMIT := Doctor("Dr. Amit", "Dentist", "", 5, 500, IN_CLINIC)
  const BELA := Doctor("Dr. Bela", "Dentist", "", 10, 300, VIDEO_CONSULT)

  lemma AmitBelaMatch(mode: string)
    requires mode == "" || mode == IN_CLINIC
    ensures Matches(AMIT, "dr", mode, ["Dentist"]) && Matches(AMIT, "", mode, [])
    ensures Matches(BELA, "dr", "", ["Dentist"]) && !Matches(BELA, "", IN_CLINIC, [])
  {
    assert Lower(AMIT.name)[..2] == "dr";
    assert "dr" <= Lower(AMIT.name)[0..];
    assert Lower(BELA.name)[..2] == "dr";
    assert "dr" <= Lower(BELA.name)[0..];
    ContainsEmpty(Lower(AMIT.name));
    assert LowerAll(["Dentist"]) == [Lower("Dentist")];
  }

  /** Searching "dr" among dentists, cheapest first: Bela (300) before Amit (500). */
  lemma ScenarioSortByFees()
    ensures View([AMIT, BELA], "dr", "", ["Dentist"], "fees") == [BELA, AMIT]
  {
    AmitBelaMatch("");
    var p := Matcher("dr", "", ["Dentist"]);
    assert [AMIT, BELA][1..] == [BELA];
    assert Filter([BELA], p) == [BELA];
    assert FilterDoctors([AMIT, BELA], "dr", "", ["Dentist"]) == [AMIT, BELA];
    assert [AMIT, BELA][..1] == [AMIT];
    assert SortBy([AMIT], ByFees) == [AMIT];
    assert Insert(BELA, [AMIT], ByFees) == [BELA, AMIT];
  }

  /** Only in-clinic consultations: Amit alone. */
  lemma ScenarioInClinic()
    ensures View([AMIT, BELA], "", IN_CLINIC, [], "") == [AMIT]
  {
    AmitBelaMatch(IN_CLINIC);
    var p := Matcher("", IN_CLINIC, []);
    assert [AMIT, BELA][1..] == [BELA];
    assert Filter([BELA], p) == [];
  }

  lemma NormalizeKeepsExamples(a: Pick, b: Pick)
    ensures NormalizeDoctor(AMIT, a) == AMIT && NormalizeDoctor(BELA, b) == BELA
  {
  }

  /** The controls `?mode=In Clinic` sets: only the mode radio. */
  lemma InClinicControls()
    ensures Controls([Param(MODE, IN_CLINIC)]) == Form("", IN_CLINIC, [], "")
  {
    var address := [Param(MODE, IN_CLINIC)];
    KeysDistinct();
    assert Get(address, SEARCH) == None;
    assert Get(address, MODE) == Some(IN_CLINIC);
    assert Get(address, SORT) == None;
    assert GetAll(address, SPECIALTY) == [];
  }

  /** The address `?mode=In Clinic` describes Amit alone. */
  lemma InClinicView()
    ensures ViewFromUrl([AMIT, BELA], [Param(MODE, IN_CLINIC)]) == [AMIT]
  {
    InClinicControls();
    assert Trim(Lower("")) == "";
    ScenarioInClinic();
  }

  /**
   * The start-up order as written ignores the address: fetching Amit and Bela at the
   * address `?mode=In Clinic` displays both records, although the address (before and
   * after start-up) describes Amit alone, which is what `Startup` displays.
   */
  lemma StartupAsWrittenIgnoresAddress(a: Pick, b: Pick)
    ensures var all := [NormalizeDoctor(AMIT, a), NormalizeDoctor(BELA, b)];
            var address := [Param(MODE, IN_CLINIC)];
            && ViewFromUrl(all, address) == [AMIT]
            && ViewFromUrl(all, RestoredParams(address)) == [AMIT]
            && all != ViewFromUrl(all, RestoredParams(address))
  {
    NormalizeKeepsExamples(a, b);
    InClinicView();
    RestoreIsStable([AMIT, BELA], [Param(MODE, IN_CLINIC)]);
  }
}
