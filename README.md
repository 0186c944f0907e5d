# Doctor listing: a verified model of the filtering core

The widget in `script.js` fetches a list of doctor records and fills in any missing
specialty or consultation mode. It then lets the user narrow the list by name search,
consultation mode and specialties, and sort it by fee or experience. It offers up to
three name suggestions while the user types. The filter state is mirrored into the
page address so that a view can be bookmarked and restored.

This project models that core in Dafny and proves what the code promises:

- `Text`: ASCII `toLowerCase`, `trim`, `includes`, and the checkbox-id sanitiser
  (`spec.replace(/\//g, '-').replace(/\s+/g, '-')`).
- `Doctors`: the record, the 24 default specialties, and the normaliser. The normaliser
  fills in a specialty and a mode in place on the fetched array. Its random draws are a
  parameter, one `Pick` per record.
- `Filtering`: the three `applyFilters` predicates, the order-preserving filter, and the
  suggestion list.
- `Sorting`: the two sort orders. The stable sort is specified as a functional insertion
  sort; the in-place insertion sort on an array is proved equal to it.
- `UrlParams`: the `URLSearchParams` operations `get`, `getAll`, `set`, `delete` and
  `append` on an ordered list of name–value pairs, as section 6.2 of the WHATWG URL
  Standard defines them.
- `UrlState`: what `updateURLParams` writes and what `applyFiltersFromURL` reads, and
  the read-after-write round trip between them.
- `Listing`: the page as a class. Its fields are `allDoctors`, `displayedDoctors` and the
  address parameters. Its methods are the fetch callback, `applyFilters` and
  `applyFiltersFromURL`. `updateURLParams` changes a copy of the address step by step,
  and `applyFilters` then stores that copy, as `history.pushState` does. Page start-up
  is modelled both as written and in the corrected order.

The handlers receive the values of the form controls (search box text, checked mode,
checked specialties, checked sort) as parameters. An absent field, or a radio group with
nothing checked (`undefined` in the code), is the empty string here. This applies to
`specialty`, `speciality`, `moc` and the radio values, which the code only tests for
truthiness. `name` is always a string here (see "Left out"). The model follows the code
literally:

- The consultation modes are the strings `"Video Consult"` and `"In Clinic"`, with a
  space, and are compared exactly.
- The mode field is `moc`.
- The specialty is `specialty || speciality || ''`.

## Model

| member | source | states |
|---|---|---|
| Text.Lower | script.js:118 | `toLowerCase` keeps the length |
| Text.LowerCases | script.js:118 | lower-casing leaves no upper-case letter, keeps whitespace where it was, and is the identity on text without upper-case letters |
| Text.LowerChar | script.js:124 | one character lower-cased: a capital becomes the lower-case letter at the same place in the alphabet, no capital is left, whitespace-ness is kept, and other characters are unchanged |
| Text.TrimStart | script.js:86 | `trim`'s left half: the result is a suffix of the input, everything dropped is whitespace, and it does not start with whitespace |
| Text.TrimEnd | script.js:86 | `trim`'s right half: the result is a prefix of the input, everything dropped is whitespace, and it does not end with whitespace |
| Text.Trim | script.js:86 | `trim` never lengthens the text |
| Text.TrimShape | script.js:86 | the trimmed text has no whitespace at either end, holds only characters of the input, and is the input itself when that has no whitespace |
| Text.TrimEmptyIff | script.js:88 | the trimmed query is empty exactly when the input is all whitespace, the case in which no suggestions are shown |
| Text.TrimOfTrimmed | script.js:118 | text with no whitespace at either end is its own trim |
| Text.TrimIdempotent | script.js:118 | trimming twice is trimming once |
| Text.NormalizeQueryIdempotent | script.js:118 | the search query `toLowerCase().trim()` is a fixed point of the same normalisation |
| Text.Contains | script.js:124 | `includes`: a prefix of the name is always included, and nothing longer than the name is |
| Text.ContainsEmpty | script.js:124 | every name includes the empty query |
| Text.ReplaceSlashes | script.js:22 | `replace(/\//g, '-')`: same length, every `/` becomes `-`, every other character kept |
| Text.CollapseSpaces | script.js:22 | `replace(/\s+/g, '-')`: no whitespace left, never longer, and adds no `/`; what it does to each run is CollapseSpacesRun |
| Text.CollapseSpacesClean | script.js:22 | text without whitespace is unchanged by the collapse |
| Text.TrimStartSpaces | script.js:22 | a run of whitespace is all that is skipped before text that does not start with whitespace |
| Text.CollapseLeadingRun | script.js:22 | a leading run of one or more whitespace characters becomes a single `-` |
| Text.CollapseSpacesRun | script.js:22 | a run of one or more whitespace characters after text without whitespace becomes a single `-`, and the rest is collapsed in turn |
| Text.CollapseSpacesCleanPrefix | script.js:22 | a prefix without whitespace passes through the collapse unchanged |
| Text.IdSafe | script.js:22 | the sanitised id contains no `/` and no whitespace and is no longer than the specialty |
| Text.IdSafeClean | script.js:22 | a specialty without `/` or whitespace is its own id |
| Text.ReplaceSlashesJoin | script.js:22 | between two clean words only the separating `/` is replaced |
| Text.CollapseSpaceWord | script.js:22 | one whitespace character before a clean word becomes one `-` |
| Text.IdSafeJoin | script.js:22 | one `/` or whitespace character between two clean words becomes one `-` |
| Text.IdSafeSlashExample | script.js:21-22 | `Dietitian/Nutritionist` gives `Dietitian-Nutritionist` |
| Text.IdSafeSpaceExample | script.js:21-22 | `General Physician` gives `General-Physician` |
| Text.IdSafeCleanExample | script.js:21-22 | `ENT` gives `ENT` |
| Doctors.EffectiveSpecialty | script.js:126 | the first truthy of `specialty`, `speciality` and `''`: `specialty` whenever it is non-empty, otherwise `speciality`, and empty exactly when both are |
| Doctors.SpecialtiesNonEmpty | script.js:35-42 | the default list has 24 entries, none of them empty |
| Doctors.NormalizeDoctor | script.js:45-50 | the record ends up with a specialty and a mode; name, fees, experience and `speciality` are unchanged; a present specialty or mode is kept; a filled-in specialty is the drawn entry of the 24-item list; a filled-in mode is `Video Consult` exactly when the draw says so, otherwise `In Clinic` |
| Doctors.NormalizeNormalized | script.js:44-51 | a record that already has a specialty and a mode is left as it is, whatever is drawn |
| Doctors.NormalizeAll | script.js:44-51 | the `forEach` loop normalises every element of the fetched array in place, the i-th with the i-th draw, and every record is then normal |
| Filtering.Filter | script.js:123 | `Array.filter`: a record is in the result exactly when it is in the input and passes the test |
| Filtering.FilterShrinks | script.js:123 | `Array.filter` never returns more elements than it was given |
| Filtering.FilterCounts | script.js:123 | each record kept occurs as often as in the input; the others do not occur |
| Filtering.FilterIsSubsequence | script.js:123 | the filter keeps the original relative order (the result is a subsequence) |
| Filtering.SubsequenceOfPrefix | script.js:123 | a subsequence of a prefix is a subsequence of the whole list |
| Filtering.FilterKeepsAll | script.js:123 | a filter that every record passes returns the list unchanged |
| Filtering.FilterConcat | script.js:123 | filtering distributes over concatenation |
| Filtering.FilterSwap | script.js:123 | two records of which at most one passes can be filtered in either order |
| Filtering.Cut | script.js:90-91 | the length of the prefix of the list holding the first n matches is within the list |
| Filtering.FilterTake | script.js:90-91 | the first n matches are the matches of that prefix |
| Filtering.NameMatch | script.js:124 | an empty query matches every record, and a query longer than the name matches none |
| Filtering.ModeMatch | script.js:125 | no mode matches every record, a record matches its own mode, and a chosen mode is compared exactly |
| Filtering.SpecialtyMatch | script.js:126 | no selection matches every record, and selecting a record's own specialty keeps it |
| Filtering.Matches | script.js:124-127 | `nameMatch && modeMatch && specMatch`: with no criteria every record matches, a match's name is at least as long as the query, and a chosen mode is the record's; the full if-and-only-if is FilterDoctorsCorrect |
| Filtering.FilterDoctors | script.js:123-128 | the filter of `applyFilters` keeps at most the listed records; its if-and-only-if, multiplicities and order are FilterDoctorsCorrect |
| Filtering.LowerAll | script.js:126 | `specialties.map(s => s.toLowerCase())`, element by element |
| Filtering.FilterDoctorsCorrect | script.js:123-128 | a record is kept exactly when its lower-cased name includes the query, the mode is unset or equals `moc` exactly, and the selection is empty or holds its lower-cased specialty; kept records keep their multiplicity and their order |
| Filtering.SpecialtyMatchIff | script.js:126 | the specialty test passes exactly when nothing is selected or some selected name equals the record's specialty up to case |
| Filtering.FilterNeutral | script.js:123-128 | with no query, no mode and no specialty, the result is the full list in order |
| Filtering.FirstMatches | script.js:89-91 | at most three records, each a listed record whose lower-cased name includes the query |
| Filtering.FirstMatchesArePrefix | script.js:89-91 | the first matches are all the matches of some prefix of the list, in list order, and all the matches when there are fewer than three |
| Filtering.Suggestions | script.js:86-91 | at most three suggestions, none for an all-whitespace query, each a listed record whose lower-cased name includes the lower-cased, trimmed query |
| Filtering.SuggestionsAreFirstMatches | script.js:89-91 | the suggestions are the first matches in list order: all the matches of some prefix of the list, and all the matches when there are fewer than three |
| Sorting.OrderOf | script.js:130-134 | `'fees'` selects the fee order, `'experience'` the experience order, and nothing else selects an order |
| Sorting.Compare | script.js:130-134 | the comparators `a.fees - b.fees` and `b.experience - a.experience`: negative exactly when `a` is cheaper, or more experienced, and zero exactly on a tie; their order is KeyMatchesComparator |
| Sorting.KeyMatchesComparator | script.js:130-134 | ascending order of the key is the comparators' order: fees ascending, and experience descending through the negated key; equal keys are exactly the comparator's ties |
| Sorting.Insert | script.js:130-134 | an insertion step adds one element; where it lands is InsertPosition |
| Sorting.SortBy | script.js:130-134 | the stable sort keeps the length; it is a sorted, stable permutation by SortBySorted, SortByPermutes and SortByStable |
| Sorting.InsertPermutes | script.js:130-134 | an insertion step adds exactly the inserted record |
| Sorting.SortByPermutes | script.js:130-134 | the sort is a permutation |
| Sorting.InsertSorted | script.js:130-134 | inserting into a sorted list keeps it sorted |
| Sorting.SortBySorted | script.js:130-134 | the sort output is ordered by the comparator's key |
| Sorting.InsertKeepsTies | script.js:130-134 | an insertion step puts the new record after every record it ties with |
| Sorting.SortByStable | script.js:130-134 | records the comparator calls equal keep their relative order |
| Sorting.SortBySortedIsIdentity | script.js:130-134 | an already sorted list is left as it is |
| Sorting.SortByIdempotent | script.js:130-134 | sorting twice is sorting once |
| Sorting.InsertPosition | script.js:130-134 | an insertion puts the record right after the last element whose key does not exceed its own |
| Sorting.SortByLast | script.js:130-134 | sorting one more element is one more insertion step |
| Sorting.ShiftRight | script.js:130-134 | the shifting loop of an insertion step moves every larger-keyed element one place right and stops at the insertion point |
| Sorting.InsertAt | script.js:130-134 | one in-place insertion step extends the sorted prefix of the array by one element |
| Sorting.SortInPlace | script.js:130-134 | `filtered.sort(...)` in place: the array ends up as the stable sort of its old contents |
| Sorting.Arrange | script.js:130-134 | the arranged list is a permutation of the filtered one; fees never decrease under `'fees'`; experience never increases under `'experience'`; any other key leaves the list unchanged |
| Sorting.ArrangeStable | script.js:130-134 | under either key, records with equal keys keep their filter order |
| UrlParams.GetAll | script.js:155 | `getAll` gives no more values than there are pairs |
| UrlParams.GetAllEmpty | script.js:155 | `getAll` is empty exactly when no pair has the name |
| UrlParams.GetAllConcat | script.js:155 | `getAll` on two lists joined is the two results joined |
| UrlParams.Get | script.js:153-156 | `get` returns only a value some pair with that name has |
| UrlParams.GetIsFirst | script.js:153-156 | `get` is the first value `getAll` finds, and null when there is none |
| UrlParams.Delete | script.js:144-147 | after `delete`, no pair has the name, and the list has not grown |
| UrlParams.DeleteRemovesAll | script.js:144-147 | after `delete`, `getAll` is empty and `get` is null |
| UrlParams.DeleteAbsent | script.js:144-147 | deleting an absent name changes nothing |
| UrlParams.DeleteKeepsOthers | script.js:144-147 | `delete` leaves every other name's values as they were |
| UrlParams.Append | script.js:146 | `append` adds one pair |
| UrlParams.AppendAdds | script.js:146 | `append` adds the value as the name's last value |
| UrlParams.AppendKeepsOthers | script.js:146 | `append` leaves every other name's values as they were |
| UrlParams.Set | script.js:143-147 | `set` adds at most one pair |
| UrlParams.SetReplaces | script.js:143-147 | after `set`, the name has exactly the one new value, and `get` returns it |
| UrlParams.SetKeepsOthers | script.js:143-147 | `set` leaves every other name's values as they were |
| UrlParams.SetOnlyTouchesKey | script.js:143-147 | apart from the pairs with the name, `set` leaves the list exactly as it was |
| UrlParams.SetSkipsPrefix | script.js:143-147 | pairs before the first pair with the name are untouched by `set` |
| UrlParams.SetInPlace | script.js:143-147 | `set` overwrites the first pair with the name in place and drops the later ones |
| UrlParams.SetAppendsWhenAbsent | script.js:143-147 | `set` of an absent name appends the pair at the end |
| UrlState.KeysDistinct | script.js:143-147 | the four parameter names differ |
| UrlState.AppendAll | script.js:146 | `forEach(append)` adds one pair per value |
| UrlState.AppendAllAdds | script.js:146 | the appended values follow the existing ones, in list order |
| UrlState.AppendAllKeepsOthers | script.js:146 | appending the specialties leaves every other name's values alone |
| UrlState.Foreign | script.js:142-147 | the parameters the page does not manage, in order |
| UrlState.ForeignConcat | script.js:142-147 | the unmanaged parameters of two lists joined are the two results joined |
| UrlState.DeleteKeepsForeign | script.js:144-147 | deleting a managed name leaves the unmanaged parameters and their order alone |
| UrlState.SetKeepsForeign | script.js:143-147 | setting a managed name leaves the unmanaged parameters and their order alone |
| UrlState.AppendAllKeepsForeign | script.js:146 | appending the specialties leaves the unmanaged parameters and their order alone |
| UrlState.SetOrDelete | script.js:144-147 | `x ? set : delete`: an unset value leaves no pair with the name, and at most one pair is added |
| UrlState.WriteState | script.js:141-147 | the parameters `updateURLParams` leaves: no `sort` pair when no sort is checked, and at most three pairs plus one per specialty added; what each name holds is WriteStateValues, and the other parameters WriteStateKeepsForeign |
| UrlState.Present | script.js:154-156 | what `get` returns for a value written by `x ? set : delete`: null exactly for an unset value |
| UrlState.SetOrDeleteWrites | script.js:144-147 | after `x ? set : delete`, the name has the one value when set and none when unset |
| UrlState.SetOrDeleteKeepsOthers | script.js:144-147 | `x ? set : delete` leaves every other name's values as they were |
| UrlState.SetOrDeleteKeepsForeign | script.js:144-147 | `x ? set : delete` on a managed name leaves the unmanaged parameters alone |
| UrlState.WriteStateValues | script.js:141-147 | after `updateURLParams`, `search` occurs exactly once with the given value; `mode` and `sort` occur once when set and not at all when unset; `specialty` holds the given list in order |
| UrlState.WriteStateKeepsForeign | script.js:141-147 | `updateURLParams` leaves every unmanaged parameter, and their order, unchanged |
| UrlState.ReadState | script.js:152-156 | a mode or sort that is read back occurs in the address under that name |
| UrlState.RoundTrip | script.js:141-156 | reading back what `updateURLParams` wrote gives the search text, the mode (null if unset), the specialty list in order, and the sort (null if unset) |
| UrlState.ReadEmpty | script.js:152-156 | an address without filter parameters reads as no search, no mode, no specialties and no sort |
| UrlState.ScenarioRead | script.js:152-156 | `?search=&specialty=Dentist&specialty=ENT&sort=experience` reads as empty search, no mode, `[Dentist, ENT]`, sort `experience` |
| Listing.View | script.js:123-134 | the displayed list is never longer than the full list; its contents are ViewContents |
| Listing.ViewContents | script.js:123-134 | the displayed list holds exactly the filtered records, each as often as filtered; a record is displayed exactly when it is listed and matches; no record is displayed more often than it is listed |
| Listing.Controls | script.js:152-173 | the search box receives `get('search')`, or `''` when that is null or empty; the mode and sort radios are checked at `get('mode')` and `get('sort')` and left unchecked when those are null or empty; the specialty boxes receive `getAll('specialty')` |
| Listing.ViewFromUrl | script.js:151-175 | no record is shown after restoring from an address more often than it is listed |
| Listing.RestoredParams | script.js:151-175 | restoring from an address leaves its unmanaged parameters, and their order, unchanged |
| Listing.ReloadShowsSameView | script.js:136-156 | reloading the address written by `applyFilters` displays the same records |
| Listing.RestoreIsStable | script.js:151-175 | restoring from an address, then reloading the address left behind, displays the same records |
| Listing.SortFiltered | script.js:130-134 | the sort applied to a fresh array of the filtered records gives the arranged list |
| Listing.Refresh | script.js:123-134 | the list `applyFilters` computes is the view of the criteria, and holds no record more often than it is listed |
| Listing.UpdateURLParams | script.js:141-147 | the step-by-step `set`, `delete` and `append` calls on a copy of the address produce the written state of the old address |
| Listing.Page.constructor | script.js:1-2 | the page starts with no records, nothing displayed, and the given address |
| Listing.Page.Load | script.js:44-54 | the fetch callback normalises the array in place, keeps it as the full list, displays all of it, and keeps the page invariant (every record normalised, nothing displayed more often than listed) |
| Listing.Page.DisplayedAreNormalized | script.js:44-55 | in a valid page every displayed record is a listed record with a specialty and a mode |
| Listing.Page.ApplyFilters | script.js:117-139 | the display becomes the view of the lower-cased, trimmed query and the controls; the address becomes the old address with that state written (`pushState`); the full list is untouched; the page invariant is kept, so every displayed record is a listed, normalised one |
| Listing.Page.ApplyFiltersFromURL | script.js:151-176 | the display becomes the view the address describes, and the address becomes the restored state |
| Listing.StartupAsWritten | script.js:4-9 | start-up as written ends up displaying every record, whatever the address says |
| Listing.Startup | script.js:4-9 | start-up with the address applied after loading displays the view the address describes, and the address left behind describes the same view |
| Listing.AmitBelaMatch | script.js:124-127 | which of the two example records the example criteria keep |
| Listing.ScenarioSortByFees | script.js:123-134 | searching `dr` among dentists, sorted by fees, gives Bela (300) before Amit (500) |
| Listing.ScenarioInClinic | script.js:123-128 | mode `In Clinic` keeps only Amit |
| Listing.NormalizeKeepsExamples | script.js:44-51 | the two example records are already normal |
| Listing.InClinicControls | script.js:152-158 | `?mode=In Clinic` sets only the mode control |
| Listing.InClinicView | script.js:151-175 | `?mode=In Clinic` over Amit and Bela describes Amit alone |
| Listing.StartupAsWrittenIgnoresAddress | script.js:4-9 | at `?mode=In Clinic` with Amit and Bela loaded, the address describes Amit alone while start-up as written displays both |

## Left out

- The `fetch` call and JSON parsing (script.js:32-33) are left out because they are network I/O. The fetched records arrive as an array parameter of `Page.Load`. A failed fetch, which leaves the list empty, is not modelled.
- Rendering is left out: `displayDoctors`, `generateSpecialtyCheckboxes` and the suggestion list items (script.js:11-29, 59-79, 92-102). The model computes what is displayed, not the markup.
- Event wiring is left out: the `input`, `keydown`, `click` and `change` listeners (script.js:81-115). Each event is a call to the modelled handler or function. A suggestion click sets the search box to the doctor's name, which is a call to `Page.ApplyFilters` with that name.
- `history.pushState` (script.js:148) is the assignment to `Page.params`. Percent-encoding and parsing of the query string are not modelled; the address is the parsed list of pairs.
- The `querySelector` look-ups in `applyFiltersFromURL` (script.js:160-173) depend on markup outside `script.js`. Listing.Controls assumes each value read from the address has a matching control, and that the controls hold exactly those values. In the page, a value with no matching control is ignored, and checked specialties are read back in document order.
- `Math.random` (script.js:46, 49) is injected as one `Pick` per record: an index below 24 and a bool. The probabilities are not modelled.
- `toLowerCase` and `trim` are limited to the ASCII letters and a fixed set of whitespace characters: ASCII whitespace, no-break space, the line and paragraph separators, and the byte-order mark. Full Unicode case mapping and the complete white-space class are not modelled.
- Fees and experience are integers. Non-numeric or `NaN` values from malformed records, and the resulting comparator behaviour, are not modelled.
- `Array.prototype.sort` is modelled by its observable result, a stable sort, computed as an insertion sort. The engine's own algorithm is not modelled.
- UrlParams.GetAll, UrlParams.Get, UrlParams.Set, UrlParams.Delete and UrlParams.Append carry only light contracts of their own; their laws are the lemmas listed beside them above. The same holds for Text.Lower and Text.Trim, whose properties are Text.LowerCases and Text.TrimShape.
- Filtering.FilterDoctors states only a length bound of its own; what it keeps, how often and in what order is Filtering.FilterDoctorsCorrect.
- Listing.View states only a length bound of its own; its contents are Listing.ViewContents.
- UrlState.WriteState states only the unset sort and a length bound of its own; its values are UrlState.WriteStateValues and UrlState.WriteStateKeepsForeign.
- Sorting.Insert and Sorting.SortBy state only their lengths; order, permutation and stability are the lemmas listed beside them.
- Sorting.Key has no contract of its own: a contract on one record could only repeat its body. Its meaning, the comparators' order, is Sorting.KeyMatchesComparator.
- `doc.name` is assumed to be a string. A record without a name makes `toLowerCase` throw at script.js:90 and script.js:124, which aborts the suggestion listener or `applyFilters` (no display update and no `pushState`). That error path is not modelled.
- Text.CollapseSpaces states its characterisation as lemmas: Text.CollapseSpacesClean for text without whitespace and Text.CollapseSpacesRun for each run of whitespace.

## Findings

| source | as written | input that shows it | evidently intended | confidence | as-written member | corrected member |
|---|---|---|---|---|---|---|
| script.js:4-9 | `DOMContentLoaded` calls `applyFiltersFromURL()` while the fetch is still pending, so it filters an empty list. The fetch callback then sets `displayedDoctors` to every record (script.js:53-54), and the filters in the address are never applied to the first display. | address `?mode=In Clinic`; records Dr. Amit (In Clinic) and Dr. Bela (Video Consult): both are displayed, although the address describes Amit alone | the first display is the view the address describes, so a bookmarked view is restored on load | high; not executed | Listing.StartupAsWritten, with Listing.StartupAsWrittenIgnoresAddress | Listing.Startup |
