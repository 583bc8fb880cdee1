# Doctor listing: view state, filtering and sorting

A model of the logic of a doctor-listing single-page application. The
application keeps the user's choices (a free-text search, a consultation
mode, a set of specialties and a sort order) in the page query. It shows the
doctor records that match them, sorted as asked. Around that core are an
autocomplete search box, a filter panel and a card per doctor.

The model covers:

- **The view-state store** (`useSearchParams`), as the class
  `SearchParamsHook.Store`. It holds the state, the history of queries written
  so far and the entry being shown. A query is an ordered list of key/value
  pairs (`QueryParams`). `Decode` reads a state from a query. `Merge` lays a
  partial state over the current one. `Encode` and the loop `BuildQuery` write
  a query back, and `Store.Update` pushes it. `Store.Traverse` models a browser
  back/forward step, which decodes the entry reached without pushing anything.
  The central result is the round trip `DecodeEncode`: decoding an encoded
  state gives the same state, with missing fields turned into `""` or `[]`.
- **The list pipeline** (`getFilteredDoctors`), in `DoctorList`. It has three
  filter stages: a case-insensitive substring match on the name, the specialty
  names and the clinic name; a consultation mode that lets every record
  through when the value is unknown; and a specialty selection matched with
  OR. A stable sort by fee (ascending) or by experience (descending) follows.
  `Filtered` is the specification of the filters. `GetFilteredDoctors` runs
  the stages as the code does and sorts with an in-place stable insertion sort
  on an array (`Sorting.StableSort`). It is proved to return `Filtered`
  unsorted, or a stable sort of it.
- **The search box** (`DoctorSearch`). `Suggestions` gives the first three
  matches of the list's own text predicate, or none for blank text. The class
  `SearchBox` holds the typed text, the suggestions and whether they are
  shown. Its handlers commit the search through the store. Picking a
  suggestion whose name differs from the typed text changes the text, so the
  suggestion effect runs again after the commit and the list of suggestions
  opens again. The model follows the code here.
- **The filter panel** (`FilterPanel`). `AllSpecialties` builds the catalogue
  of specialty names. It collects the names in nested loops into a set of
  distinct names, then sorts them in place. The module also holds the
  check/uncheck list editing, the radio and "Clear All" updates, and the
  checked state of each control.
- **The consultation badges** of a doctor card (`DoctorCard`).
- **Worked examples** (`Scenarios`) on two small records.

Adding a specialty to a non-empty selection never shrinks the result
(`DoctorList.AddingSpecialtyNeverShrinks`). From an empty selection this does
not hold: the first name switches the specialty filter on, and records
without that specialty drop out (`DoctorList.FirstSpecialtyCanShrink`). So
monotonicity holds in the code only for a non-empty selection.

Sort keys. `parseInt` yields NaN for a fee with no digit, or for an
experience whose first word has no leading number. A NaN comparison makes
the order implementation-defined. The model gives such a record the value 0
(see `DoctorList.Rank` under Left out).

## Model

| member | source | states |
|---|---|---|
| Types.TextOf | src/hooks/useSearchParams.ts:9-12 | the empty-string fallback of a single-valued field: the text is empty exactly when the field is undefined or empty, and is the field's value otherwise |
| Types.NamesOf | src/components/DoctorList.tsx:34 | the empty-list fallback of the selection: it is empty exactly when the selection is undefined or empty, the case the code's `specialty && specialty.length > 0` guards skip |
| QueryParams.Get | src/hooks/useSearchParams.ts:9 | `get`: absent exactly when no pair has the key; otherwise the value of the first pair with that key |
| QueryParams.GetAll | src/hooks/useSearchParams.ts:11 | `getAll`: a value is returned iff the query holds that pair; empty iff the key is absent |
| QueryParams.Delete | src/hooks/useSearchParams.ts:35 | `delete`: the key is gone and every other key keeps its values |
| QueryParams.Set | src/hooks/useSearchParams.ts:26 | `set`: the key has exactly the one new value and every other key keeps its values |
| QueryParams.SetFresh | src/hooks/useSearchParams.ts:42 | on a list without the key, `set` appends one pair at the end |
| QueryParams.DeleteAbsent | src/hooks/useSearchParams.ts:35 | on a list without the key, `delete` changes nothing |
| SearchParamsHook.Decode | src/hooks/useSearchParams.ts:6-14 | decoding never leaves a field undefined |
| SearchParamsHook.Merge | src/hooks/useSearchParams.ts:20 | merging over a complete state gives a complete state |
| SearchParamsHook.Normalize | src/hooks/useSearchParams.ts:8-13 | the normalised state is complete, and a complete state is its own normal form |
| SearchParamsHook.Encode | src/hooks/useSearchParams.ts:23-43 | the written query has one pair per set single-valued field and one per selected specialty, and nothing else |
| SearchParamsHook.SpecialtyPairs | src/hooks/useSearchParams.ts:36-38 | one `specialty` pair per selected name, in selection order |
| SearchParamsHook.AppendSpecialties | src/hooks/useSearchParams.ts:36-38 | the `forEach` loop appends exactly one `specialty` pair per name, in order, after what was there |
| SearchParamsHook.BuildQuery | src/hooks/useSearchParams.ts:23-43 | the `set`/`delete`/`append` loop builds exactly the query `Encode` describes |
| SearchParamsHook.EncodeGetAll | src/hooks/useSearchParams.ts:25-43 | the values the written query holds under each key: a single-valued field only when non-empty, `specialty` as the full list |
| SearchParamsHook.GetIsFirstOfGetAll | src/hooks/useSearchParams.ts:9 | `get` returns the first of the values `getAll` returns |
| SearchParamsHook.GetEncoded | src/hooks/useSearchParams.ts:9-12 | a single-valued field reads back from the written query as its value, or `""` when it was empty or undefined |
| SearchParamsHook.DecodeEncode | src/hooks/useSearchParams.ts:6-43 | round trip: decoding the written query gives the state back, with undefined fields as `""`/`[]`, specialty duplicates and order kept |
| SearchParamsHook.EncodeShape | src/hooks/useSearchParams.ts:25-43 | keys come in the order search, consultationType, specialty..., sortBy, and no single-valued pair is empty |
| SearchParamsHook.MergeIdempotent | src/hooks/useSearchParams.ts:20 | applying the same partial state twice equals applying it once |
| SearchParamsHook.MergeCompose | src/hooks/useSearchParams.ts:20 | two merges in a row equal one merge with the merged partial state |
| SearchParamsHook.MergeFields | src/hooks/useSearchParams.ts:20 | each field the partial defines (even `""` or `[]`) replaces the old one; the others are kept; an empty partial changes nothing |
| SearchParamsHook.Store.constructor | src/hooks/useSearchParams.ts:16 | on load the state is the decoded location, which is the only history entry |
| SearchParamsHook.Store.Update | src/hooks/useSearchParams.ts:19-47 | the state becomes the merged state and exactly one entry, its encoding, is pushed after the current one; the state still agrees with the entry shown |
| SearchParamsHook.Store.HandlePopState | src/hooks/useSearchParams.ts:51-53 | the state becomes the decoded entry being shown; history is untouched |
| SearchParamsHook.Store.Traverse | src/hooks/useSearchParams.ts:50-57 | back/forward to an existing entry decodes it without changing the history; a step outside the history changes nothing |
| Text.Lower | src/components/DoctorList.tsx:15 | lower-casing keeps the length, maps each character on its own, and leaves no upper-case ASCII letter, so lower-casing again changes nothing |
| Text.Contains | src/components/DoctorList.tsx:17-21 | `includes`: the empty string occurs in every string, and a string occurring in another is no longer than it |
| Text.ContainsItself | src/components/DoctorSearch.tsx:62-65 | every string contains itself |
| Text.TrimStart | src/components/DoctorSearch.tsx:22 | trimming the start removes a prefix made only of whitespace and leaves a string that does not start with whitespace |
| Text.IsBlank | src/components/DoctorSearch.tsx:22 | `trim().length === 0`: the empty string is blank, and a blank string starts and ends with whitespace |
| Text.BlankIsTrimmedAway | src/components/DoctorSearch.tsx:22 | a string is blank exactly when trimming its start leaves nothing |
| Text.StrLess | src/components/FilterPanel.tsx:25 | the default string order puts the empty string before every other string and nothing before it |
| Text.StrLessIrreflexive | src/components/FilterPanel.tsx:25 | the default string order is irreflexive |
| Text.StrLessTransitive | src/components/FilterPanel.tsx:25 | the default string order is transitive |
| Text.StrLessTotal | src/components/FilterPanel.tsx:25 | any two different strings are ordered one way or the other |
| Seqs.Keep | src/components/DoctorList.tsx:16 | `filter` never lengthens the list |
| Seqs.KeepCounts | src/components/DoctorList.tsx:16 | `filter` keeps each passing element as often as it occurs and drops the rest |
| Seqs.KeepMembers | src/components/DoctorList.tsx:16 | an element is kept iff it is in the list and passes |
| Seqs.KeepCommutes | src/components/DoctorList.tsx:14-40 | two filter stages can run in either order |
| Seqs.KeepMonotone | src/components/DoctorList.tsx:34-40 | a weaker filter keeps a superset, and the stronger one's result is the weaker one's filtered again |
| DoctorList.TextMatch | src/components/DoctorList.tsx:17-22 | an empty (lower-cased) term matches every record |
| DoctorList.ModeMatch | src/components/DoctorList.tsx:28-30 | a record offering both modes matches every mode; a record offering neither matches exactly the unknown modes |
| DoctorList.SpecialtyMatch | src/components/DoctorList.tsx:36-38 | an empty selection, or a record without specialties, never matches |
| DoctorList.Filtered | src/components/DoctorList.tsx:12-40 | a record is in the result iff it is an input record passing every active filter |
| DoctorList.StageOrderIrrelevant | src/components/DoctorList.tsx:14-40 | each of the six orders of the three stages gives the same list |
| DoctorList.UnknownModeFailsOpen | src/components/DoctorList.tsx:26-32 | a mode other than the two known ones removes nothing |
| DoctorList.KnownModesTestTheirFlag | src/components/DoctorList.tsx:28-29 | "Video Consult" keeps exactly the matching records with the video flag, "In Clinic" those with the clinic flag |
| DoctorList.AddingSpecialtyNeverShrinks | src/components/DoctorList.tsx:34-40 | with a non-empty selection, adding a name only adds records |
| DoctorList.FirstSpecialtyCanShrink | src/components/DoctorList.tsx:34-40 | from an empty selection, selecting one name can drop a record |
| DoctorList.DigitsOf | src/components/DoctorList.tsx:45 | removing the non-digits leaves only digits, each digit as often as in the input, and no other character |
| DoctorList.DigitsOfIsKeep | src/components/DoctorList.tsx:45 | removing the non-digits is the generic filter with the digit test, so the digits keep their order |
| DoctorList.LeadingDigits | src/components/DoctorList.tsx:51 | the longest digit prefix: digits only, followed by a non-digit or the end |
| DoctorList.FirstToken | src/components/DoctorList.tsx:51 | `split(' ')[0]`: the prefix before the first space, containing no space |
| DoctorList.ParseInt | src/components/DoctorList.tsx:45 | `parseInt`: a string without any digit gives NaN (None), and a negative result needs a minus sign in the string |
| DoctorList.ParseDigits | src/components/DoctorList.tsx:45 | `parseInt` of a non-empty digit string is its decimal value |
| DoctorList.FeeAmount | src/components/DoctorList.tsx:45 | the fee amount is the number the fee's digits spell, never negative, and missing iff there is no digit |
| DoctorList.ExperienceYears | src/components/DoctorList.tsx:51 | an experience whose first word is all digits has that number of years; one without any digit has none |
| DoctorList.SortKeyOf | src/components/DoctorList.tsx:42-55 | the fee sort is chosen iff `sortBy` is `fees`, the experience sort iff it is `experience` |
| DoctorList.Rank | src/components/DoctorList.tsx:43-54 | the fee rank is the fee's digit value (0 without digits), never negative; the experience rank is the negated years, so more experience sorts first, and 0 when the years cannot be read |
| DoctorList.GetFilteredDoctors | src/components/DoctorList.tsx:11-59 | without a known sort key the result is exactly `Filtered` in input order; with one it is a stable sort of `Filtered` by fee ascending or experience descending; membership is the conjunction of the active filters |
| DoctorList.SortedCopy | src/components/DoctorList.tsx:43-55 | sorting a copy yields a stable sort of the filtered list by the chosen key |
| DoctorList.SameMembers | src/components/DoctorList.tsx:44 | a permutation has the same members |
| Sorting.InsertLeft | src/components/DoctorList.tsx:44 | one insertion step extends the sorted prefix, permutes the array, and keeps the order among equal keys |
| Sorting.StableSort | src/components/DoctorList.tsx:44-54 | the array ends sorted by the key, a permutation of the input, with equal keys in input order |
| DoctorSearch.SuggestionFilter | src/components/DoctorSearch.tsx:23-30 | for non-empty text the suggestion test is exactly the list's text stage for that text |
| DoctorSearch.Suggestions | src/components/DoctorSearch.tsx:21-38 | at most three suggestions, and none for blank text |
| DoctorSearch.SuggestionsLeadTheList | src/components/DoctorSearch.tsx:23-32 | for non-blank text the suggestions are the first min(3, k) records of the list that committing the text alone shows, so each is in that list |
| DoctorSearch.SelectedRecordPassesTextFilter | src/components/DoctorSearch.tsx:62-65 | a record whose name is the committed search passes the text filter |
| DoctorSearch.SearchBox.constructor | src/components/DoctorSearch.tsx:16-18 | the box starts from the committed search, and the suggestions are shown iff it is not blank |
| DoctorSearch.SearchBox.Recompute | src/components/DoctorSearch.tsx:21-38 | the suggestions become those of the current text, shown iff the text is not blank |
| DoctorSearch.SearchBox.InputChange | src/components/DoctorSearch.tsx:53-55 | the box takes the typed text; a changed text recomputes and shows the suggestions iff it is not blank |
| DoctorSearch.SearchBox.Search | src/components/DoctorSearch.tsx:57-60 | only `search` changes, to the given or the typed text; one history entry is pushed; suggestions are hidden |
| DoctorSearch.SearchBox.SuggestionClick | src/components/DoctorSearch.tsx:62-65 | the box and the committed search both become the record's name; exactly one history entry, the encoded state, is pushed after the current one; the suggestions are shown again iff the text changed and is not blank |
| DoctorSearch.SearchBox.KeyPress | src/components/DoctorSearch.tsx:67-71 | Enter commits the typed text, pushes exactly one history entry (the encoded state) and hides the suggestions; any other key changes nothing |
| DoctorSearch.SearchBox.Focus | src/components/DoctorSearch.tsx:84 | focus shows the suggestions iff the text is not blank, and never hides them |
| FilterPanel.NoRepeatsApart | src/components/FilterPanel.tsx:17 | a name occurring once is at no two positions |
| FilterPanel.CollectNames | src/components/FilterPanel.tsx:17-23 | the names collected are distinct and are exactly the offered ones |
| FilterPanel.MoveLeftIncreasing | src/components/FilterPanel.tsx:25 | one insertion move keeps the sorted prefix strictly increasing |
| FilterPanel.InsertName | src/components/FilterPanel.tsx:25 | one insertion step extends the strictly increasing prefix and permutes the array |
| FilterPanel.SortNames | src/components/FilterPanel.tsx:25 | sorting distinct names leaves them strictly increasing and permuted |
| FilterPanel.AllSpecialties | src/components/FilterPanel.tsx:16-26 | the catalogue is strictly increasing in the default string order, and a name is in it iff some record offers it |
| FilterPanel.OfferedNameKeepsSomeone | src/components/FilterPanel.tsx:121-130 | selecting any catalogue name alone leaves at least one record |
| FilterPanel.WithChecked | src/components/FilterPanel.tsx:39 | checking appends the name after the unchanged list |
| FilterPanel.WithoutChecked | src/components/FilterPanel.tsx:41 | unchecking removes every occurrence of the name and keeps every other name's count |
| FilterPanel.UncheckKeepsOrder | src/components/FilterPanel.tsx:41 | unchecking works piece by piece, so the rest keep their order; an absent name changes nothing |
| FilterPanel.CheckThenUncheck | src/components/FilterPanel.tsx:39-41 | checking and then unchecking a name not in the list restores the list |
| FilterPanel.SpecialtyChange | src/components/FilterPanel.tsx:34-45 | the checkbox patch defines only the selection, which lists the name iff the box was checked |
| FilterPanel.ConsultationTypeChange | src/components/FilterPanel.tsx:30-32 | merging the mode patch over any state sets the mode and keeps every other field |
| FilterPanel.SortChange | src/components/FilterPanel.tsx:47-49 | merging the sort patch over any state sets the sort and keeps every other field |
| FilterPanel.ClearAll | src/components/FilterPanel.tsx:83-87 | merging the Clear All patch over any state keeps the search and empties the mode, the selection and the sort |
| FilterPanel.IsSpecialtyChecked | src/components/FilterPanel.tsx:129 | with no selection defined, no specialty box is checked |
| FilterPanel.IsRadioChecked | src/components/FilterPanel.tsx:99-156 | a checked radio's value is the field's text, and a radio with a non-empty value is checked iff the field is set to it (lines 99, 110, 145 and 156) |
| FilterPanel.SpecialtyChangeState | src/components/FilterPanel.tsx:34-45 | a checkbox change touches only the selection; the clicked box takes the new state; every other box keeps its own |
| FilterPanel.CheckThenUncheckState | src/components/FilterPanel.tsx:34-45 | checking then unchecking an unchecked box restores the state, an absent selection becoming `[]` |
| FilterPanel.RadioChangeState | src/components/FilterPanel.tsx:30-49 | the mode and sort handlers set only their own field, and exactly the clicked radio is checked |
| FilterPanel.ClearAllState | src/components/FilterPanel.tsx:83-87 | Clear All keeps `search`, clears the rest, unchecks every control, leaves only the text filter active, and leaves the list unsorted |
| DoctorCard.ConsultationBadges | src/components/DoctorCard.tsx:11-13 | "Video Consult" shows iff the record has the video flag, "In Clinic" iff it has the clinic flag; at most two, no repeats, video first |
| DoctorCard.ModeFilterShowsBadge | src/components/DoctorCard.tsx:12-13 | a record kept by a known mode has that mode's flag, so its card shows that badge |
| Scenarios.RupeeFee | src/components/DoctorList.tsx:45 | a fee written as the rupee sign followed by digits is read as the number those digits spell |
| Scenarios.RupeeRank | src/components/DoctorList.tsx:44-47 | a record whose fee is the rupee sign followed by digits ranks by that number in the fee sort |
| Scenarios.RupeeHundreds | src/components/DoctorList.tsx:44-47 | a fee of the rupee sign, one digit and two zeros ranks as that many hundreds |
| Scenarios.FeeRanks | src/components/DoctorList.tsx:45 | the two example fees rank 500 and 300 |
| Scenarios.SortedPair | src/components/DoctorList.tsx:44 | two elements with different keys have one sorted order |
| Scenarios.SortByFees | src/components/DoctorList.tsx:43-48 | sorting the example records by fee gives the cheaper one first |
| Scenarios.VideoConsultOnly | src/components/DoctorList.tsx:26-32 | "Video Consult" keeps only the example record with the video flag |
| Scenarios.DecodeSpecialtiesAndSort | src/hooks/useSearchParams.ts:6-14 | a query with two specialties and a sort decodes to the complete state with both names in order |
| Scenarios.ClearingSpecialtiesDropsKey | src/hooks/useSearchParams.ts:33-39 | clearing the selection writes no `specialty` pair, and it decodes back as `[]` |
| Scenarios.SearchMatchesSpecialty | src/components/DoctorList.tsx:14-24 | "cardio" finds a record through its specialty "Cardiology" |

## Left out

- Fetching the records, the loading and error states and the page layout
  (`src/App.tsx`): network I/O with no logic of its own. The record list is a
  parameter.
- All rendering and styling. This includes the open/closed toggle of the
  collapsible filter sections and the document-wide "click outside" listener
  that hides the suggestions.
- `window.location`, `window.history` and percent-encoding of the query
  string. A query is a list of key/value pairs and the history is a list of
  queries. `Store.Traverse` reaches only entries pushed since the page loaded.
  A zero-step traversal, which reloads the page, is not modelled.
- Partial states cannot carry a field that is present but `undefined`. Every
  handler in the code writes a defined value, so no reachable behaviour is
  lost.
- Text.Lower: lower-cases ASCII letters only, not the full Unicode mapping of
  `toLowerCase`.
- Text.StrLess: compares whole characters. The default sort compares UTF-16
  code units, which gives a different order only for characters outside the
  Basic Multilingual Plane.
- DoctorList.ParseInt: reads decimal digits only. The `0x` prefix that
  `parseInt` accepts without a radix is not modelled, and neither is the loss
  of precision for numbers beyond 2^53.
- DoctorList.Rank: a fee with no digit, or an experience whose first word has
  no leading number, counts as 0. The code compares NaN there, and the
  resulting order depends on the engine.
- React's render cycle: state updates are applied at once and in program
  order, and the store always holds the latest state. A handler that reads a
  stale snapshot of the state is not modelled.
- The unused experience-years value computed in the doctor card.
