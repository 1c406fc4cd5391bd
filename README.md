# AmbassadorHub view state in Dafny

AmbassadorHub renders a searchable, paginated list of ambassador "programs"
in the browser. All of its logic lives in `static/script.js`: the program list
is sorted by name once at start-up, then a search box filters it and numbered
buttons page through it, ten programs to a page. Each row shows coloured
category tags and a status badge, and a counter reports how many programs
match. This project models that view-state derivation and proves what it
promises. It models the data and leaves out the DOM nodes built from it.

Modules, one per concern of the script:

- `Wrappers`: `Option`, for fields that JavaScript may leave `undefined`.
- `JsString`: the String built-ins the script calls: `toLowerCase`,
  `toUpperCase`, `trim`, `includes`, `startsWith`, `replace`, and the decimal
  printing of template literals. Strings are sequences of Unicode code points
  (Dafny `char`s).
- `JsNumber`: ToInt32, `<<` and `Math.abs` on integer values, for the colour hash.
- `Programs`: the program record, category normalisation, and the start-up sort.
- `CategoryStyles`: `getCategoryStyles`. The palette lookup, the hash loop
  (as a method proved against a recursive specification function), the hue,
  and the background colour.
- `Search`: `handleSearch`'s search term, match predicate and filter.
- `Pagination`: the page slice with JavaScript `slice` semantics, `totalPages`,
  and the pagination buttons.
- `Labels`: the counter text and the status badge.
- `View`: class `ViewState`. It holds `allPrograms` (a `const`, since the
  script never reassigns it), `filteredPrograms` and `currentPage`. Its
  methods are the search handler, the pagination click handler and the
  button-building loop.
  Its invariant: the filtered list is drawn from the master list in order,
  and the current page is 1 or one of the pages the pagination bar offers.

`getCategoryStyles` is a function in the model, so it gives the same colours
for the same label every time. Start-up and search need nothing from their
inputs: a missing program list is read as the empty list, and every query is
accepted. Only the pagination click handler requires that its page number is
between 1 and `totalPages`. That always holds, because the script creates
buttons only for those pages.

Two facts about static/script.js that the model keeps:

- The pagination bar is empty whenever `totalPages <= 1`, so it is also
  empty for 1 to 10 results.
- Category normalisation is the same expression at all three call sites
  (rows, search and modal). The model defines it once, as `Categories`.

## Model

| member | source | states |
|---|---|---|
| `JsString.ToLower` | static/script.js:22 | lower-casing keeps the length, leaves no ASCII capital, and changes only ASCII capitals, each to its small letter |
| `JsString.ToLowerIdempotent` | static/script.js:170-174 | lower-casing an already lower-cased name, category or query changes nothing |
| `JsString.ToUpper` | static/script.js:137 | upper-casing keeps the length, leaves no ASCII small letter, and changes only ASCII small letters |
| `JsString.TrimStart` | static/script.js:22 | the result is a suffix of the input that does not start with white space, and everything dropped is white space |
| `JsString.TrimEnd` | static/script.js:22 | the result is a prefix of the input that does not end with white space, and everything dropped is white space |
| `JsString.Trim` | static/script.js:170 | the trimmed text neither starts nor ends with white space, it is empty exactly when the input is all white space, and it is the input with only white space cut from each end |
| `JsString.Includes` | static/script.js:172 | `includes` is true exactly when the needle occurs at some index of the haystack |
| `JsString.IncludesEmpty` | static/script.js:172 | every string includes the empty term |
| `JsString.IndexOfFrom` | static/script.js:35 | the search finds the first occurrence at or after the start index, or reports that there is none |
| `JsString.ReplaceFirst` | static/script.js:35 | `replace` with a string pattern replaces the first occurrence only, and leaves a string without an occurrence unchanged |
| `JsString.NatToString` | static/script.js:31 | a printed number is a non-empty run of decimal digits with no leading zero |
| `JsString.ParseNatToString` | static/script.js:165 | reading back the printed digits of a number gives the number |
| `JsString.NatToStringInjective` | static/script.js:165 | different numbers print differently |
| `JsNumber.ToInt32` | static/script.js:28 | ToInt32 yields a 32-bit value congruent to its argument modulo 2^32 |
| `JsNumber.ToInt32Unique` | static/script.js:28 | that 32-bit value is the only one congruent to the argument |
| `JsNumber.ShiftLeft` | static/script.js:28 | `hash << 5` is a 32-bit value congruent to 32 times `hash` modulo 2^32 |
| `JsNumber.ShiftLeftNoWrap` | static/script.js:28 | when the product fits in 32 bits, the shift is plain multiplication |
| `JsNumber.Abs` | static/script.js:30 | `Math.abs` returns the value or its negation, and never a negative number |
| `Programs.Categories` | static/script.js:108 | a lone category string is read as the one-element list holding it, and an array is read as it is |
| `Programs.OneIsSingletonList` | static/script.js:173 | a lone category string and the one-element array holding it normalise to the same list |
| `Programs.InsertByName` | static/script.js:2-4 | one insertion step of the sort adds exactly the one program to the list's contents |
| `Programs.InsertByNameSorted` | static/script.js:2-4 | inserting into a list sorted by lower-cased name keeps it sorted |
| `Programs.SortByName` | static/script.js:2-4 | the start-up sort returns a permutation of the input, sorted by lower-cased name under any total-preorder comparator |
| `Programs.CodeUnitIsTotalPreorder` | static/script.js:3 | character-code order is one comparator that meets the sort's requirement |
| `CategoryStyles.PaletteColoursAreHex` | static/script.js:9-19 | every palette colour is a seven-character hex colour, so none starts with "hsl" |
| `CategoryStyles.HashStep` | static/script.js:28 | one step of the hash moves the accumulator by at most 2^31 plus the largest code point |
| `CategoryStyles.StringHash` | static/script.js:26-29 | the hash of a label is bounded by its length times the per-step bound |
| `CategoryStyles.HashIsExactAsDouble` | static/script.js:26-29 | for labels shorter than 2^21 characters the accumulator stays below 2^53, so the script's double arithmetic is exact |
| `CategoryStyles.CategoryHash` | static/script.js:26-29 | the hash loop computes the specification hash of the whole label |
| `CategoryStyles.Hue` | static/script.js:30 | the hue is in [0, 360) |
| `CategoryStyles.GetCategoryStyles` | static/script.js:21-39 | `getCategoryStyles` returns the style the specification assigns to the label |
| `CategoryStyles.HslBackground` | static/script.js:34-35 | the background of an hsl colour is the same colour with opacity 0.1, because the only "40%)" is at its end |
| `CategoryStyles.PaletteHit` | static/script.js:22-23 | a label whose lower-cased, trimmed key is in the palette gets the palette colour on that colour plus "1A" |
| `CategoryStyles.PaletteMiss` | static/script.js:25-36 | any other label gets `hsl(h, 70%, 40%)` with h = abs(hash of the raw label) mod 360, on the same colour at opacity 0.1 |
| `CategoryStyles.CaseMattersOnMiss` | static/script.js:22-30 | "Ab" and "ab" share a palette key that the palette lacks, yet get different hues, because the hash reads the raw label |
| `CategoryStyles.PaletteLookupAsWritten` | static/script.js:23 | the plain-object lookup finds a palette colour for palette keys, and that colour is the palette's entry; keys inherited from Object.prototype give a non-string; every other key gives `undefined` |
| `CategoryStyles.AsWrittenAgreesOffInheritedKeys` | static/script.js:21-39 | for every key not inherited from Object.prototype, the code as written agrees with the own-property model |
| `CategoryStyles.ConstructorLabelThrows` | static/script.js:23-36 | the label "Constructor" makes the code as written throw a TypeError, where the own-property lookup gives it a hashed hue |
| `Search.BlankQueryGivesEmptyTerm` | static/script.js:170 | an empty or all-white-space query gives the empty search term |
| `Search.AnyIncludes` | static/script.js:174 | `some` is true exactly when some lower-cased category contains the term |
| `Search.Filter` | static/script.js:171-176 | the filter keeps at most the programs it is given, and every program it keeps matches the term |
| `Search.FilterIsSubsequence` | static/script.js:171-176 | the filtered list is the master list with some programs deleted and the rest in their original order |
| `Search.FilterCounts` | static/script.js:171-176 | each matching program appears in the result as often as in the input, and each non-matching program not at all |
| `Search.FilterMembership` | static/script.js:171-176 | a program is in the result exactly when it is in the input and its name or one of its categories contains the term |
| `Search.FilterAllMatch` | static/script.js:171-176 | when every program matches, the filter returns the list unchanged |
| `Search.FilterNoneMatch` | static/script.js:171-176 | when no program matches, the filter returns the empty list |
| `Search.BlankQueryKeepsAll` | static/script.js:170-176 | an empty or blank query keeps the whole list |
| `Pagination.JsSlice` | static/script.js:79 | `slice` never fails; it returns the elements from the resolved start index up to the resolved end index, and none when the end does not lie past the start |
| `Pagination.PageSlice` | static/script.js:78-79 | a page never holds more than ten programs, whatever the page number |
| `Pagination.TotalPages` | static/script.js:203 | `totalPages` is the least number of ten-program pages that hold the list (its ceiling) |
| `Pagination.PageSliceFromStart` | static/script.js:78-79 | from page 1 on, a page is the ten programs from `(page-1)*10`, cut at the end of the list, and empty once that start is at or past the end |
| `Pagination.PageSize` | static/script.js:78-79 | every page in range is non-empty, pages before the last hold ten programs, and the last holds the remainder |
| `Pagination.LastPageSize` | static/script.js:78-79 | the last page holds `len - (totalPages - 1) * 10` programs |
| `Pagination.PageOfIndex` | static/script.js:78-79 | program i of the filtered list is item i mod 10 of page i div 10 + 1 |
| `Pagination.ButtonsNumberThePages` | static/script.js:203-209 | there are no buttons when `totalPages <= 1`; otherwise there are `totalPages` buttons, numbered 1 to `totalPages` in increasing order |
| `Pagination.OneActiveButton` | static/script.js:209 | exactly the current page's button is active when the current page is between 1 and `totalPages` |
| `Pagination.NoActiveButtonOutOfRange` | static/script.js:209 | no button is active when the current page has no button |
| `Labels.CounterText` | static/script.js:164-165 | the counter reads "1 active opportunity found" for one program, and "n active opportunities found" otherwise |
| `Labels.DigitRun` | static/script.js:165 | the counted digit run is all digits and stops at the first non-digit |
| `Labels.CounterTextReadsBack` | static/script.js:164-165 | the number at the start of the counter reads back as the count it reports |
| `Labels.CounterTextInjective` | static/script.js:164-165 | different counts give different counter texts |
| `Labels.StatusText` | static/script.js:137 | the badge text is never empty and has no small letters; it is "UNKNOWN" for a missing or empty status, and the upper-cased status otherwise |
| `Labels.ActiveBadge` | static/script.js:138 | the badge has class `status-active` exactly when the status upper-cases to "ACTIVE" |
| `View.ViewState.constructor` | static/script.js:2-7 | start-up sorts the supplied programs (none when absent) by lower-cased name, shows them all, and starts on page 1 |
| `View.ViewState.Search` | static/script.js:169-177 | `handleSearch` sets the filtered list to the filter of the master list by the lower-cased, trimmed query, resets the page to 1, and changes nothing else |
| `View.ViewState.SelectPage` | static/script.js:210-211 | a pagination click sets the current page to the button's number and keeps the state valid |
| `View.ViewState.VisiblePrograms` | static/script.js:78-79 | the rendered rows are at most ten consecutive programs of the filtered list, exactly the filtered list from `(currentPage-1)*10` to ten further or its end, none past the end, and at least one whenever the filtered list is non-empty |
| `View.ViewState.RenderPagination` | static/script.js:203-216 | the button loop builds exactly the specified buttons for the filtered list's length and the current page |

## Left out

- app/main.py is not part of this model. It is the FastAPI server: it reads the program JSON at start-up, caches it and renders the template. That is I/O and framework code.
- The `mousemove` handler (static/script.js:43-59) is not modelled. It does floating-point cursor arithmetic and sets CSS properties, which is cosmetic.
- DOM construction is not modelled: row nodes, logos and their `onerror` fallback, social links and icons, the modal (`openModal`, `closeModal`) and `createCategoryTag`. Only the data they display is modelled: the page slice, tag labels and colours, the counter and the badge.
- The `window.innerWidth` layout branch, the resize debounce with `setTimeout`, `window.scrollTo` and the event-listener wiring are not modelled. They are environment queries, timers and event plumbing.
- Programs.SortByName: the contract states sorted and a permutation, but not stability. The insertion does place equal keys in input order, as the stable `Array.prototype.sort` does.
- Programs.SortByName: `localeCompare` collation is not modelled. The sort takes any total-preorder comparator on lower-cased names, and `CodeUnitBefore` is one concrete instance.
- JsString.ToLower, JsString.ToUpper: case mapping covers ASCII letters only. Unicode case mapping is not modelled.
- Strings are sequences of Unicode code points, one `char` each. A character outside the Basic Multilingual Plane is two UTF-16 code units in JavaScript but one `char` here, so the hash takes one step with its code point where the script takes two with its surrogates. Lone surrogates, which JavaScript strings may hold, cannot occur in the model.
- CategoryStyles.StringHash: the hash is exact for labels shorter than 2^21 characters (`HashIsExactAsDouble`). Double rounding for longer labels is not modelled.
- Programs.Program keeps only name, category and status. A program without a `category` field, or with a non-string status, would throw in the script; the model requires a category and takes the status as an optional string.
- `Math.ceil(count / 10)` uses double division. The model uses integer ceiling, which is the same for every array length (below 2^32).

## Findings

| source | as written | input that shows it | evidently intended | confidence | as-written member | corrected member |
|---|---|---|---|---|---|---|
| static/script.js:23-36 | `categoryPalette[key]` is a plain-object lookup. A key inherited from Object.prototype (`constructor`, `__proto__`) yields a truthy non-string, the hash branch is skipped, and `color.startsWith` throws a TypeError, which aborts `renderPrograms` | a program whose category is "Constructor" (key "constructor") | only the palette's own keys are palette hits; any other label gets its hashed hue | high; not executed | `CategoryStyles.ConstructorLabelThrows` | `CategoryStyles.PaletteMiss` |
