# becket-search-ui: verified model of the search pages' own logic

This project models the parts of the Becket search front end that compute
something themselves, rather than hand work to the Searchkit SDK, React or
the Elastic UI library. It covers four parts:

- **The entities search URL codec** (`EntitiesSearch`, in
  `src/pages/EntitiesSearch.jsx`).
  - `stateToRoute` folds the five candidate route properties (query, sort,
    filters, size, from). It keeps a property only when its value is a
    non-empty array or a truthy non-array.
  - `routeToState` reads a route back and fills in the defaults "", [], 25
    and 0.
  - `postProcessRequest` adds a "published only" query to a request body
    that has none.
  - Proved: what the route contains, key by key. Decoding an encoded
    canonical state gives it back. Encoding is idempotent across a decode.
    The request rewrite is idempotent.
- **The letters search page's state** (`LettersSearchPage`, in
  `src/pages/LettersSearchPage/LettersSearchPage.jsx`).
  - The initial query, operator and sort are read from the URL parameters.
    The sort text `field_dir` is split on "_".
  - A column-header click changes the sort.
  - Three effects write the URL parameters back, each under its own
    condition. The sort effect also has a "mounted" flag.
  - The reset button.
  - The facet and applied-filter visibility tests.
  - The page is a class whose fields are the state the component keeps
    (`sortState`, the mounted ref, `operator`, `query`, the URL
    parameters, the date range).
- **The facet list** (`ListFacet`, in `src/components/ListFacet.jsx`).
  - Each entry's label is cleaned up (`Labels.Normalise`: trim, then every
    "_" becomes a space). On the "volume" facet it is replaced from the
    volume table.
  - An entry whose label cleans up to nothing gets no button.
  - The filter a button selects carries the raw label.
  - The "e_type" facet gets a tooltip.
  - The `ref.current` buffer of filter links is a class. It is truncated
    when the entries change and written by index when a link mounts.
- **The letter mentions list** (`LetterMentions`, in
  `src/components/LetterMentions.jsx`).
  - There is one group per key, headed by the cleaned-up key.
  - Each group's array is sorted in place by label. The sort is an
    insertion sort proved to leave the array sorted and a permutation of
    itself.
  - Every mention with a label becomes a link to `/entities/<id>`.

`Js` models the JavaScript values and built-ins the code relies on:
- truthiness, `||` and `Number(...)`;
- `toString`, `trim`, `replaceAll`, `split` and `endsWith`;
- object spread and property assignment in insertion order;
- `Array.prototype.filter`.

`Wrappers` holds `Option` and `Result`. A thrown `TypeError` is a `Failure`
value.

## Model

| member | source | states |
|---|---|---|
| `EntitiesSearch.RouteSize` | src/pages/EntitiesSearch.jsx:68 | the route's page size is always a non-zero number |
| `EntitiesSearch.CandidatesDistinct` | src/pages/EntitiesSearch.jsx:64-70 | the five route property names are distinct |
| `EntitiesSearch.CandidateValues` | src/pages/EntitiesSearch.jsx:64-70 | each candidate property holds the state's query, sortBy, filters, numeric size (or 25) and numeric from |
| `EntitiesSearch.ReduceIsFilter` | src/pages/EntitiesSearch.jsx:71-80 | with distinct keys, the fold appends exactly the properties that pass the keep test, in their order |
| `EntitiesSearch.StateToRoute` | src/pages/EntitiesSearch.jsx:62-81 | the route is the candidate list filtered by the keep test (non-empty array, or truthy non-array) |
| `EntitiesSearch.GetFilterKept` | src/pages/EntitiesSearch.jsx:73-77 | in a filtered distinct-key object, a key holds its value when that value is kept and is absent otherwise |
| `EntitiesSearch.RouteGet` | src/pages/EntitiesSearch.jsx:62-81 | each route key holds the candidate's value when it is kept, and is undefined otherwise |
| `EntitiesSearch.RouteHasNoEmptyValues` | src/pages/EntitiesSearch.jsx:71-80 | no route property is falsy or an empty array; every one is a candidate, so its name is one of the five |
| `EntitiesSearch.SizeAlwaysEmitted` | src/pages/EntitiesSearch.jsx:68 | `size` is always present: the page size when it reads as a non-zero number, else 25 |
| `EntitiesSearch.FromEmittedIffNonZero` | src/pages/EntitiesSearch.jsx:69-80 | `from` is present exactly when the page offset reads as a non-zero number, and then holds that number |
| `EntitiesSearch.RouteToState` | src/pages/EntitiesSearch.jsx:88-98 | the decoded query is "" or truthy, filters are [] or truthy, sortBy is the route's `sort`, and the page has a non-zero size and a numeric offset |
| `EntitiesSearch.RouteToStateFallsBack` | src/pages/EntitiesSearch.jsx:88-98 | a truthy route query or filters is kept and a falsy one becomes "" or []; a size or offset that does not read as a non-zero number (absent, zero, non-numeric text) becomes 25 or 0, and otherwise is that number |
| `EntitiesSearch.RouteToStateDefaults` | src/pages/EntitiesSearch.jsx:88-98 | each missing key decodes to its own default: query "", sort undefined, filters [], size 25, offset 0 |
| `EntitiesSearch.RouteToStateReadsText` | src/pages/EntitiesSearch.jsx:94-95 | a size and offset given as decimal text decode to the numbers they spell |
| `EntitiesSearch.UrlTextKeepsPage` | src/pages/EntitiesSearch.jsx:94-95 | turning the route's numbers into URL text does not change the decoded page |
| `EntitiesSearch.RouteValues` | src/pages/EntitiesSearch.jsx:62-81 | the route value of each of the five keys, written in terms of the state |
| `EntitiesSearch.RoundTrip` | src/pages/EntitiesSearch.jsx:62-98 | decoding the route of a canonical state gives that state back |
| `EntitiesSearch.DecodedRouteIsCanonical` | src/pages/EntitiesSearch.jsx:88-98 | whatever state is encoded, the decoded route is canonical |
| `EntitiesSearch.DecodedCandidates` | src/pages/EntitiesSearch.jsx:88-92 | decoding keeps a kept query, sort and filters, and turns an unkept one into an unkept default |
| `EntitiesSearch.DecodedPage` | src/pages/EntitiesSearch.jsx:93-96 | decoding keeps the route's page size, and its offset when the route carries one (else 0) |
| `EntitiesSearch.SameRoute` | src/pages/EntitiesSearch.jsx:71-80 | two states whose candidates agree wherever either is kept encode to the same route |
| `EntitiesSearch.EncodeIdempotent` | src/pages/EntitiesSearch.jsx:62-98 | encode, decode and encode again gives the first route |
| `EntitiesSearch.PostProcessRequest` | src/pages/EntitiesSearch.jsx:128-131 | a body with a truthy query is returned as is; otherwise the body's properties are kept in order and `query` becomes the published-only filter |
| `EntitiesSearch.PostProcessIdempotent` | src/pages/EntitiesSearch.jsx:128-131 | the rewritten request always has a truthy query, and rewriting it again changes nothing |
| `LettersSearchPage.ParamGet` | src/pages/LettersSearchPage/LettersSearchPage.jsx:78-83 | `get` answers exactly when `has` does, with a value the parameters hold under that name |
| `LettersSearchPage.ParamGetFirst` | src/pages/LettersSearchPage/LettersSearchPage.jsx:78-83 | `get` answers with the first pair of that name |
| `LettersSearchPage.InitialQuery` | src/pages/LettersSearchPage/LettersSearchPage.jsx:78-80 | the initial query is the `query` parameter, or "" when there is none |
| `LettersSearchPage.InitialOperator` | src/pages/LettersSearchPage/LettersSearchPage.jsx:81-83 | the initial operator is the `op` parameter, or "or" when there is none |
| `LettersSearchPage.DecodeSort` | src/pages/LettersSearchPage/LettersSearchPage.jsx:89-91 | the decoded direction is 1 or -1; the field is the longest underscore-free prefix of the text |
| `LettersSearchPage.DecodeSortBare` | src/pages/LettersSearchPage/LettersSearchPage.jsx:89-90 | text without an underscore is the whole field, sorted descending |
| `LettersSearchPage.DecodeSortAfterField` | src/pages/LettersSearchPage/LettersSearchPage.jsx:89-90 | after the first underscore, the direction is 1 exactly when the next piece is "asc" |
| `LettersSearchPage.SortTextRoundTrip` | src/pages/LettersSearchPage/LettersSearchPage.jsx:88-91 | `field_asc` and `field_desc` decode back to the sort they spell, for an underscore-free field |
| `LettersSearchPage.DecodeTitleDesc` | src/pages/LettersSearchPage/LettersSearchPage.jsx:89-91 | "title_desc" decodes to field "title", direction -1 |
| `LettersSearchPage.DecodeSortCutsField` | src/pages/LettersSearchPage/LettersSearchPage.jsx:89-91 | a field with its own underscore is cut at it: "date_sent_asc" decodes to "date", direction -1 |
| `LettersSearchPage.InitialSort` | src/pages/LettersSearchPage/LettersSearchPage.jsx:87-98 | with no `sort` parameter the sort is date ascending, otherwise the decoded parameter; the direction is 1 or -1 |
| `LettersSearchPage.NextSort` | src/pages/LettersSearchPage/LettersSearchPage.jsx:105-114 | a click sorts on the clicked field |
| `LettersSearchPage.NextSortKeepsDirection` | src/pages/LettersSearchPage/LettersSearchPage.jsx:105-114 | the direction stays 1 or -1; it flips on the sorted field and is 1 on another |
| `LettersSearchPage.NextSortTwice` | src/pages/LettersSearchPage/LettersSearchPage.jsx:105-114 | two clicks on the sorted field restore the sort; two clicks on another field leave it descending |
| `LettersSearchPage.SortWriteNeededIff` | src/pages/LettersSearchPage/LettersSearchPage.jsx:139-142 | the sort effect's condition holds exactly when `get("sort")` is not the encoded sort |
| `LettersSearchPage.OperatorWriteNeededIff` | src/pages/LettersSearchPage/LettersSearchPage.jsx:156-161 | the operator effect's condition holds exactly when the operator is non-empty and differs from the URL's operator (or "or") |
| `LettersSearchPage.InitialOperatorIsQuiet` | src/pages/LettersSearchPage/LettersSearchPage.jsx:156-161 | the operator read from the URL never makes the operator effect write |
| `LettersSearchPage.PageWriteNeeded` | src/pages/LettersSearchPage/LettersSearchPage.jsx:176-191 | the page effect leaves the URL as it is for an offset of 0 or none, and for a non-zero numeric offset writes the route of the paged request at that offset |
| `LettersSearchPage.SortRequest` | src/pages/LettersSearchPage/LettersSearchPage.jsx:144-150 | the request holds the query, sortBy, scope and operator given, and every other key of the variables |
| `LettersSearchPage.PagedRequest` | src/pages/LettersSearchPage/LettersSearchPage.jsx:163-172 | the paged request is the sort request with `page` replaced by `{ from }` |
| `LettersSearchPage.SearchRequest` | src/pages/LettersSearchPage/LettersSearchPage.jsx:202-211 | the search box's request holds the scope, operator and typed query given, and `page` is `{ from: 0 }` |
| `LettersSearchPage.SearchRequestKeepsOthers` | src/pages/LettersSearchPage/LettersSearchPage.jsx:202-211 | every key the search box does not set is that of the variables |
| `LettersSearchPage.SearchRequestKeepsSort` | src/pages/LettersSearchPage/LettersSearchPage.jsx:202-211 | unlike the effects' requests, a search passes on the variables' `sortBy` and not the page's sort state |
| `LettersSearchPage.PagedRequestDropsSize` | src/pages/LettersSearchPage/LettersSearchPage.jsx:169-171 | the new page object carries the offset and no page size |
| `LettersSearchPage.LettersSearch.constructor` | src/pages/LettersSearchPage/LettersSearchPage.jsx:77-98 | the first render takes the query, operator and sort from the URL, and the mounted flag is down |
| `LettersSearchPage.LettersSearch.OnSort` | src/pages/LettersSearchPage/LettersSearchPage.jsx:105-114 | the sort becomes the click's transition of the old sort, and the direction stays 1 or -1 |
| `LettersSearchPage.LettersSearch.SetOperator` | src/pages/LettersSearchPage/LettersSearchPage.jsx:215 | the operator becomes the one chosen |
| `LettersSearchPage.LettersSearch.SortEffect` | src/pages/LettersSearchPage/LettersSearchPage.jsx:132-154 | the first run only raises the mounted flag; later runs write the sort request's route when the URL's sort differs |
| `LettersSearchPage.LettersSearch.OperatorEffect` | src/pages/LettersSearchPage/LettersSearchPage.jsx:155-175 | when the operator differs from the URL's, the route of the paged request at offset 0 is written; otherwise nothing changes |
| `LettersSearchPage.LettersSearch.PageEffect` | src/pages/LettersSearchPage/LettersSearchPage.jsx:176-191 | a truthy offset writes the route of the paged request at that offset; otherwise nothing changes |
| `LettersSearchPage.LettersSearch.OnSearch` | src/pages/LettersSearchPage/LettersSearchPage.jsx:200-213 | the query becomes the typed text and the URL becomes the route of the search box's request |
| `LettersSearchPage.LettersSearch.Reset` | src/pages/LettersSearchPage/LettersSearchPage.jsx:282-296 | the query is "", the date range is null to null, and the URL is the route of `{ filters: [], query: "" }` |
| `LettersSearchPage.ListedFacets` | src/pages/LettersSearchPage/LettersSearchPage.jsx:231-236 | a TypeError exactly when some facet is null or undefined; otherwise the facets, in order, whose `display` is truthy and not "CustomDateFacet" |
| `LettersSearchPage.ListedFacetsMembers` | src/pages/LettersSearchPage/LettersSearchPage.jsx:231-236 | with every facet present, a facet is listed exactly when it is one of the facets and its `display` is truthy and not "CustomDateFacet" |
| `LettersSearchPage.ListedFacetsAppend` | src/pages/LettersSearchPage/LettersSearchPage.jsx:231-236 | listing works piece by piece: a list fails exactly when a piece fails, and otherwise the listed facets keep their order |
| `LettersSearchPage.ShownFilters` | src/pages/LettersSearchPage/LettersSearchPage.jsx:260-264 | a TypeError exactly when some identifier is not text; otherwise the shown filters are those whose identifier does not end in "_date" |
| `LettersSearchPage.ShownFiltersAppend` | src/pages/LettersSearchPage/LettersSearchPage.jsx:260-264 | filtering applied filters works piece by piece: a list fails exactly when a piece fails, and otherwise the shown filters keep their order and multiplicity |
| `LettersSearchPage.DateFiltersHidden` | src/pages/LettersSearchPage/LettersSearchPage.jsx:260-264 | an applied filter is hidden exactly when its identifier ends in "_date" |
| `Labels.Normalise` | src/components/ListFacet.jsx:31 | the cleaned-up text has no underscore and is no longer than the original |
| `Labels.NormaliseEmpty` | src/components/LetterMentions.jsx:24 | text cleans up to nothing exactly when it is all white space |
| `Labels.NormaliseClean` | src/components/ListFacet.jsx:31 | text without surrounding white space or underscores is left unchanged |
| `Labels.NormaliseNotIdempotent` | src/components/LetterMentions.jsx:24 | "_x" cleans up to " x", and cleaning that again gives "x" |
| `ListFacet.VolumeSubstitution` | src/components/ListFacet.jsx:31-39 | only on the "volume" facet, and only for a non-empty cleaned label the table has, is the text replaced by the table's name |
| `ListFacet.Tooltip` | src/components/ListFacet.jsx:41-50 | a tooltip exactly on the "e_type" facet, showing the raw label or its entity-type entry |
| `ListFacet.TooltipChoice` | src/components/ListFacet.jsx:45 | the tooltip is the entity-type entry when it is truthy, else the raw label |
| `ListFacet.Slot` | src/components/ListFacet.jsx:51-81 | no button exactly when the text is empty; a button filters on the raw label and shows the count, text and tooltip |
| `ListFacet.BlankLabelNoButton` | src/components/ListFacet.jsx:31-52 | outside the "volume" facet, an entry gets no button exactly when its label text is all white space |
| `ListFacet.RenderEntries` | src/components/ListFacet.jsx:30-82 | a TypeError exactly when some label is undefined or null; otherwise one slot per entry |
| `ListFacet.RenderEntriesAligned` | src/components/ListFacet.jsx:30 | slot `i` is entry `i`'s slot |
| `ListFacet.RenderEntriesAppend` | src/components/ListFacet.jsx:30-82 | the slots of two lists joined are the slots of each, in order |
| `ListFacet.Render` | src/components/ListFacet.jsx:84-95 | a null facet renders nothing; a facet renders its title with its slots, or fails exactly when a label is missing |
| `ListFacet.SlotFiltersRawLabel` | src/components/ListFacet.jsx:71-74 | the button in slot `i` filters on entry `i`'s raw label, not the shown text |
| `ListFacet.LinkBuffer.constructor` | src/components/ListFacet.jsx:24 | the buffer starts empty |
| `ListFacet.LinkBuffer.OnEntriesChanged` | src/components/ListFacet.jsx:26-28 | the buffer is cut to at most the entry count, keeping its prefix; without a facet it is unchanged; a facet without entries throws |
| `ListFacet.LinkBuffer.Attach` | src/components/ListFacet.jsx:68-70 | slot `i` holds the link, the buffer is padded with empty slots up to it, and every other slot is unchanged |
| `ListFacet.ButtonsEndIsLast` | src/components/ListFacet.jsx:67-70 | one past the last slot holding a button, or 0: no later slot holds one |
| `ListFacet.LinkBuffer.AttachAll` | src/components/ListFacet.jsx:67-70 | after mounting, the buffer is as long as the larger of its old length and one past the last button; every button's click reaches its own filter, and the other slots are unchanged or empty |
| `ListFacet.LinkBuffer.Commit` | src/components/ListFacet.jsx:26-82 | after a render and the entries effect, the buffer is no longer than the entries and each button's click reaches its entry's raw-label filter |
| `ListFacet.LinkBuffer.ClickTarget` | src/components/ListFacet.jsx:62-64 | a click succeeds exactly when the slot holds a link |
| `LetterMentions.SortedIsPairwise` | src/components/LetterMentions.jsx:27 | for a transitive comparator, neighbours in order means every pair is in order |
| `LetterMentions.InsertAt` | src/components/LetterMentions.jsx:27 | one insertion step extends the sorted prefix by one, as a permutation |
| `LetterMentions.SortByName` | src/components/LetterMentions.jsx:27 | the array ends sorted by label and is a permutation of what it was |
| `LetterMentions.LinkTo` | src/components/LetterMentions.jsx:29-37 | the link goes to "/entities/" followed by the id, shows the label and is keyed by the id |
| `LetterMentions.Links` | src/components/LetterMentions.jsx:26-39 | at most one link per mention, each showing a non-empty label and pointing at `/entities/` followed by its key |
| `LetterMentions.LinksMembers` | src/components/LetterMentions.jsx:29-37 | every mention with a label has its link, and every link is the link of a mention with a label |
| `LetterMentions.LinksSorted` | src/components/LetterMentions.jsx:26-39 | the links of a sorted array are in label order |
| `LetterMentions.UnnamedMentionsDropped` | src/components/LetterMentions.jsx:29 | there is one link per mention with a non-empty label |
| `LetterMentions.RenderGroup` | src/components/LetterMentions.jsx:22-40 | a group's array ends sorted and permuted; its heading is the cleaned-up key and its links are those of the sorted array |
| `LetterMentions.RenderMentions` | src/components/LetterMentions.jsx:21-41 | one group per key, in key order, each array sorted in place as a permutation and rendered from its sorted contents |

## Left out

- Numbers are unbounded integers. `Number(text)` reads optional white space, an optional sign and decimal digits, and yields exactly the integer the digits spell, where JavaScript rounds a value beyond 2^53 to the nearest double. Text with a fraction or an exponent, a `0x`, `0b` or `0o` prefix, or "Infinity" reads as NaN in the model, where JavaScript reads a number.
- Only the first pair of a repeated URL parameter is ever looked at, as `get` does; `getAll` and parameter order on write are not modelled.
- The letters page imports `stateToRoute`, `routeToState` and `getSortByFromState` from a shared module that is not part of this model. `stateToRoute` and `getSortByFromState` are the page's `encode` and `sortKey` parameters, with `encode` also standing for `setSearchParams`. `routeToState` is used only by the Searchkit effect left out below. `useScope` and `useDateFilter` are not part of this model either; the scope is a parameter and the date range a plain field.
- A search result without a `facets` list, or a summary without `appliedFilters`, makes the letters page throw a TypeError when it renders. The model takes those lists as given: `LettersSearchPage.ListedFacets` and `LettersSearchPage.ShownFilters` model the throw for a missing facet or identifier inside a list, not for a missing list.
- The effect that hands the URL's state to Searchkit and runs a search (LettersSearchPage.jsx lines 126-131) is a call into the Searchkit client and is not modelled.
- `useCustomSearchkitSDK`, `api.search`, `api.setQuery` (in the reset button), `api.canResetSearch` and `api.isFilterSelected` are Searchkit calls. Only the filter a button asks about is modelled.
- React's scheduling (when effects run, batching of state updates) is not modelled. The effects are methods the caller invokes. A ref callback's null on unmount is an `Attach` of None.
- JSX, the Elastic UI components, tooltips as UI, and `dangerouslySetInnerHTML` are presentation only.
- `localeCompare` is an abstract comparator. The sort requires only that any two labels are ordered one way or the other.
- LetterMentions.SortByName: does not state that the sort is stable (`Array.prototype.sort` is), only that it is sorted and a permutation.
- LetterMentions.RenderMentions: requires the mention arrays to be distinct objects. Two keys sharing one array is aliasing the model does not cover.
- A mention label that is not a string (where `localeCompare` would throw) is not modelled: labels are text.
- `Object.entries` and `Object.keys` orders are insertion order. The integer-like keys JavaScript lists first, and inherited properties, are not modelled.
- The sort effect's `else if (sortState)` test is always true, because the sort state is always an object. The model leaves it out.
- The message of each TypeError is fixed text; which engine message is thrown is not modelled.
- The navigation bar, `main.jsx`, the entities search page's composition and the icon cache registration contain no logic and are not modelled.
- ListFacet.Slot: requires the entry's label to be present. The TypeError for a missing label is modelled one level up, in `ListFacet.RenderEntries` and `ListFacet.Render`.
- ListFacet.LinkBuffer.Commit: requires every label to be present, since a render that throws commits nothing.
