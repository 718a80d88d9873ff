/**
 * The letters search page's own state handling: the initial query, operator
 * and sort read from the URL parameters, the column-header sort transition,
 * the effects that write the URL parameters back, the reset button, and the
 * facet and applied-filter visibility tests.
 *
 * The page imports `stateToRoute` and `getSortByFromState` from a shared
 * module that is not part of this model; the page object carries them as the
 * uninterpreted functions `encode` (which also stands for handing the route
 * to `setSearchParams`) and `sortKey`.
 */
module LettersSearchPage {
  import opened Wrappers
  import opened Js

  // ---------------------------------------------------------------------------
  // URL parameters

  /** `URLSearchParams`: the query string's (name, value) pairs in order. */
  type Params = seq<(string, string)>

  /** `searchParams.get(k)`: the value of the first pair named `k`, or null. */
  function ParamGet(p: Params, k: string): (r: Option<string>)
    ensures r.Some? <==> exists i :: 0 <= i < |p| && p[i].0 == k
    ensures r.Some? ==> (k, r.value) in p
  {
    if p == [] then None
    else if p[0].0 == k then Some(p[0].1)
    else
      var r := ParamGet(p[1..], k);
      assert forall i :: 0 < i < |p| ==> p[i] == p[1..][i - 1];
      r
  }

  /** `searchParams.has(k)` */
  predicate ParamHas(p: Params, k: string) {
    exists i :: 0 <= i < |p| && p[i].0 == k
  }

  /** The first pair named `k` decides what `get` answers; later pairs of that name are never seen. */
  lemma {:induction false} ParamGetFirst(p: Params, k: string, v: string, q: Params)
    requires !ParamHas(p, k)
    ensures ParamGet(p + [(k, v)] + q, k) == Some(v)
  {
    if p != [] {
      assert (p + [(k, v)] + q)[1..] == p[1..] + [(k, v)] + q;
      assert !ParamHas(p[1..], k) by {
        assert forall i :: 0 <= i < |p[1..]| ==> p[1..][i] == p[i + 1];
      }
      ParamGetFirst(p[1..], k, v, q);
    }
  }

  // ---------------------------------------------------------------------------
  // Initial state

  /** The initial query: the `query` parameter, or "" when there is none. */
  function InitialQuery(p: Params): (r: string)
    ensures ParamHas(p, "query") ==> (("query", r) in p && ParamGet(p, "query") == Some(r))
    ensures !ParamHas(p, "query") ==> r == ""
  {
    if ParamHas(p, "query") then ParamGet(p, "query").value else ""
  }

  /** The initial boolean operator: the `op` parameter, or "or" when there is none. */
  function InitialOperator(p: Params): (r: string)
    ensures ParamHas(p, "op") ==> (("op", r) in p && ParamGet(p, "op") == Some(r))
    ensures !ParamHas(p, "op") ==> r == "or"
  {
    if ParamHas(p, "op") then ParamGet(p, "op").value else "or"
  }

  /** The results table's sort: a field and 1 (ascending) or -1 (descending). */
  datatype SortState = SortState(field: string, direction: int)

  const DefaultSort := SortState("date", 1)

  /**
   * `const [field, dir] = text.split("_")`: the field is the text up to the
   * first underscore, and the direction is ascending exactly when the next
   * piece is "asc" (a missing piece reads as undefined, hence descending).
   */
  function DecodeSort(text: string): (r: SortState)
    ensures r.direction == 1 || r.direction == -1
    ensures '_' !in r.field && r.field <= text
    ensures |r.field| == |text| || text[|r.field|] == '_'
  {
    var parts := Split(text, '_');
    FirstPiece(text, '_');
    SortState(parts[0], if |parts| >= 2 && parts[1] == "asc" then 1 else -1)
  }

  /** The first piece of a split is the longest separator-free prefix. */
  lemma FirstPiece(s: string, sep: char)
    ensures Split(s, sep)[0] <= s
    ensures |Split(s, sep)[0]| == |s| || s[|Split(s, sep)[0]|] == sep
  {
    var r := Split(s, sep);
    if |r| > 1 {
      assert s == r[0] + [sep] + Join(r[1..], [sep]);
    }
  }

  /** Text without an underscore names the field and reads as descending. */
  lemma DecodeSortBare(field: string)
    requires '_' !in field
    ensures DecodeSort(field) == SortState(field, -1)
  {
    SplitWhole(field, '_');
  }

  /** After the first underscore only the next piece counts: ascending exactly when it is "asc". */
  lemma DecodeSortAfterField(field: string, tail: string)
    requires '_' !in field
    ensures DecodeSort(field + "_" + tail) == SortState(field, if Split(tail, '_')[0] == "asc" then 1 else -1)
  {
    SplitAfter(field, '_', tail);
    var parts := Split(field + "_" + tail, '_');
    assert parts[1] == Split(tail, '_')[0];
  }

  /** The URL's `field_asc` / `field_desc` form of a sort. */
  function SortText(s: SortState): string {
    s.field + "_" + (if s.direction == 1 then "asc" else "desc")
  }

  /** Reading back `field_asc` or `field_desc` gives the sort, when the field has no underscore. */
  lemma SortTextRoundTrip(s: SortState)
    requires '_' !in s.field && (s.direction == 1 || s.direction == -1)
    ensures DecodeSort(SortText(s)) == s
  {
    var dir := if s.direction == 1 then "asc" else "desc";
    DecodeSortAfterField(s.field, dir);
    SplitWhole(dir, '_');
    assert "desc" != "asc";
  }

  /** `title_desc` gives `{title, -1}`. */
  lemma DecodeTitleDesc()
    ensures DecodeSort("title_desc") == SortState("title", -1)
  {
    assert "title_desc" == "title" + "_" + "desc";
    DecodeSortAfterField("title", "desc");
    SplitWhole("desc", '_');
  }

  /** A field whose own name holds an underscore is cut at it: `date_sent_asc` decodes to `{date, -1}`. */
  lemma DecodeSortCutsField()
    ensures DecodeSort("date_sent_asc") == SortState("date", -1)
  {
    assert "date_sent_asc" == "date" + "_" + "sent_asc";
    DecodeSortAfterField("date", "sent_asc");
    assert "sent_asc" == "sent" + "_" + "asc";
    SplitAfter("sent", '_', "asc");
    assert "sent" != "asc";
  }

  /** The initial sort: decoded from the `sort` parameter, else date ascending. */
  function InitialSort(p: Params): (r: SortState)
    ensures !ParamHas(p, "sort") ==> r == DefaultSort
    ensures ParamHas(p, "sort") ==> ParamGet(p, "sort").Some? && r == DecodeSort(ParamGet(p, "sort").value)
    ensures r.direction == 1 || r.direction == -1
  {
    if ParamHas(p, "sort") then DecodeSort(ParamGet(p, "sort").value) else DefaultSort
  }

  // ---------------------------------------------------------------------------
  // Sort transition

  /** `onSort(field)`: the same field flips direction, another field starts ascending. */
  function NextSort(s: SortState, field: string): (r: SortState)
    ensures r.field == field
  {
    if s.field == field then SortState(field, -1 * s.direction) else SortState(field, 1)
  }

  /** A click keeps the direction 1 or -1. */
  lemma NextSortKeepsDirection(s: SortState, field: string)
    requires s.direction == 1 || s.direction == -1
    ensures NextSort(s, field).direction == 1 || NextSort(s, field).direction == -1
    ensures s.field == field ==> NextSort(s, field).direction != s.direction
    ensures s.field != field ==> NextSort(s, field).direction == 1
  {
  }

  /** Two clicks on the sorted field restore the sort; two clicks on another field leave it descending. */
  lemma NextSortTwice(s: SortState, field: string)
    ensures s.field == field ==> NextSort(NextSort(s, field), field) == s
    ensures s.field != field ==> NextSort(NextSort(s, field), field) == SortState(field, -1)
  {
  }

  // ---------------------------------------------------------------------------
  // When the effects write the URL

  /** The sort effect writes when `sort` is absent or differs from the encoded sort. */
  predicate SortWriteNeeded(p: Params, sortBy: string) {
    !ParamHas(p, "sort") || ParamGet(p, "sort").value != sortBy
  }

  lemma SortWriteNeededIff(p: Params, sortBy: string)
    ensures SortWriteNeeded(p, sortBy) <==> ParamGet(p, "sort") != Some(sortBy)
  {
  }

  /** The operator effect writes when the operator is set and differs from what the URL says (or "or" if silent). */
  predicate OperatorWriteNeeded(p: Params, op: string) {
    && op != ""
    && ((!ParamHas(p, "op") && op != "or") || (ParamHas(p, "op") && ParamGet(p, "op").value != op))
  }

  lemma OperatorWriteNeededIff(p: Params, op: string)
    ensures OperatorWriteNeeded(p, op) <==> op != "" && op != InitialOperator(p)
  {
  }

  /** The operator read from the URL never makes the operator effect write. */
  lemma InitialOperatorIsQuiet(p: Params)
    ensures !OperatorWriteNeeded(p, InitialOperator(p))
  {
    OperatorWriteNeededIff(p, InitialOperator(p));
  }

  /** `variables?.page?.from` */
  function PageFrom(variables: Value): Value {
    Member(Member(variables, "page"), "from")
  }

  // ---------------------------------------------------------------------------
  // The route objects the effects hand to `stateToRoute`

  /** `{ ...variables, query, sortBy, scope, operator }` */
  function SortRequest(variables: Value, query: string, sortBy: string, scope: Value, operator: string): (r: Object)
    ensures Get(r, "query") == Str(query) && Get(r, "sortBy") == Str(sortBy)
    ensures Get(r, "scope") == scope && Get(r, "operator") == Str(operator)
    ensures forall k :: k != "query" && k != "sortBy" && k != "scope" && k != "operator" ==>
      Get(r, k) == Get(Spread(variables), k)
  {
    Assign(Assign(Assign(Assign(Spread(variables), "query", Str(query)), "sortBy", Str(sortBy)), "scope", scope),
      "operator", Str(operator))
  }

  /** The same object with `page: { from }` added, as the operator and page effects build it. */
  function PagedRequest(variables: Value, query: string, sortBy: string, scope: Value, operator: string, from: Value): (r: Object)
    ensures Get(r, "page") == Obj([Prop("from", from)])
    ensures forall k :: k != "page" ==> Get(r, k) == Get(SortRequest(variables, query, sortBy, scope, operator), k)
  {
    Assign(SortRequest(variables, query, sortBy, scope, operator), "page", Obj([Prop("from", from)]))
  }

  /** The paged request replaces the whole page object, so a page size in the variables is not passed on. */
  lemma PagedRequestDropsSize(variables: Value, query: string, sortBy: string, scope: Value, operator: string, from: Value)
    ensures Member(Get(PagedRequest(variables, query, sortBy, scope, operator, from), "page"), "size") == Undefined
    ensures Member(Get(PagedRequest(variables, query, sortBy, scope, operator, from), "page"), "from") == from
  {
    PageObjectMembers(from);
  }

  /** The members of `{ from }`. */
  lemma PageObjectMembers(from: Value)
    ensures Member(Obj([Prop("from", from)]), "size") == Undefined
    ensures Member(Obj([Prop("from", from)]), "from") == from
  {
    assert "from"[0] != "size"[0];
  }

  /**
   * `{ ...variables, scope, operator, query: value, page: { from: 0 } }`, what
   * a search from the search box encodes: unlike the effects' requests it sets
   * no `sortBy`, so the sort is whatever the variables carry.
   */
  function SearchRequest(variables: Value, scope: Value, operator: string, value: string): (r: Object)
    ensures Get(r, "scope") == scope && Get(r, "operator") == Str(operator) && Get(r, "query") == Str(value)
    ensures Get(r, "page") == Obj([Prop("from", Num(0))])
  {
    var fields := Assign(Assign(Assign(Spread(variables), "scope", scope), "operator", Str(operator)), "query", Str(value));
    assert Get(fields, "scope") == scope && Get(fields, "operator") == Str(operator);
    Assign(fields, "page", Obj([Prop("from", Num(0))]))
  }

  /** Every key the search box does not set is that of the variables. */
  lemma SearchRequestKeepsOthers(variables: Value, scope: Value, operator: string, value: string)
    ensures forall k :: k != "scope" && k != "operator" && k != "query" && k != "page" ==>
      Get(SearchRequest(variables, scope, operator, value), k) == Get(Spread(variables), k)
  {
  }

  /** The search box passes on the sort the variables carry, and no other. */
  lemma SearchRequestKeepsSort(variables: Value, scope: Value, operator: string, value: string)
    ensures Get(SearchRequest(variables, scope, operator, value), "sortBy") == Get(Spread(variables), "sortBy")
  {
    SortByNotSearchKey();
    SearchRequestKeepsOthers(variables, scope, operator, value);
  }

  lemma SortByNotSearchKey()
    ensures "sortBy" != "scope" && "sortBy" != "operator" && "sortBy" != "query" && "sortBy" != "page"
  {
    assert "sortBy"[1] != "scope"[1] && "sortBy"[0] != "operator"[0];
    assert "sortBy"[0] != "query"[0] && "sortBy"[0] != "page"[0];
  }

  /** `{ filters: [], query: "" }`, what the reset button encodes. */
  const ResetRoute: Object := [Prop("filters", Arr([])), Prop("query", Str(""))]

  /** The date range `useDateFilter` holds. */
  datatype DateRange = DateRange(startDate: Value, endDate: Value)

  // ---------------------------------------------------------------------------
  // The page

  class LettersSearch {
    var params: Params
    var query: string
    var operator: string
    var sortState: SortState
    /** `sortStateMounted.current` */
    var mounted: bool
    var dateRange: DateRange
    /** The shared `stateToRoute`, followed by writing the route into the URL. */
    const encode: Object -> Params
    /** The shared `getSortByFromState`. */
    const sortKey: SortState -> string

    /** The sort direction is always 1 or -1. */
    predicate Valid()
      reads this
    {
      sortState.direction == 1 || sortState.direction == -1
    }

    /** First render: query, operator and sort come from the URL; the sort effect has not run yet. */
    constructor(p: Params, range: DateRange, encode: Object -> Params, sortKey: SortState -> string)
      ensures params == p && dateRange == range && !mounted
      ensures query == InitialQuery(p) && operator == InitialOperator(p) && sortState == InitialSort(p)
      ensures this.encode == encode && this.sortKey == sortKey
      ensures Valid()
    {
      params := p;
      query := InitialQuery(p);
      operator := InitialOperator(p);
      sortState := InitialSort(p);
      mounted := false;
      dateRange := range;
      this.encode := encode;
      this.sortKey := sortKey;
    }

    /** A click on the header of `field`. */
    method OnSort(field: string)
      requires Valid()
      modifies this`sortState
      ensures Valid()
      ensures sortState == NextSort(old(sortState), field)
    {
      if sortState.field == field {
        sortState := SortState(field, -1 * sortState.direction);
      } else {
        sortState := SortState(field, 1);
      }
    }

    /** `setOperator`, as the search controls call it. */
    method SetOperator(op: string)
      modifies this`operator
      ensures operator == op
    {
      operator := op;
    }

    /** The URL parameters after the sort effect's write, if it writes. */
    function SortEffectUrl(variables: Value, scope: Value): Params
      reads this
    {
      var sortBy := sortKey(sortState);
      if SortWriteNeeded(params, sortBy) then encode(SortRequest(variables, query, sortBy, scope, operator))
      else params
    }

    /** The effect that runs when the sort changes; its first run only records that the page is mounted. */
    method SortEffect(variables: Value, scope: Value)
      modifies this`mounted, this`params
      ensures mounted
      ensures !old(mounted) ==> params == old(params)
      ensures old(mounted) ==> params == old(SortEffectUrl(variables, scope))
    {
      if !mounted {
        mounted := true;
      } else {
        params := SortEffectUrl(variables, scope);
      }
    }

    /** The URL parameters after the operator effect's write, if it writes: a write goes back to the first page. */
    function OperatorEffectUrl(variables: Value, scope: Value): Params
      reads this
    {
      if OperatorWriteNeeded(params, operator)
      then encode(PagedRequest(variables, query, sortKey(sortState), scope, operator, Num(0)))
      else params
    }

    /** The effect that runs when the operator changes. */
    method OperatorEffect(variables: Value, scope: Value)
      modifies this`params
      ensures params == old(OperatorEffectUrl(variables, scope))
    {
      params := OperatorEffectUrl(variables, scope);
    }

    /** The URL parameters after the page effect's write, if it writes: only a truthy offset is written. */
    function PageEffectUrl(variables: Value, scope: Value): Params
      reads this
    {
      var from := PageFrom(variables);
      if Truthy(from) then encode(PagedRequest(variables, query, sortKey(sortState), scope, operator, from))
      else params
    }

    /** The effect that runs when the page offset changes. */
    method PageEffect(variables: Value, scope: Value)
      modifies this`params
      ensures params == old(PageEffectUrl(variables, scope))
    {
      params := PageEffectUrl(variables, scope);
    }

    /** The URL parameters a search for `value` from the search box writes. */
    function SearchUrl(variables: Value, scope: Value, value: string): Params
      reads this
    {
      encode(SearchRequest(variables, scope, operator, value))
    }

    /** A search from the search box: the query becomes the text, and the URL that of the first page of its results. */
    method OnSearch(value: string, variables: Value, scope: Value)
      modifies this`query, this`params
      ensures query == value
      ensures params == old(SearchUrl(variables, scope, value))
    {
      params := SearchUrl(variables, scope, value);
      query := value;
    }

    /** The reset button: empty query, no date range, and the URL of an empty search. */
    method Reset()
      modifies this`query, this`dateRange, this`params
      ensures query == "" && dateRange == DateRange(Null, Null)
      ensures params == encode(ResetRoute)
    {
      query := "";
      dateRange := DateRange(Null, Null);
      params := encode(ResetRoute);
    }
  }

  /**
   * The page effect leaves the URL alone for an offset of 0 or none, and for
   * a non-zero numeric offset writes the paged request at that offset.
   */
  lemma PageWriteNeeded(page: LettersSearch, variables: Value, scope: Value)
    ensures var from := PageFrom(variables);
      from == Num(0) || from == Undefined ==> page.PageEffectUrl(variables, scope) == page.params
    ensures var from := PageFrom(variables);
      from.Num? && from.n != 0 ==>
        page.PageEffectUrl(variables, scope)
          == page.encode(PagedRequest(variables, page.query, page.sortKey(page.sortState), scope, page.operator, from))
  {
  }

  // ---------------------------------------------------------------------------
  // Visibility of facets and applied filters

  /** A facet is listed when its `display` is truthy and is not "CustomDateFacet". */
  predicate Listed(facet: Value) {
    Truthy(Member(facet, "display")) && Member(facet, "display") != Str("CustomDateFacet")
  }

  /** Every facet is present, so reading `facet.display` on each does not throw. */
  predicate AllPresent(facets: seq<Value>) {
    forall f :: f in facets ==> f != Null && f != Undefined
  }

  /**
   * `results.facets.filter(...)`: the listed facets, in the order the results
   * give them, or a TypeError when a facet is null or undefined.
   */
  function ListedFacets(facets: seq<Value>): (r: Result<seq<Value>, JsError>)
    ensures r.Success? <==> AllPresent(facets)
    ensures r.Success? ==> r.value == Filter(facets, Listed)
  {
    if facets == [] then Success([])
    else if facets[0] == Null || facets[0] == Undefined then
      assert facets[0] in facets;
      Failure(TypeError("facet is null or undefined"))
    else
      var rest := ListedFacets(facets[1..]);
      assert facets == [facets[0]] + facets[1..];
      assert AllPresent(facets) <==> AllPresent(facets[1..]) by {
        assert forall f :: f in facets <==> f == facets[0] || f in facets[1..];
      }
      if rest.Failure? then rest
      else if Listed(facets[0]) then Success([facets[0]] + rest.value)
      else rest
  }

  /** When the facets are all present, a facet is listed exactly when it is one of them and passes the test. */
  lemma ListedFacetsMembers(facets: seq<Value>)
    requires AllPresent(facets)
    ensures forall f :: f in ListedFacets(facets).value <==> f in facets && Listed(f)
  {
    FilterMembers(facets, Listed);
  }

  /**
   * Listing facets works piece by piece: a list fails exactly when one of its
   * pieces does, and otherwise the listed facets keep their order.
   */
  lemma ListedFacetsAppend(a: seq<Value>, b: seq<Value>)
    ensures ListedFacets(a + b).Success? <==> ListedFacets(a).Success? && ListedFacets(b).Success?
    ensures ListedFacets(a + b).Success? ==>
      ListedFacets(a + b).value == ListedFacets(a).value + ListedFacets(b).value
  {
    assert AllPresent(a + b) <==> AllPresent(a) && AllPresent(b) by {
      assert forall f :: f in a + b <==> f in a || f in b;
    }
    FilterAppend(a, b, Listed);
  }

  /** An applied filter is shown unless its identifier ends in "_date". */
  predicate Shown(filter: Value)
    requires Member(filter, "identifier").Str?
  {
    !EndsWith(Member(filter, "identifier").s, "_date")
  }

  /** Every applied filter has a text identifier, so `endsWith` can be called on each. */
  predicate AllIdentified(filters: seq<Value>) {
    forall f :: f in filters ==> Member(f, "identifier").Str?
  }

  /**
   * `appliedFilters.filter((f) => !f.identifier.endsWith("_date"))`: the
   * shown filters in order, or a TypeError when an identifier is not text.
   */
  function ShownFilters(filters: seq<Value>): (r: Result<seq<Value>, JsError>)
    ensures r.Success? <==> AllIdentified(filters)
    ensures r.Success? ==> forall f :: f in r.value <==> f in filters && Shown(f)
  {
    if filters == [] then Success([])
    else if !Member(filters[0], "identifier").Str? then Failure(TypeError("identifier.endsWith is not a function"))
    else
      var rest := ShownFilters(filters[1..]);
      assert filters == [filters[0]] + filters[1..];
      if rest.Failure? then rest
      else if Shown(filters[0]) then Success([filters[0]] + rest.value)
      else rest
  }
  /**
   * Filtering applied filters works piece by piece: a list fails exactly when
   * one of its pieces does, and otherwise the shown filters keep their order
   * and multiplicity.
   */
  lemma {:induction false} ShownFiltersAppend(a: seq<Value>, b: seq<Value>)
    ensures ShownFilters(a + b).Success? <==> ShownFilters(a).Success? && ShownFilters(b).Success?
    ensures ShownFilters(a + b).Success? ==>
      ShownFilters(a + b).value == ShownFilters(a).value + ShownFilters(b).value
  {
    if a != [] {
      assert (a + b)[1..] == a[1..] + b;
      assert (a + b)[0] == a[0];
      ShownFiltersAppend(a[1..], b);
    } else {
      assert a + b == b;
    }
  }


  /** Date filters are the ones hidden. */
  lemma DateFiltersHidden(filters: seq<Value>, f: Value)
    requires AllIdentified(filters) && f in filters
    ensures f in ShownFilters(filters).value <==> !EndsWith(Member(f, "identifier").s, "_date")
  {
  }
}
