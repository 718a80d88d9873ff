/**
 * The entities search page's URL route codec (`stateToRoute`, `routeToState`)
 * and its request rewrite (`config.postProcessRequest`).
 *
 * `stateToRoute` lists five candidate route properties and folds over them,
 * keeping a property only when its value is a non-empty array or a truthy
 * non-array. `routeToState` reads them back and fills in the defaults.
 */
module EntitiesSearch {
  import opened Js

  /** The search state Searchkit passes to `stateToRoute`; an absent property is `Undefined`. */
  datatype SearchState = SearchState(query: Value, sortBy: Value, filters: Value, page: Value)

  const DefaultSize: int := 25

  // ---------------------------------------------------------------------------
  // stateToRoute

  /** The fold's test: a non-empty array, or a truthy value that is not an array. */
  predicate Kept(v: Value) {
    if v.Arr? then |v.items| > 0 else Truthy(v)
  }

  predicate KeptProp(p: Prop) {
    Kept(p.val)
  }

  /** `Number(searchState.page?.size) || 25` */
  function RouteSize(s: SearchState): (r: Value)
    ensures r.Num? && r.n != 0
  {
    Or(ToNumber(Member(s.page, "size")), Num(DefaultSize))
  }

  /** `Number(searchState.page?.from)` */
  function RouteFrom(s: SearchState): Value {
    ToNumber(Member(s.page, "from"))
  }

  /** The `routeState` object literal, in its key order. */
  function Candidates(s: SearchState): Object {
    [ Prop("query", s.query), Prop("sort", s.sortBy), Prop("filters", s.filters),
      Prop("size", RouteSize(s)), Prop("from", RouteFrom(s)) ]
  }

  lemma KeyNamesDistinct()
    ensures "query" != "sort" && "query" != "filters" && "query" != "size" && "query" != "from"
    ensures "sort" != "filters" && "sort" != "size" && "sort" != "from"
    ensures "filters" != "size" && "filters" != "from" && "size" != "from"
  {
    assert "sort"[1] != "size"[1];
    assert "sort"[0] != "from"[0];
    assert "size"[0] != "from"[0];
  }

  lemma CandidatesDistinct(s: SearchState)
    ensures DistinctKeys(Candidates(s))
  {
    KeyNamesDistinct();
    var o := Candidates(s);
    var o1 := o[1..];
    var o2 := o1[1..];
    var o3 := o2[1..];
    var o4 := o3[1..];
    assert Keys(o1) == ["sort", "filters", "size", "from"];
    assert Keys(o2) == ["filters", "size", "from"];
    assert Keys(o3) == ["size", "from"];
    assert Keys(o4) == ["from"];
    assert o4[1..] == [];
    assert DistinctKeys(o4);
    assert DistinctKeys(o3);
    assert DistinctKeys(o2);
    assert DistinctKeys(o1);
  }

  /** Name lookup in an object literal shaped like `routeState`. */
  lemma LiteralGet(q: Value, sort: Value, filters: Value, size: Value, from: Value)
    ensures var o := [Prop("query", q), Prop("sort", sort), Prop("filters", filters), Prop("size", size), Prop("from", from)];
      && Get(o, "query") == q && Get(o, "sort") == sort && Get(o, "filters") == filters
      && Get(o, "size") == size && Get(o, "from") == from
  {
    KeyNamesDistinct();
    var o := [Prop("query", q), Prop("sort", sort), Prop("filters", filters), Prop("size", size), Prop("from", from)];
    var o1 := [Prop("sort", sort), Prop("filters", filters), Prop("size", size), Prop("from", from)];
    var o2 := [Prop("filters", filters), Prop("size", size), Prop("from", from)];
    var o3 := [Prop("size", size), Prop("from", from)];
    var o4 := [Prop("from", from)];
    assert o[1..] == o1 && o1[1..] == o2 && o2[1..] == o3 && o3[1..] == o4;
    assert Get(o, "sort") == Get(o1, "sort");
    assert Get(o, "filters") == Get(o1, "filters") == Get(o2, "filters");
    assert Get(o, "size") == Get(o1, "size") == Get(o2, "size") == Get(o3, "size");
    assert Get(o, "from") == Get(o1, "from") == Get(o2, "from") == Get(o3, "from") == Get(o4, "from");
  }

  /** The five candidate properties, looked up by name. */
  lemma CandidateValues(s: SearchState)
    ensures Get(Candidates(s), "query") == s.query
    ensures Get(Candidates(s), "sort") == s.sortBy
    ensures Get(Candidates(s), "filters") == s.filters
    ensures Get(Candidates(s), "size") == RouteSize(s)
    ensures Get(Candidates(s), "from") == RouteFrom(s)
  {
    LiteralGet(s.query, s.sortBy, s.filters, RouteSize(s), RouteFrom(s));
  }

  /** The `reduce` over `Object.keys(routeState)`: `sum` is the accumulator, `rest` the keys still to visit. */
  function Reduce(sum: Object, rest: Object): Object
    decreases |rest|
  {
    if rest == [] then sum
    else
      var next := if Kept(rest[0].val) then Assign(sum, rest[0].key, rest[0].val) else sum;
      Reduce(next, rest[1..])
  }

  /** With distinct keys the fold appends exactly the kept properties, in order. */
  lemma {:induction false} ReduceIsFilter(sum: Object, rest: Object)
    requires DistinctKeys(rest)
    requires forall k :: HasKey(rest, k) ==> !HasKey(sum, k)
    ensures Reduce(sum, rest) == sum + Filter(rest, KeptProp)
    decreases |rest|
  {
    if rest == [] {
      assert sum + [] == sum;
    } else {
      var p := rest[0];
      assert HasKey(rest, p.key);
      assert rest == [p] + rest[1..];
      assert forall k :: HasKey(rest[1..], k) ==> HasKey(rest, k) by {
        assert Keys(rest) == [p.key] + Keys(rest[1..]);
      }
      if Kept(p.val) {
        AssignFresh(sum, p.key, p.val);
        assert Reduce(sum, rest) == Reduce(sum + [p], rest[1..]);
        assert Keys(sum + [p]) == Keys(sum) + [p.key];
        ReduceIsFilter(sum + [p], rest[1..]);
        assert Filter(rest, KeptProp) == [p] + Filter(rest[1..], KeptProp);
        AppendAssoc(sum, [p], Filter(rest[1..], KeptProp));
      } else {
        assert Reduce(sum, rest) == Reduce(sum, rest[1..]);
        ReduceIsFilter(sum, rest[1..]);
        assert Filter(rest, KeptProp) == Filter(rest[1..], KeptProp);
      }
    }
  }

  /** `stateToRoute`: the candidate properties that pass the fold's test, in order. */
  function StateToRoute(s: SearchState): (r: Object)
    ensures r == Filter(Candidates(s), KeptProp)
  {
    CandidatesDistinct(s);
    ReduceIsFilter([], Candidates(s));
    Reduce([], Candidates(s))
  }

  /** Looking a key up in the kept properties of a distinct-key object. */
  lemma {:induction false} GetFilterKept(ps: Object, k: string)
    requires DistinctKeys(ps)
    ensures Get(Filter(ps, KeptProp), k) == if Kept(Get(ps, k)) then Get(ps, k) else Undefined
  {
    if ps != [] {
      var p := ps[0];
      var rest := ps[1..];
      assert ps == [p] + rest;
      assert Filter(ps, KeptProp) == (if Kept(p.val) then [p] else []) + Filter(rest, KeptProp);
      GetFilterKept(rest, k);
      if p.key == k {
        FilterHasKey(rest, k);
      }
    }
  }

  /** Filtering can only remove property names. */
  lemma FilterHasKey(ps: Object, k: string)
    ensures HasKey(Filter(ps, KeptProp), k) ==> HasKey(ps, k)
  {
    if HasKey(Filter(ps, KeptProp), k) {
      var v := Get(Filter(ps, KeptProp), k);
      GetFound(Filter(ps, KeptProp), k);
      FilterMembers(ps, KeptProp);
      assert Prop(k, v) in ps;
      var i :| 0 <= i < |ps| && ps[i] == Prop(k, v);
      assert Keys(ps)[i] == k;
    }
  }

  /** Each route property is the candidate's value when the fold keeps it, and absent otherwise. */
  lemma RouteGet(s: SearchState, k: string)
    ensures Get(StateToRoute(s), k) == if Kept(Get(Candidates(s), k)) then Get(Candidates(s), k) else Undefined
  {
    CandidatesDistinct(s);
    GetFilterKept(Candidates(s), k);
  }

  /** No route property holds a falsy value or an empty array, and every one comes from the state. */
  lemma RouteHasNoEmptyValues(s: SearchState)
    ensures forall p :: p in StateToRoute(s) ==> Kept(p.val) && p in Candidates(s)
    ensures forall p :: p in StateToRoute(s) ==> p.key in ["query", "sort", "filters", "size", "from"]
  {
    FilterMembers(Candidates(s), KeptProp);
  }

  /** `size` is always emitted: the numeric page size when it is a non-zero number, else 25. */
  lemma SizeAlwaysEmitted(s: SearchState)
    ensures HasKey(StateToRoute(s), "size")
    ensures var n := ToNumber(Member(s.page, "size"));
            Get(StateToRoute(s), "size") == if n.Num? && n.n != 0 then n else Num(DefaultSize)
  {
    RouteGet(s, "size");
    CandidateValues(s);
    assert Get(StateToRoute(s), "size") == RouteSize(s) != Undefined;
  }

  /** In the kept properties of a distinct-key object, a key is present exactly when its value passes the test. */
  lemma HasKeyFilterKept(ps: Object, k: string)
    requires DistinctKeys(ps)
    ensures HasKey(Filter(ps, KeptProp), k) <==> Kept(Get(ps, k))
  {
    var f := Filter(ps, KeptProp);
    GetFilterKept(ps, k);
    if HasKey(f, k) {
      GetFound(f, k);
      FilterMembers(ps, KeptProp);
      assert Kept(Get(f, k));
    }
  }

  /** `from` is emitted exactly when the page offset reads as a non-zero number. */
  lemma FromEmittedIffNonZero(s: SearchState)
    ensures var f := ToNumber(Member(s.page, "from"));
            Get(StateToRoute(s), "from") == if f.Num? && f.n != 0 then f else Undefined
    ensures var f := ToNumber(Member(s.page, "from"));
            HasKey(StateToRoute(s), "from") <==> f.Num? && f.n != 0
  {
    CandidatesDistinct(s);
    CandidateValues(s);
    GetFilterKept(Candidates(s), "from");
    HasKeyFilterKept(Candidates(s), "from");
  }

  // ---------------------------------------------------------------------------
  // routeToState

  /** The page object `routeToState` builds. */
  function Page(size: int, from: int): Value {
    Obj([Prop("size", Num(size)), Prop("from", Num(from))])
  }

  /** `routeToState`: read the route back, restoring "", [], 25 and 0 for what is missing. */
  function RouteToState(route: Object): (r: SearchState)
    ensures r.query == Str("") || Truthy(r.query)
    ensures r.sortBy == Get(route, "sort")
    ensures r.filters == Arr([]) || Truthy(r.filters)
    ensures exists size: int, from: int | size != 0 :: r.page == Page(size, from)
  {
    var size := Or(ToNumber(Get(route, "size")), Num(DefaultSize));
    var from := Or(ToNumber(Get(route, "from")), Num(0));
    SearchState(
      Or(Get(route, "query"), Str("")),
      Get(route, "sort"),
      Or(Get(route, "filters"), Arr([])),
      Page(size.n, from.n))
  }

  /**
   * Each property of the decoded state: a truthy route query or filters is
   * kept and anything falsy falls back to "" or []; a size or offset that
   * does not read as a non-zero number falls back to 25 or 0.
   */
  lemma RouteToStateFallsBack(route: Object)
    ensures var q := Get(route, "query");
      RouteToState(route).query == if Truthy(q) then q else Str("")
    ensures var f := Get(route, "filters");
      RouteToState(route).filters == if Truthy(f) then f else Arr([])
    ensures var n := ToNumber(Get(route, "size"));
      Member(RouteToState(route).page, "size") == if n.Num? && n.n != 0 then n else Num(DefaultSize)
    ensures var n := ToNumber(Get(route, "from"));
      Member(RouteToState(route).page, "from") == if n.Num? && n.n != 0 then n else Num(0)
  {
    var size := Or(ToNumber(Get(route, "size")), Num(DefaultSize));
    var from := Or(ToNumber(Get(route, "from")), Num(0));
    PageMembers(size.n, from.n);
  }

  /** A route without a key decodes that key to its default. */
  lemma RouteToStateDefaults(route: Object)
    ensures !HasKey(route, "query") ==> RouteToState(route).query == Str("")
    ensures !HasKey(route, "sort") ==> RouteToState(route).sortBy == Undefined
    ensures !HasKey(route, "filters") ==> RouteToState(route).filters == Arr([])
    ensures !HasKey(route, "size") ==> Member(RouteToState(route).page, "size") == Num(DefaultSize)
    ensures !HasKey(route, "from") ==> Member(RouteToState(route).page, "from") == Num(0)
  {
    RouteToStateFallsBack(route);
  }

  /** A page size or offset written as URL text decodes to the number the text shows. */
  lemma RouteToStateReadsText(route: Object, size: int, from: int)
    requires size != 0
    requires Get(route, "size") == Str(IntText(size)) && Get(route, "from") == Str(IntText(from))
    ensures RouteToState(route).page == Page(size, from)
  {
    IntTextRoundTrip(size);
    IntTextRoundTrip(from);
  }

  // ---------------------------------------------------------------------------
  // Round trip

  /** The states that survive an encode/decode round trip unchanged. */
  predicate Canonical(s: SearchState) {
    && (s.query == Str("") || Kept(s.query))
    && (s.sortBy == Undefined || Kept(s.sortBy))
    && (s.filters == Arr([]) || Kept(s.filters))
    && s.page.Obj? && |s.page.props| == 2
    && s.page.props[0].key == "size" && s.page.props[0].val.Num? && s.page.props[0].val.n != 0
    && s.page.props[1].key == "from" && s.page.props[1].val.Num?
  }

  /** The route values of each key, spelled out. */
  lemma RouteValues(s: SearchState)
    ensures Get(StateToRoute(s), "query") == if Kept(s.query) then s.query else Undefined
    ensures Get(StateToRoute(s), "sort") == if Kept(s.sortBy) then s.sortBy else Undefined
    ensures Get(StateToRoute(s), "filters") == if Kept(s.filters) then s.filters else Undefined
    ensures Get(StateToRoute(s), "size") == RouteSize(s)
    ensures var f := RouteFrom(s); Get(StateToRoute(s), "from") == if Kept(f) then f else Undefined
  {
    CandidatesDistinct(s);
    CandidateValues(s);
    GetFilterKept(Candidates(s), "query");
    GetFilterKept(Candidates(s), "sort");
    GetFilterKept(Candidates(s), "filters");
    GetFilterKept(Candidates(s), "size");
    GetFilterKept(Candidates(s), "from");
  }

  /** Decoding an encoded canonical state gives the state back. */
  lemma RoundTrip(s: SearchState)
    requires Canonical(s)
    ensures RouteToState(StateToRoute(s)) == s
  {
    RouteValues(s);
    DecodeCanonical(StateToRoute(s), s);
  }

  /** A route holding exactly what `stateToRoute` keeps of a canonical state decodes to that state. */
  lemma DecodeCanonical(route: Object, s: SearchState)
    requires Canonical(s)
    requires Get(route, "query") == if Kept(s.query) then s.query else Undefined
    requires Get(route, "sort") == if Kept(s.sortBy) then s.sortBy else Undefined
    requires Get(route, "filters") == if Kept(s.filters) then s.filters else Undefined
    requires Get(route, "size") == RouteSize(s)
    requires var f := RouteFrom(s); Get(route, "from") == if Kept(f) then f else Undefined
    ensures RouteToState(route) == s
  {
    var size := s.page.props[0].val.n;
    var from := s.page.props[1].val.n;
    assert s.page == Page(size, from);
    PageMembers(size, from);
    var t := RouteToState(route);
    assert t.query == s.query;
    assert t.sortBy == s.sortBy;
    assert t.filters == s.filters;
    assert t.page == s.page;
  }

  /** Whatever state is encoded, decoding the route yields a canonical state. */
  lemma DecodedRouteIsCanonical(s: SearchState)
    ensures Canonical(RouteToState(StateToRoute(s)))
  {
    RouteValues(s);
  }

  /** The two members of a page object built by `routeToState`. */
  lemma PageMembers(size: int, from: int)
    ensures Member(Page(size, from), "size") == Num(size)
    ensures Member(Page(size, from), "from") == Num(from)
  {
    var ps := Page(size, from).props;
    KeyNamesDistinct();
    assert ps[1..] == [Prop("from", Num(from))];
    assert Get(ps[1..], "from") == Num(from);
    assert Get(ps, "from") == Get(ps[1..], "from");
  }

  /** What decoding a route does to the query, sort and filters: it keeps what the route kept and restores an unkept default. */
  lemma DecodedCandidates(s: SearchState)
    ensures var t := RouteToState(StateToRoute(s));
      && (Kept(s.query) ==> t.query == s.query)
      && (!Kept(s.query) ==> !Kept(t.query))
      && t.sortBy == (if Kept(s.sortBy) then s.sortBy else Undefined)
      && (Kept(s.filters) ==> t.filters == s.filters)
      && (!Kept(s.filters) ==> !Kept(t.filters))
  {
    RouteValues(s);
  }

  /** Decoding a route keeps its page size, and its page offset when the route carries one (else 0). */
  lemma DecodedPage(s: SearchState)
    ensures var t := RouteToState(StateToRoute(s));
      && RouteSize(t) == RouteSize(s)
      && RouteFrom(t) == (if Kept(RouteFrom(s)) then RouteFrom(s) else Num(0))
  {
    var route := StateToRoute(s);
    RouteValues(s);
    var size := Or(ToNumber(Get(route, "size")), Num(DefaultSize));
    var from := Or(ToNumber(Get(route, "from")), Num(0));
    assert size == RouteSize(s);
    assert RouteToState(route).page == Page(size.n, from.n);
    PageMembers(size.n, from.n);
  }

  /** Two states whose candidates agree wherever one of them is kept encode to the same route. */
  lemma SameRoute(s: SearchState, t: SearchState)
    requires Agree(t.query, s.query) && Agree(t.sortBy, s.sortBy) && Agree(t.filters, s.filters)
    requires RouteSize(t) == RouteSize(s) && Agree(RouteFrom(t), RouteFrom(s))
    ensures Filter(Candidates(t), KeptProp) == Filter(Candidates(s), KeptProp)
  {
    FiveAgree(Candidates(t), Candidates(s));
  }

  /** Two five-property lists that agree property by property filter alike. */
  lemma FiveAgree(ps: Object, qs: Object)
    requires |ps| == 5 && |qs| == 5
    requires ps[0].key == qs[0].key && Agree(ps[0].val, qs[0].val)
    requires ps[1].key == qs[1].key && Agree(ps[1].val, qs[1].val)
    requires ps[2].key == qs[2].key && Agree(ps[2].val, qs[2].val)
    requires ps[3].key == qs[3].key && Agree(ps[3].val, qs[3].val)
    requires ps[4].key == qs[4].key && Agree(ps[4].val, qs[4].val)
    ensures Filter(ps, KeptProp) == Filter(qs, KeptProp)
  {
    assert ps[5..] == [] && qs[5..] == [];
    AgreeFrom(ps, qs, 4);
    AgreeFrom(ps, qs, 3);
    AgreeFrom(ps, qs, 2);
    AgreeFrom(ps, qs, 1);
    AgreeFrom(ps, qs, 0);
    assert ps[0..] == ps && qs[0..] == qs;
  }

  /** One more agreeing property in front of two suffixes that filter alike. */
  lemma AgreeFrom(ps: Object, qs: Object, i: int)
    requires 0 <= i < |ps| && i < |qs|
    requires ps[i].key == qs[i].key && Agree(ps[i].val, qs[i].val)
    requires Filter(ps[i + 1..], KeptProp) == Filter(qs[i + 1..], KeptProp)
    ensures Filter(ps[i..], KeptProp) == Filter(qs[i..], KeptProp)
  {
    assert ps[i..] == [ps[i]] + ps[i + 1..] && qs[i..] == [qs[i]] + qs[i + 1..];
    ConsAgree(ps[i], qs[i], ps[i + 1..], qs[i + 1..]);
  }

  /** Encode, decode and encode again gives the first route. */
  lemma EncodeIdempotent(s: SearchState)
    ensures StateToRoute(RouteToState(StateToRoute(s))) == StateToRoute(s)
  {
    DecodedCandidates(s);
    DecodedPage(s);
    SameRoute(s, RouteToState(StateToRoute(s)));
  }

  /** Two values the fold treats alike: equal, or both dropped. */
  predicate Agree(a: Value, b: Value) {
    a == b || (!Kept(a) && !Kept(b))
  }

  /** Prefixing agreeing properties to lists that filter alike keeps them filtering alike. */
  lemma ConsAgree(p: Prop, q: Prop, ps: Object, qs: Object)
    requires p.key == q.key && Agree(p.val, q.val)
    requires Filter(ps, KeptProp) == Filter(qs, KeptProp)
    ensures Filter([p] + ps, KeptProp) == Filter([q] + qs, KeptProp)
  {
    assert ([p] + ps)[1..] == ps;
    assert ([q] + qs)[1..] == qs;
  }

  /** The route as it comes back from the URL query string: numbers turn into their decimal text. */
  function AsUrlText(route: Object): (r: Object)
    ensures |r| == |route|
    ensures forall i :: 0 <= i < |route| ==> r[i].key == route[i].key
  {
    seq(|route|, i requires 0 <= i < |route| =>
      var v := route[i].val;
      Prop(route[i].key, if v.Num? then Str(IntText(v.n)) else v))
  }

  lemma {:induction false} GetAsUrlText(route: Object, k: string)
    ensures var v := Get(route, k); Get(AsUrlText(route), k) == if v.Num? then Str(IntText(v.n)) else v
  {
    if route != [] {
      assert AsUrlText(route)[1..] == AsUrlText(route[1..]);
      GetAsUrlText(route[1..], k);
    }
  }

  /** Reading page size and offset back from URL text gives the same page as the numeric route. */
  lemma UrlTextKeepsPage(route: Object)
    ensures RouteToState(AsUrlText(route)).page == RouteToState(route).page
  {
    GetAsUrlText(route, "size");
    GetAsUrlText(route, "from");
    var size := Get(route, "size");
    var from := Get(route, "from");
    if size.Num? { IntTextRoundTrip(size.n); }
    if from.Num? { IntTextRoundTrip(from.n); }
  }

  // ---------------------------------------------------------------------------
  // postProcessRequest

  /** `{ bool: { must: [{ term: { published: true } }] } }` */
  const PublishedOnly: Value :=
    Obj([Prop("bool", Obj([Prop("must", Arr([Obj([Prop("term", Obj([Prop("published", Bool(true))]))])]))]))])

  /** `body?.query ? body : { ...body, query: PublishedOnly }` */
  function PostProcessRequest(body: Value): (r: Value)
    ensures Truthy(Member(body, "query")) ==> r == body
    ensures !Truthy(Member(body, "query")) ==>
      && r.Obj?
      && Get(r.props, "query") == PublishedOnly
      && (forall k :: k != "query" ==> Get(r.props, k) == Get(Spread(body), k))
      && Keys(r.props) == if HasKey(Spread(body), "query") then Keys(Spread(body)) else Keys(Spread(body)) + ["query"]
  {
    if Truthy(Member(body, "query")) then body
    else Obj(Assign(Spread(body), "query", PublishedOnly))
  }

  /** The request sent always carries a query, and rewriting it a second time changes nothing. */
  lemma PostProcessIdempotent(body: Value)
    ensures Truthy(Member(PostProcessRequest(body), "query"))
    ensures PostProcessRequest(PostProcessRequest(body)) == PostProcessRequest(body)
  {
  }
}
