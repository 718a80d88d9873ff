/**
 * The letter page's mentions section: one group per entry of the mentions
 * object, headed by its cleaned-up key. Each group's array is sorted in
 * place by label, then every mention with a non-empty label becomes a link
 * to its entity page.
 */
module LetterMentions {
  import opened Js
  import opened Labels

  /** One mentioned entity; `name` is its `label`. */
  datatype Mention = Mention(id: Value, name: string)

  /** A rendered entry: React key, link target and the label shown as HTML. */
  datatype Link = Link(key: Value, href: string, html: string)

  /** A heading and its links. */
  datatype Group = Group(heading: string, links: seq<Link>)

  /** `a.localeCompare(b)`: negative, zero or positive. */
  type Comparator = (string, string) -> int

  /** Any two labels are ordered one way or the other. */
  ghost predicate Total(cmp: Comparator) {
    forall a, b :: cmp(a, b) <= 0 || cmp(b, a) <= 0
  }

  /** "Not after" is transitive. */
  ghost predicate Transitive(cmp: Comparator) {
    forall a, b, c :: cmp(a, b) <= 0 && cmp(b, c) <= 0 ==> cmp(a, c) <= 0
  }

  /** No label comes after the next one. */
  predicate SortedBy(s: seq<Mention>, cmp: Comparator) {
    forall i :: 0 < i < |s| ==> cmp(s[i - 1].name, s[i].name) <= 0
  }

  /** No label comes after any later one. */
  predicate SortedPairwise(s: seq<Mention>, cmp: Comparator) {
    forall i, j :: 0 <= i < j < |s| ==> cmp(s[i].name, s[j].name) <= 0
  }

  /** For a transitive comparator, neighbours in order means every pair in order. */
  lemma SortedIsPairwise(s: seq<Mention>, cmp: Comparator)
    requires Transitive(cmp) && SortedBy(s, cmp)
    ensures SortedPairwise(s, cmp)
  {
    forall i, j | 0 <= i < j < |s| ensures cmp(s[i].name, s[j].name) <= 0 {
      SortedChain(s, cmp, i, j);
    }
  }

  lemma {:induction false} SortedChain(s: seq<Mention>, cmp: Comparator, i: int, j: int)
    requires Transitive(cmp) && SortedBy(s, cmp)
    requires 0 <= i < j < |s|
    ensures cmp(s[i].name, s[j].name) <= 0
    decreases j - i
  {
    if i + 1 < j {
      SortedChain(s, cmp, i + 1, j);
    }
  }

  /** `s` with the neighbours at `j - 1` and `j` exchanged. */
  function Swap(s: seq<Mention>, j: int): (r: seq<Mention>)
    requires 0 < j < |s|
    ensures |r| == |s| && r[j - 1] == s[j] && r[j] == s[j - 1]
    ensures forall k :: 0 <= k < |s| && k != j - 1 && k != j ==> r[k] == s[k]
    ensures multiset(r) == multiset(s)
  {
    var r := s[j - 1 := s[j]][j := s[j - 1]];
    assert s == s[..j - 1] + [s[j - 1], s[j]] + s[j + 1..];
    assert r == s[..j - 1] + [s[j], s[j - 1]] + s[j + 1..];
    r
  }

  /**
   * Mention `j` is on its way left through `s[..i + 1]`: every other pair of
   * neighbours up to `i` is in order, and so are the two mentions around it.
   */
  ghost predicate Inserting(s: seq<Mention>, i: int, j: int, cmp: Comparator) {
    && 0 <= j <= i < |s|
    && (forall k :: 0 < k <= i && k != j ==> cmp(s[k - 1].name, s[k].name) <= 0)
    && (0 < j < i ==> cmp(s[j - 1].name, s[j + 1].name) <= 0)
  }

  /** Moving the mention one place left past a label that compares after it keeps the insertion going. */
  lemma SwapStep(s: seq<Mention>, i: int, j: int, cmp: Comparator)
    requires Total(cmp) && Inserting(s, i, j, cmp)
    requires 0 < j && cmp(s[j - 1].name, s[j].name) > 0
    ensures Inserting(Swap(s, j), i, j - 1, cmp)
  {
    var t := Swap(s, j);
    assert cmp(s[j].name, s[j - 1].name) <= 0;
    forall k | 0 < k <= i && k != j - 1 ensures cmp(t[k - 1].name, t[k].name) <= 0 {
      if k == j + 1 {
        assert t[k - 1] == s[j - 1] && t[k] == s[j + 1];
      }
    }
  }

  /** One step of the insertion sort: mention `i` moves left until the label before it does not compare after it. */
  method InsertAt(a: array<Mention>, i: int, cmp: Comparator)
    requires Total(cmp) && 0 <= i < a.Length
    requires forall k :: 0 < k < i ==> cmp(a[k - 1].name, a[k].name) <= 0
    modifies a
    ensures forall k :: 0 < k <= i ==> cmp(a[k - 1].name, a[k].name) <= 0
    ensures multiset(a[..]) == multiset(old(a[..]))
  {
    var j := i;
    while j > 0 && cmp(a[j - 1].name, a[j].name) > 0
      invariant Inserting(a[..], i, j, cmp)
      invariant multiset(a[..]) == multiset(old(a[..]))
    {
      ghost var before := a[..];
      SwapStep(before, i, j, cmp);
      a[j - 1], a[j] := a[j], a[j - 1];
      assert a[..] == Swap(before, j);
      j := j - 1;
    }
    InsertDone(a[..], i, j, cmp);
  }

  /** The insertion stops at the front or behind a label that does not compare after it: the prefix is then in order. */
  lemma InsertDone(s: seq<Mention>, i: int, j: int, cmp: Comparator)
    requires Inserting(s, i, j, cmp)
    requires j == 0 || cmp(s[j - 1].name, s[j].name) <= 0
    ensures forall k :: 0 < k <= i ==> cmp(s[k - 1].name, s[k].name) <= 0
  {
  }

  /**
   * `value.sort((a, b) => a.label.localeCompare(b.label))`, in place: an
   * insertion sort that moves each mention left past every label that
   * compares after it.
   */
  method SortByName(a: array<Mention>, cmp: Comparator)
    requires Total(cmp)
    modifies a
    ensures SortedBy(a[..], cmp)
    ensures multiset(a[..]) == multiset(old(a[..]))
  {
    var i := 0;
    while i < a.Length
      invariant 0 <= i <= a.Length
      invariant forall k :: 0 < k < i ==> cmp(a[k - 1].name, a[k].name) <= 0
      invariant multiset(a[..]) == multiset(old(a[..]))
    {
      InsertAt(a, i, cmp);
      i := i + 1;
    }
  }

  /** `e.label && ...`: only a mention with a label is shown. */
  predicate Named(m: Mention) {
    m.name != ""
  }

  /** The link for one mention: to `/entities/${e.id}`, showing the label. */
  function LinkTo(m: Mention): (r: Link)
    ensures r.href == "/entities/" + ToText(r.key) && r.html == m.name && r.key == m.id
  {
    Link(m.id, "/entities/" + ToText(m.id), m.name)
  }

  /** The links of one group, in array order, skipping mentions without a label. */
  function Links(ms: seq<Mention>): (r: seq<Link>)
    ensures |r| <= |ms|
    ensures forall i :: 0 <= i < |r| ==> r[i].html != "" && r[i].href == "/entities/" + ToText(r[i].key)
  {
    if ms == [] then []
    else if Named(ms[0]) then [LinkTo(ms[0])] + Links(ms[1..])
    else Links(ms[1..])
  }

  /** Exactly the mentions with a label become links. */
  lemma {:induction false} LinksMembers(ms: seq<Mention>)
    ensures forall m :: m in ms && Named(m) ==> LinkTo(m) in Links(ms)
    ensures forall l :: l in Links(ms) ==> exists m :: m in ms && Named(m) && l == LinkTo(m)
  {
    if ms != [] {
      LinksMembers(ms[1..]);
      assert ms == [ms[0]] + ms[1..];
      forall l | l in Links(ms) ensures exists m :: m in ms && Named(m) && l == LinkTo(m) {
        if l !in Links(ms[1..]) {
          assert l == LinkTo(ms[0]);
        } else {
          var m :| m in ms[1..] && Named(m) && l == LinkTo(m);
          assert m in ms;
        }
      }
    }
  }

  /** A label that compares before every mention's label compares before every link's text. */
  lemma {:induction false} LinksBoundedBelow(ms: seq<Mention>, cmp: Comparator, x: string)
    requires forall i :: 0 <= i < |ms| ==> cmp(x, ms[i].name) <= 0
    ensures forall i :: 0 <= i < |Links(ms)| ==> cmp(x, Links(ms)[i].html) <= 0
  {
    if ms != [] {
      assert forall i :: 0 <= i < |ms[1..]| ==> ms[1..][i] == ms[i + 1];
      LinksBoundedBelow(ms[1..], cmp, x);
    }
  }

  /** Links come out in the order of their mentions, so a sorted array gives links sorted by label. */
  lemma {:induction false} LinksSorted(ms: seq<Mention>, cmp: Comparator)
    requires SortedPairwise(ms, cmp)
    ensures forall i :: 0 < i < |Links(ms)| ==> cmp(Links(ms)[i - 1].html, Links(ms)[i].html) <= 0
  {
    if ms != [] {
      var rest := Links(ms[1..]);
      assert SortedPairwise(ms[1..], cmp) by {
        assert forall i :: 0 <= i < |ms[1..]| ==> ms[1..][i] == ms[i + 1];
      }
      LinksSorted(ms[1..], cmp);
      if Named(ms[0]) {
        assert forall i :: 0 <= i < |ms[1..]| ==> ms[1..][i] == ms[i + 1];
        LinksBoundedBelow(ms[1..], cmp, ms[0].name);
        assert Links(ms) == [LinkTo(ms[0])] + rest;
      }
    }
  }

  /** There is one link per mention with a label. */
  lemma UnnamedMentionsDropped(ms: seq<Mention>)
    ensures |Links(ms)| == |Filter(ms, Named)|
  {
    if ms != [] {
      assert ms == [ms[0]] + ms[1..];
      UnnamedMentionsDropped(ms[1..]);
    }
  }

  /** The arrays of the mentions object are distinct objects. */
  predicate DistinctArrays(groups: seq<(string, array<Mention>)>) {
    forall i, j :: 0 <= i < j < |groups| ==> groups[i].1 != groups[j].1
  }

  /** `s` is `s0` sorted: in order, and holding the same mentions. */
  predicate SortedPermutation(s: seq<Mention>, s0: seq<Mention>, cmp: Comparator) {
    SortedBy(s, cmp) && multiset(s) == multiset(s0)
  }

  /** `g` is the group rendered for `key` from the mentions `s`. */
  predicate RenderedAs(g: Group, key: string, s: seq<Mention>) {
    g == Group(Normalise(key), Links(s))
  }

  /** One group: sort its array in place, then render the cleaned-up key and the links. */
  method RenderGroup(key: string, a: array<Mention>, cmp: Comparator) returns (g: Group)
    requires Total(cmp)
    modifies a
    ensures SortedPermutation(a[..], old(a[..]), cmp)
    ensures RenderedAs(g, key, a[..])
  {
    SortByName(a, cmp);
    g := Group(Normalise(key), Links(a[..]));
  }

  /**
   * `Object.entries(mentions).map(...)`: for each key in order, sort its
   * array in place and render its heading and links.
   */
  method RenderMentions(groups: seq<(string, array<Mention>)>, cmp: Comparator) returns (view: seq<Group>)
    requires Total(cmp)
    requires DistinctArrays(groups)
    modifies set g | g in groups :: g.1
    ensures |view| == |groups|
    ensures forall i :: 0 <= i < |groups| ==>
      SortedPermutation(groups[i].1[..], old(groups[i].1[..]), cmp) && RenderedAs(view[i], groups[i].0, groups[i].1[..])
  {
    view := [];
    var n := 0;
    while n < |groups|
      invariant 0 <= n <= |groups|
      invariant |view| == n
      invariant forall i :: 0 <= i < n ==> SortedPermutation(groups[i].1[..], old(groups[i].1[..]), cmp)
      invariant forall i :: 0 <= i < n ==> RenderedAs(view[i], groups[i].0, groups[i].1[..])
      invariant forall i :: n <= i < |groups| ==> groups[i].1[..] == old(groups[i].1[..])
    {
      label Before:
      var g := RenderGroup(groups[n].0, groups[n].1, cmp);
      forall i | 0 <= i < |groups| && i != n ensures groups[i].1[..] == old@Before(groups[i].1[..]) {
        assert groups[i].1 != groups[n].1;
      }
      view := view + [g];
      n := n + 1;
    }
  }
}
