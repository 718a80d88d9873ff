/**
 * The facet list: one button per facet entry, labelled with the entry's
 * cleaned-up label (or the volume table's name for it), carrying the raw
 * label as the filter value, with a tooltip on the entity-type facet; and
 * the buffer of filter links the buttons forward their clicks to.
 */
module ListFacet {
  import opened Wrappers
  import opened Js
  import opened Labels

  /** One facet entry as the search results give it; `raw` is its `label`. */
  datatype Entry = Entry(raw: Value, count: Value)

  /** A facet; `title` is its `label`, and `entries` is None when the results carry no entry list. */
  datatype Facet = Facet(identifier: string, title: Value, entries: Option<seq<Entry>>)

  /** The lookup tables the shared module provides. */
  datatype Tables = Tables(volumeLabels: map<string, string>, entityTypes: map<string, Value>)

  /** `{ identifier: facet.identifier, value: entry.label }`: what a button selects and toggles. */
  datatype FilterTarget = FilterTarget(identifier: string, value: Value)

  /** A facet button: React key, count, filter, shown text, and the tooltip content if it has one. */
  datatype Button = Button(key: string, quantity: Value, filter: FilterTarget, text: string, tooltip: Option<Value>)

  /** What the component renders: nothing, or a titled group of entry slots (a slot without a button renders nothing). */
  datatype View = NoView | FacetView(title: Value, slots: Option<seq<Option<Button>>>)

  /** `toString` can be called on the label: it is neither undefined nor null. */
  predicate Labelled(raw: Value) {
    raw != Undefined && raw != Null
  }

  /**
   * The button text: the label as text, cleaned up, and for the "volume"
   * facet replaced by the table's name for it when it has one.
   */
  function DisplayText(identifier: string, raw: Value, tables: Tables): string
    requires Labelled(raw)
  {
    var cleaned := Normalise(CallToString(raw).value);
    if cleaned != "" && identifier == "volume" && cleaned in tables.volumeLabels
    then tables.volumeLabels[cleaned]
    else cleaned
  }

  /** Only the "volume" facet substitutes, and only labels the table knows. */
  lemma VolumeSubstitution(identifier: string, raw: Value, tables: Tables)
    requires Labelled(raw)
    ensures var cleaned := Normalise(ToText(raw));
      DisplayText(identifier, raw, tables) ==
        if identifier == "volume" && cleaned != "" && cleaned in tables.volumeLabels
        then tables.volumeLabels[cleaned] else cleaned
    ensures identifier != "volume" ==> DisplayText(identifier, raw, tables) == Normalise(ToText(raw))
  {
  }

  /** `entityTypes[entry.label] || entry.label` on the "e_type" facet; no tooltip elsewhere. */
  function Tooltip(identifier: string, raw: Value, tables: Tables): (r: Option<Value>)
    ensures r.Some? <==> identifier == "e_type"
    ensures r.Some? ==> r.value == raw || (ToText(raw) in tables.entityTypes && r.value == tables.entityTypes[ToText(raw)])
  {
    if identifier != "e_type" then None
    else
      var key := ToText(raw);
      Some(Or(if key in tables.entityTypes then tables.entityTypes[key] else Undefined, raw))
  }

  /** The tooltip is the table's entry when it is truthy, else the raw label. */
  lemma TooltipChoice(raw: Value, tables: Tables)
    ensures var key := ToText(raw);
      Tooltip("e_type", raw, tables) ==
        if key in tables.entityTypes && Truthy(tables.entityTypes[key]) then Some(tables.entityTypes[key]) else Some(raw)
  {
  }

  /** One entry's slot: a button when its text is non-empty (`label && ...`), nothing when it is empty. */
  function Slot(identifier: string, e: Entry, tables: Tables): (r: Option<Button>)
    requires Labelled(e.raw)
    ensures r.None? <==> DisplayText(identifier, e.raw, tables) == ""
    ensures r.Some? ==>
      && r.value.filter == FilterTarget(identifier, e.raw)
      && r.value.quantity == e.count
      && r.value.text == DisplayText(identifier, e.raw, tables)
      && r.value.tooltip == Tooltip(identifier, e.raw, tables)
  {
    var text := DisplayText(identifier, e.raw, tables);
    if text == "" then None
    else Some(Button(ToText(e.raw), e.count, FilterTarget(identifier, e.raw), text, Tooltip(identifier, e.raw, tables)))
  }

  /** Outside the "volume" facet, an entry gets no button exactly when its label text is all white space. */
  lemma BlankLabelNoButton(identifier: string, e: Entry, tables: Tables)
    requires identifier != "volume"
    requires Labelled(e.raw)
    ensures var text := ToText(e.raw);
      Slot(identifier, e, tables).None? <==> forall i :: 0 <= i < |text| ==> IsWhiteSpace(text[i])
  {
    VolumeSubstitution(identifier, e.raw, tables);
    NormaliseEmpty(ToText(e.raw));
  }

  /** Every entry has a label that can be turned into text. */
  predicate AllLabelled(es: seq<Entry>) {
    forall i :: 0 <= i < |es| ==> Labelled(es[i].raw)
  }

  /**
   * `facet.entries.map(...)`: one slot per entry, in entry order. The map
   * throws a TypeError at the first entry whose label is missing.
   */
  function RenderEntries(identifier: string, es: seq<Entry>, tables: Tables): (r: Result<seq<Option<Button>>, JsError>)
    ensures r.Success? <==> AllLabelled(es)
    ensures r.Success? ==> |r.value| == |es|
  {
    if AllLabelled(es) then Success(seq(|es|, i requires 0 <= i < |es| => Slot(identifier, es[i], tables)))
    else Failure(TypeError("Cannot read properties of undefined (reading 'toString')"))
  }

  /** Slot `i` is entry `i`'s slot: rendering neither reorders nor drops entries. */
  lemma RenderEntriesAligned(identifier: string, es: seq<Entry>, tables: Tables, i: int)
    requires AllLabelled(es) && 0 <= i < |es|
    ensures RenderEntries(identifier, es, tables).value[i] == Slot(identifier, es[i], tables)
  {
  }

  /** Rendering works entry by entry, so the slots of two lists are the slots of each, in order. */
  lemma RenderEntriesAppend(identifier: string, a: seq<Entry>, b: seq<Entry>, tables: Tables)
    requires AllLabelled(a) && AllLabelled(b)
    ensures RenderEntries(identifier, a + b, tables).Success?
    ensures RenderEntries(identifier, a + b, tables).value ==
      RenderEntries(identifier, a, tables).value + RenderEntries(identifier, b, tables).value
  {
    assert AllLabelled(a + b) by {
      assert forall i :: 0 <= i < |a + b| ==> (a + b)[i] == if i < |a| then a[i] else b[i - |a|];
    }
    var r := RenderEntries(identifier, a + b, tables).value;
    var ra := RenderEntries(identifier, a, tables).value;
    var rb := RenderEntries(identifier, b, tables).value;
    forall i | 0 <= i < |a| ensures r[..|a|][i] == ra[i] {
      assert (a + b)[i] == a[i];
      RenderEntriesAligned(identifier, a + b, tables, i);
      RenderEntriesAligned(identifier, a, tables, i);
    }
    forall i | 0 <= i < |b| ensures r[|a|..][i] == rb[i] {
      assert (a + b)[|a| + i] == b[i];
      RenderEntriesAligned(identifier, a + b, tables, |a| + i);
      RenderEntriesAligned(identifier, b, tables, i);
    }
    assert r[..|a|] == ra && r[|a|..] == rb;
    assert r == r[..|a|] + r[|a|..];
  }

  /** The component: nothing for a missing facet, otherwise its title and one slot per entry. */
  function Render(facet: Option<Facet>, tables: Tables): (r: Result<View, JsError>)
    ensures facet.None? ==> r == Success(NoView)
    ensures facet.Some? && facet.value.entries.None? ==> r == Success(FacetView(facet.value.title, None))
    ensures facet.Some? && facet.value.entries.Some? ==>
      (r.Success? <==> AllLabelled(facet.value.entries.value))
    ensures r.Success? && r.value.FacetView? && r.value.slots.Some? ==>
      r.value.slots == Some(RenderEntries(facet.value.identifier, facet.value.entries.value, tables).value)
  {
    match facet
    case None => Success(NoView)
    case Some(f) =>
      match f.entries
      case None => Success(FacetView(f.title, None))
      case Some(es) =>
        match RenderEntries(f.identifier, es, tables)
        case Failure(err) => Failure(err)
        case Success(slots) => Success(FacetView(f.title, Some(slots)))
  }

  /** The button in slot `i` selects and toggles the raw label of entry `i`, not the shown text. */
  lemma SlotFiltersRawLabel(facet: Facet, tables: Tables, i: int)
    requires facet.entries.Some? && AllLabelled(facet.entries.value)
    requires 0 <= i < |facet.entries.value|
    ensures var slots := Render(Some(facet), tables).value.slots.value;
      |slots| == |facet.entries.value| &&
      (slots[i].Some? ==> slots[i].value.filter == FilterTarget(facet.identifier, facet.entries.value[i].raw))
  {
    assert RenderEntries(facet.identifier, facet.entries.value, tables).Success?;
  }

  function Min(a: int, b: int): int {
    if a <= b then a else b
  }

  function Max(a: int, b: int): int {
    if a <= b then b else a
  }

  /** One past the last slot that holds a button, or 0 when none does. */
  function ButtonsEnd(slots: seq<Option<Button>>): (r: nat)
    ensures r <= |slots|
  {
    if slots == [] then 0
    else if slots[|slots| - 1].Some? then |slots|
    else ButtonsEnd(slots[..|slots| - 1])
  }

  /** `ButtonsEnd` is the end of the last button: the slot before it holds one, and no slot from it on does. */
  lemma {:induction false} ButtonsEndIsLast(slots: seq<Option<Button>>)
    ensures ButtonsEnd(slots) == 0 || slots[ButtonsEnd(slots) - 1].Some?
    ensures forall i :: ButtonsEnd(slots) <= i < |slots| ==> slots[i].None?
  {
    if slots != [] && slots[|slots| - 1].None? {
      var prefix := slots[..|slots| - 1];
      ButtonsEndIsLast(prefix);
      assert forall i :: 0 <= i < |prefix| ==> prefix[i] == slots[i];
    }
  }

  /**
   * `ref.current`: the filter link mounted for each slot, by index. A slot
   * that never had a link, or whose link is gone, is None.
   */
  class LinkBuffer {
    var current: seq<Option<FilterTarget>>

    /** `useRef([])` */
    constructor()
      ensures current == []
    {
      current := [];
    }

    /**
     * The effect that runs when the entries change: cut the buffer to the
     * entry count. Without a facet the whole buffer is kept; a facet
     * without entries throws (and the buffer is left as it was).
     */
    method OnEntriesChanged(facet: Option<Facet>) returns (error: Option<JsError>)
      modifies this
      ensures error.Some? <==> facet.Some? && facet.value.entries.None?
      ensures |current| <= |old(current)| && current == old(current)[..|current|]
      ensures facet.Some? && facet.value.entries.Some? ==>
        |current| == Min(|old(current)|, |facet.value.entries.value|)
      ensures facet.None? || facet.value.entries.None? ==> current == old(current)
    {
      error := None;
      match facet
      case None =>
        current := current[0..];
      case Some(f) =>
        match f.entries
        case None =>
          error := Some(TypeError("Cannot read properties of undefined (reading 'length')"));
        case Some(es) =>
          current := current[0..Min(|current|, |es|)];
    }

    /** The ref callback `ref.current[i] = el`: writing past the end first pads the buffer with empty slots. */
    method Attach(i: nat, el: Option<FilterTarget>)
      modifies this
      ensures |current| == Max(|old(current)|, i + 1)
      ensures current[i] == el
      ensures forall j :: 0 <= j < |current| && j != i ==>
        current[j] == if j < |old(current)| then old(current)[j] else None
    {
      if i < |current| {
        current := current[i := el];
      } else {
        current := current + seq(i - |current|, _ => None) + [el];
      }
    }

    /** Mounting the rendered slots: every button's link is attached at its own slot index, in order. */
    method AttachAll(slots: seq<Option<Button>>)
      modifies this
      ensures |current| == Max(|old(current)|, ButtonsEnd(slots))
      ensures forall i :: 0 <= i < |slots| && slots[i].Some? ==> ClickTarget(i) == Success(slots[i].value.filter)
      ensures forall j :: 0 <= j < |current| && !(j < |slots| && slots[j].Some?) ==>
        current[j] == if j < |old(current)| then old(current)[j] else None
    {
      var k := 0;
      while k < |slots|
        invariant 0 <= k <= |slots|
        invariant |current| == Max(|old(current)|, ButtonsEnd(slots[..k]))
        invariant forall i :: 0 <= i < k && slots[i].Some? ==> i < |current| && current[i] == Some(slots[i].value.filter)
        invariant forall j :: 0 <= j < |current| && !(j < k && slots[j].Some?) ==>
          current[j] == if j < |old(current)| then old(current)[j] else None
      {
        assert slots[..k + 1][..k] == slots[..k];
        if slots[k].Some? {
          Attach(k, Some(slots[k].value.filter));
        }
        k := k + 1;
      }
      assert slots[..k] == slots;
    }

    /**
     * One render of a facet whose labels are all present, committed: the
     * links are attached, then the entries effect trims the buffer. Each
     * button then forwards its click to the filter of its own entry.
     */
    method Commit(facet: Facet, tables: Tables)
      requires facet.entries.Some? && AllLabelled(facet.entries.value)
      modifies this
      ensures |current| <= |facet.entries.value|
      ensures forall i :: 0 <= i < |facet.entries.value| && Slot(facet.identifier, facet.entries.value[i], tables).Some? ==>
        ClickTarget(i) == Success(FilterTarget(facet.identifier, facet.entries.value[i].raw))
    {
      var es := facet.entries.value;
      var slots := RenderEntries(facet.identifier, es, tables).value;
      AttachAll(slots);
      var error := OnEntriesChanged(Some(facet));
      forall i | 0 <= i < |es| && Slot(facet.identifier, es[i], tables).Some?
        ensures ClickTarget(i) == Success(FilterTarget(facet.identifier, es[i].raw))
      {
        RenderEntriesAligned(facet.identifier, es, tables, i);
      }
    }

    /** A click on button `i` is forwarded to `ref.current[i].onClick`, which throws when the slot has no link. */
    function ClickTarget(i: int): (r: Result<FilterTarget, JsError>)
      reads this
      ensures r.Success? <==> 0 <= i < |current| && current[i].Some?
    {
      if 0 <= i < |current| && current[i].Some? then Success(current[i].value)
      else Failure(TypeError("Cannot read properties of undefined (reading 'onClick')"))
    }
  }
}
