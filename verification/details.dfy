/** The detail record of a node (`getNodeDetails`): a JSON-like object whose
    keys are present only when the node has something worth exporting, with
    the children's records in reverse source order. */
module DetailBuilder {
  import opened Attrs
  import opened Numerals
  import opened Nodes
  import opened Paints
  import opened Layout
  import opened Typography

  /** One node's record; `None` stands for a key the record does not carry, and
      an empty `children` for the absent `children` key (the source never
      writes an empty list there). */
  datatype Details = Details(
    name: string,
    kind: string,
    visible: Option<bool>,
    locked: Option<bool>,
    width: Option<real>,
    height: Option<real>,
    x: Option<real>,
    y: Option<real>,
    rotation: Option<real>,
    opacity: Option<real>,
    blendMode: Option<string>,
    cornerRadius: Option<Radius>,
    clipsContent: Option<bool>,
    constraints: Option<Constraints>,
    layoutSizing: Option<LayoutSizing>,
    fills: Option<seq<FillEntry>>,
    strokes: Option<StrokeBlock>,
    effects: Option<seq<EffectEntry>>,
    autoLayout: Option<AutoLayout>,
    text: Option<TextStyle>,
    componentName: Option<string>,
    componentSet: Option<string>,
    componentId: Option<string>,
    children: seq<Details>)

  /** `Math.round(v * 100) / 100`: the nearest number with two decimals, halves rounded up. */
  function Round2(v: real): (r: real)
    ensures v - 0.005 < r <= v + 0.005
    ensures (r * 100.0).Floor as real == r * 100.0
  {
    Round(v * 100.0) as real / 100.0
  }

  /** The component a node links to: only instances consult their main component. */
  function MainOf(n: Node): Option<MainComponent> {
    if n.kind == "INSTANCE" then n.attrs.mainComponent else None
  }

  /** The keys `getNodeDetails` decides attribute by attribute, each present
      only when its condition holds; the paint lists and the children, which
      the source builds with loops, are left empty here. */
  function AttributeKeys(n: Node): Details
  {
    var a := n.attrs;
    var main := MainOf(n);
    Details(
      n.name,
      n.kind,
      if !a.visible then Some(false) else None,
      if a.locked then Some(true) else None,
      if a.width.Some? && a.height.Some? then Some(Round2(a.width.value)) else None,
      if a.width.Some? && a.height.Some? then Some(Round2(a.height.value)) else None,
      if a.x.Some? && a.y.Some? then Some(Round2(a.x.value)) else None,
      if a.x.Some? && a.y.Some? then Some(Round2(a.y.value)) else None,
      if a.rotation.Some? && a.rotation.value != 0.0 then Some(Round2(a.rotation.value)) else None,
      if a.opacity.Some? && a.opacity.value != 1.0 then Some(Round2(a.opacity.value)) else None,
      if a.blendMode.Some? && a.blendMode.value != "NORMAL" && a.blendMode.value != "PASS_THROUGH" then a.blendMode else None,
      CornerRadiusOf(n),
      if a.clipsContent == Some(true) then Some(true) else None,
      ConstraintsOf(n),
      LayoutSizingOf(n),
      None,
      None,
      None,
      AutoLayoutOf(n),
      TextStylesOf(n),
      if main.Some? then Some(main.value.name) else None,
      if main.Some? && main.value.parent.Some? && main.value.parent.value.kind == "COMPONENT_SET"
      then Some(main.value.parent.value.name) else None,
      if n.kind == "COMPONENT" then Some(n.id) else None,
      [])
  }

  /** The record `getNodeDetails` builds for `n`. */
  function NodeDetails(n: Node): Details
    decreases n, 1
  {
    AttributeKeys(n).(fills := Fills(n), strokes := Strokes(n), effects := Effects(n),
                      children := ReversedDetails(n.children, 0))
  }

  /** The records of cs[|cs| - 1], cs[|cs| - 2], ..., cs[from], in that order. */
  function ReversedDetails(cs: seq<Node>, from: nat): seq<Details>
    requires from <= |cs|
    decreases cs, |cs| - from
  {
    if from == |cs| then [] else ReversedDetails(cs, from + 1) + [NodeDetails(cs[from])]
  }

  /** `getNodeDetails`: the attribute keys, then the paint lists and the
      children's records, each added only when there is one. */
  method GetNodeDetails(n: Node) returns (d: Details)
    ensures d == NodeDetails(n)
    decreases n, 1
  {
    d := AttributeKeys(n);
    var fills := GetFills(n);
    if fills.Some? {
      d := d.(fills := fills);
    }
    var strokes := GetStrokes(n);
    if strokes.Some? {
      d := d.(strokes := strokes);
    }
    var effects := GetEffects(n);
    if effects.Some? {
      d := d.(effects := effects);
    }
    if |n.children| > 0 {
      var kids := GetChildrenDetails(n.children);
      d := d.(children := kids);
    }
  }

  /** The loop over the children, from the last to the first. */
  method GetChildrenDetails(cs: seq<Node>) returns (kids: seq<Details>)
    ensures kids == ReversedDetails(cs, 0)
    decreases cs, 0
  {
    kids := [];
    for j := |cs| downto 0
      invariant kids == ReversedDetails(cs, j)
    {
      var child := GetNodeDetails(cs[j]);
      kids := kids + [child];
    }
  }

  // ----- properties of the records -----

  lemma {:induction false} ReversedDetailsLength(cs: seq<Node>, from: nat)
    requires from <= |cs|
    ensures |ReversedDetails(cs, from)| == |cs| - from
    decreases |cs| - from
  {
    if from < |cs| {
      ReversedDetailsLength(cs, from + 1);
    }
  }

  /** The children's records come in reverse source order: entry i is the
      record of the child at source position |cs| - 1 - i. */
  lemma {:induction false} ReversedDetailsAt(cs: seq<Node>, from: nat, i: nat)
    requires from <= |cs| && i < |cs| - from
    ensures |ReversedDetails(cs, from)| == |cs| - from
    ensures ReversedDetails(cs, from)[i] == NodeDetails(cs[|cs| - 1 - i])
    decreases |cs| - from
  {
    ReversedDetailsLength(cs, from);
    if i < |cs| - 1 - from {
      ReversedDetailsAt(cs, from + 1, i);
    }
  }

  /** All the records, pointwise, in reverse source order. */
  lemma ReversedDetailsAll(cs: seq<Node>)
    ensures |ReversedDetails(cs, 0)| == |cs|
    ensures forall i :: 0 <= i < |cs| ==> ReversedDetails(cs, 0)[i] == NodeDetails(cs[|cs| - 1 - i])
  {
    ReversedDetailsLength(cs, 0);
    forall i | 0 <= i < |cs|
      ensures ReversedDetails(cs, 0)[i] == NodeDetails(cs[|cs| - 1 - i])
    {
      ReversedDetailsAt(cs, 0, i);
    }
  }

  /** A record lists the records of the node's children, from the last child
      to the first. */
  lemma DetailsChildren(n: Node)
    ensures |NodeDetails(n).children| == |n.children|
    ensures forall i :: 0 <= i < |n.children| ==>
      NodeDetails(n).children[i] == NodeDetails(n.children[|n.children| - 1 - i])
  {
    ReversedDetailsAll(n.children);
  }

  /** What the record says about the node's own attributes: the name and type
      always, as they are; a flag only when it differs from the default; sizes
      and positions in pairs and within half a hundredth of the node's value;
      rotation and opacity only when they are not the default; blend mode only
      when it is not one of the two neutral modes. */
  lemma OwnKeys(n: Node)
    ensures NodeDetails(n).name == n.name && NodeDetails(n).kind == n.kind
    ensures NodeDetails(n).visible == (if n.attrs.visible then None else Some(false))
    ensures NodeDetails(n).locked == (if n.attrs.locked then Some(true) else None)
    ensures NodeDetails(n).clipsContent.Some? <==> n.attrs.clipsContent == Some(true)
    ensures NodeDetails(n).width.Some? <==> n.attrs.width.Some? && n.attrs.height.Some?
    ensures NodeDetails(n).height.Some? <==> NodeDetails(n).width.Some?
    ensures NodeDetails(n).width.Some? ==>
      && n.attrs.width.value - 0.005 < NodeDetails(n).width.value <= n.attrs.width.value + 0.005
      && n.attrs.height.value - 0.005 < NodeDetails(n).height.value <= n.attrs.height.value + 0.005
    ensures NodeDetails(n).x.Some? <==> n.attrs.x.Some? && n.attrs.y.Some?
    ensures NodeDetails(n).y.Some? <==> NodeDetails(n).x.Some?
    ensures NodeDetails(n).x.Some? ==>
      && n.attrs.x.value - 0.005 < NodeDetails(n).x.value <= n.attrs.x.value + 0.005
      && n.attrs.y.value - 0.005 < NodeDetails(n).y.value <= n.attrs.y.value + 0.005
    ensures NodeDetails(n).rotation.Some? <==> n.attrs.rotation.Some? && n.attrs.rotation.value != 0.0
    ensures NodeDetails(n).rotation.Some? ==>
      n.attrs.rotation.value - 0.005 < NodeDetails(n).rotation.value <= n.attrs.rotation.value + 0.005
    ensures NodeDetails(n).opacity.Some? <==> n.attrs.opacity.Some? && n.attrs.opacity.value != 1.0
    ensures NodeDetails(n).opacity.Some? ==>
      n.attrs.opacity.value - 0.005 < NodeDetails(n).opacity.value <= n.attrs.opacity.value + 0.005
    ensures NodeDetails(n).blendMode.Some? <==>
      n.attrs.blendMode.Some? && n.attrs.blendMode.value != "NORMAL" && n.attrs.blendMode.value != "PASS_THROUGH"
    ensures NodeDetails(n).blendMode.Some? ==> NodeDetails(n).blendMode == n.attrs.blendMode
  {
  }

  /** The opacity test runs before the rounding: an opacity just below 1 is
      kept, and is reported as 1. */
  lemma NearlyOpaque(n: Node)
    requires n.attrs.opacity.Some? && 0.995 <= n.attrs.opacity.value < 1.0
    ensures NodeDetails(n).opacity == Some(1.0)
  {
    var v := n.attrs.opacity.value;
    assert Round(v * 100.0) == 100;
  }

  /** Component linkage: an instance names its main component, and the set the
      component belongs to when its parent is a component set; a component
      carries its own id; no other node carries any of the three. */
  lemma ComponentLinks(n: Node)
    ensures NodeDetails(n).componentName.Some? <==> n.kind == "INSTANCE" && n.attrs.mainComponent.Some?
    ensures NodeDetails(n).componentName.Some? ==>
      NodeDetails(n).componentName.value == n.attrs.mainComponent.value.name
    ensures NodeDetails(n).componentSet.Some? <==>
      && n.kind == "INSTANCE" && n.attrs.mainComponent.Some?
      && n.attrs.mainComponent.value.parent.Some?
      && n.attrs.mainComponent.value.parent.value.kind == "COMPONENT_SET"
    ensures NodeDetails(n).componentSet.Some? ==>
      NodeDetails(n).componentSet.value == n.attrs.mainComponent.value.parent.value.name
    ensures NodeDetails(n).componentId.Some? <==> n.kind == "COMPONENT"
    ensures NodeDetails(n).componentId.Some? ==> NodeDetails(n).componentId.value == n.id
  {
  }

  /** The keys of one record that never carry a default or an empty value. */
  predicate OwnCanonical(d: Details) {
    && d.visible != Some(true)
    && d.locked != Some(false)
    && d.clipsContent != Some(false)
    && (d.width.Some? <==> d.height.Some?)
    && (d.x.Some? <==> d.y.Some?)
    && d.blendMode != Some("NORMAL") && d.blendMode != Some("PASS_THROUGH")
    && (d.cornerRadius.Some? && d.cornerRadius.value.Uniform? ==> d.cornerRadius.value.radius > 0.0)
    && (d.fills.Some? ==> |d.fills.value| > 0)
    && (d.strokes.Some? ==> |d.strokes.value.colors| > 0)
    && (d.effects.Some? ==> |d.effects.value| > 0)
    && (d.text.Some? ==> d.kind == "TEXT")
    && (d.componentName.Some? ==> d.kind == "INSTANCE")
    && (d.componentSet.Some? ==> d.componentName.Some?)
    && (d.componentId.Some? ==> d.kind == "COMPONENT")
  }

  /** A record tree in which no record carries a default or an empty value. */
  predicate Canonical(d: Details)
    decreases d
  {
    && OwnCanonical(d)
    && forall i :: 0 <= i < |d.children| ==> Canonical(d.children[i])
  }

  lemma OwnDetailsCanonical(n: Node)
    ensures OwnCanonical(NodeDetails(n))
  {
    StrokesShape(n);
    TextStylesShape(n);
  }

  /** Every record `getNodeDetails` builds is canonical, all the way down. */
  lemma {:induction false} NodeDetailsCanonical(n: Node)
    ensures Canonical(NodeDetails(n))
    decreases n
  {
    OwnDetailsCanonical(n);
    DetailsChildren(n);
    var cs := n.children;
    if |cs| > 0 {
      var ds := NodeDetails(n).children;
      forall i | 0 <= i < |ds|
        ensures Canonical(ds[i])
      {
        NodeDetailsCanonical(cs[|cs| - 1 - i]);
      }
    }
  }
}
