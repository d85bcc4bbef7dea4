/** Layout and geometry blocks: auto layout, constraints, layout sizing and
    corner radius. */
module Layout {
  import opened Attrs
  import opened Nodes

  datatype AutoLayout = AutoLayout(
    direction: string,
    gap: real,
    padding: Padding,
    counterAxisAlign: string,
    primaryAxisAlign: string,
    wrap: Option<string>,
    counterAxisGap: Option<real>,
    primaryAxisSizing: Option<string>,
    counterAxisSizing: Option<string>)

  datatype LayoutSizing = LayoutSizing(horizontal: Option<string>, vertical: Option<string>)

  /** A corner radius is either one number or a per-corner breakdown. */
  datatype Radius = Uniform(radius: real) | PerCorner(corners: Corners)

  /** `getAutoLayout`: the block exists when the node has a layout mode other
      than "NONE"; wrapping (and the cross-axis gap, when the node has one) only
      when the wrap mode is present and not "NO_WRAP"; the sizing modes when
      the node has them. */
  function AutoLayoutOf(n: Node): Option<AutoLayout>
  {
    match n.attrs.layout
    case None => None
    case Some(p) =>
      if p.layoutMode == "NONE" then None
      else
        var base := AutoLayout(p.layoutMode, p.itemSpacing, p.padding, p.counterAxisAlignItems,
                               p.primaryAxisAlignItems, None, None, None, None);
        var wrapped :=
          if p.layoutWrap.Some? && p.layoutWrap.value != "NO_WRAP" then
            base.(wrap := p.layoutWrap, counterAxisGap := p.counterAxisSpacing)
          else base;
        Some(wrapped.(primaryAxisSizing := p.primaryAxisSizingMode, counterAxisSizing := p.counterAxisSizingMode))
  }

  /** When the auto-layout block exists and what it carries. */
  lemma AutoLayoutShape(n: Node)
    ensures AutoLayoutOf(n).Some? <==> n.attrs.layout.Some? && n.attrs.layout.value.layoutMode != "NONE"
    ensures AutoLayoutOf(n).Some? ==>
      var p, al := n.attrs.layout.value, AutoLayoutOf(n).value;
      && al.direction == p.layoutMode && al.gap == p.itemSpacing && al.padding == p.padding
      && al.counterAxisAlign == p.counterAxisAlignItems && al.primaryAxisAlign == p.primaryAxisAlignItems
      && (al.wrap.Some? <==> p.layoutWrap.Some? && p.layoutWrap.value != "NO_WRAP")
      && (al.wrap.Some? ==> al.wrap == p.layoutWrap && al.counterAxisGap == p.counterAxisSpacing)
      && (al.wrap.None? ==> al.counterAxisGap.None?)
      && al.primaryAxisSizing == p.primaryAxisSizingMode
      && al.counterAxisSizing == p.counterAxisSizingMode
  {
  }

  /** `getConstraints`: the node's horizontal and vertical constraints, when it has them. */
  function ConstraintsOf(n: Node): (r: Option<Constraints>)
    ensures r.Some? <==> n.attrs.constraints.Some?
    ensures r.Some? ==> (r.value.horizontal == n.attrs.constraints.value.horizontal
                         && r.value.vertical == n.attrs.constraints.value.vertical)
  {
    match n.attrs.constraints
    case None => None
    case Some(c) => Some(Constraints(c.horizontal, c.vertical))
  }

  /** `getLayoutSizing`: the sizing modes the node has, and the block only when
      one of them is a non-empty string (the source tests truthiness). */
  function LayoutSizingOf(n: Node): (r: Option<LayoutSizing>)
    ensures r.Some? <==> Truthy(n.attrs.layoutSizingHorizontal) || Truthy(n.attrs.layoutSizingVertical)
    ensures r.Some? ==> (r.value.horizontal == n.attrs.layoutSizingHorizontal
                         && r.value.vertical == n.attrs.layoutSizingVertical)
  {
    var sizing := LayoutSizing(None, None);
    var sizing := if n.attrs.layoutSizingHorizontal.Some? then sizing.(horizontal := n.attrs.layoutSizingHorizontal) else sizing;
    var sizing := if n.attrs.layoutSizingVertical.Some? then sizing.(vertical := n.attrs.layoutSizingVertical) else sizing;
    if Truthy(sizing.horizontal) || Truthy(sizing.vertical) then Some(sizing) else None
  }

  /** `getCornerRadius`: the four corners when the radius is mixed, the radius
      when it is positive, and no value when it is absent, zero or negative. */
  function CornerRadiusOf(n: Node): (r: Option<Radius>)
    ensures n.attrs.cornerRadius.Mixed? ==> r == Some(PerCorner(n.attrs.corners))
    ensures n.attrs.cornerRadius.Value? && n.attrs.cornerRadius.value > 0.0 ==>
      r == Some(Uniform(n.attrs.cornerRadius.value))
    ensures r.None? <==> (n.attrs.cornerRadius.Absent?
                          || (n.attrs.cornerRadius.Value? && n.attrs.cornerRadius.value <= 0.0))
    ensures r.Some? && r.value.Uniform? ==> r.value.radius > 0.0
  {
    match n.attrs.cornerRadius
    case Mixed => Some(PerCorner(n.attrs.corners))
    case Value(v) => if v > 0.0 then Some(Uniform(v)) else None
    case Absent => None
  }
}
