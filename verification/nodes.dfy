/** The host's document tree, read-only input of both exports. Every `kind`
    field holds the host's `type` attribute ("FRAME", "TEXT", "SOLID",
    "DROP_SHADOW", ...). Numbers are reals. */
module Nodes {
  import opened Attrs

  /** A colour with fractional channels in [0, 1]; `a` is present on effect colours. */
  datatype Color = Color(r: real, g: real, b: real, a: Option<real>)

  datatype Vector = Vector(x: real, y: real)

  datatype ColorStop = ColorStop(position: real, color: Option<Color>)

  /** One fill or stroke paint. `visible` and `opacity` may be left unset by
      the host; `color` belongs to SOLID paints, `gradientStops` to gradients,
      `scaleMode` and `imageHash` to IMAGE paints. */
  datatype Paint = Paint(
    kind: string,
    visible: Option<bool>,
    opacity: Option<real>,
    color: Option<Color>,
    gradientStops: Option<seq<ColorStop>>,
    scaleMode: Option<string>,
    imageHash: Option<string>)

  /** One effect. `offset` and `spread` are read for shadows only, `radius` for shadows and blurs. */
  datatype Effect = Effect(
    kind: string,
    visible: Option<bool>,
    color: Option<Color>,
    offset: Vector,
    radius: real,
    spread: Option<real>)

  datatype Corners = Corners(topLeft: real, topRight: real, bottomRight: real, bottomLeft: real)

  datatype Padding = Padding(top: real, right: real, bottom: real, left: real)

  datatype Constraints = Constraints(horizontal: string, vertical: string)

  /** The auto-layout attributes of a node that has `layoutMode`; the last four
      are optional attributes of such nodes. */
  datatype LayoutProps = LayoutProps(
    layoutMode: string,
    itemSpacing: real,
    padding: Padding,
    counterAxisAlignItems: string,
    primaryAxisAlignItems: string,
    layoutWrap: Option<string>,
    counterAxisSpacing: Option<real>,
    primaryAxisSizingMode: Option<string>,
    counterAxisSizingMode: Option<string>)

  datatype FontName = FontName(family: string, style: string)

  /** `unit` is "AUTO", "PERCENT" or "PIXELS"; `value` is not read for "AUTO". */
  datatype LineHeight = LineHeight(unit: string, value: real)

  datatype LetterSpacing = LetterSpacing(unit: string, value: real)

  /** The typography attributes; consulted only on TEXT nodes. */
  datatype TextProps = TextProps(
    characters: string,
    fontName: Mixable<FontName>,
    fontSize: Mixable<real>,
    lineHeight: Mixable<LineHeight>,
    letterSpacing: Mixable<LetterSpacing>,
    textAlignHorizontal: string,
    textAlignVertical: string,
    textDecoration: Mixable<string>,
    textCase: Mixable<string>,
    paragraphSpacing: Option<real>)

  /** The parent of a main component, as far as the linkage reads it. */
  datatype ParentRef = ParentRef(kind: string, name: string)

  /** The main component an INSTANCE refers to, supplied by the host's lookup. */
  datatype MainComponent = MainComponent(name: string, parent: Option<ParentRef>)

  /** The type-dependent attributes of a node. `None`/`Absent` stands for an
      attribute the node does not carry. */
  datatype Attributes = Attributes(
    visible: bool,
    locked: bool,
    width: Option<real>,
    height: Option<real>,
    x: Option<real>,
    y: Option<real>,
    rotation: Option<real>,
    opacity: Option<real>,
    blendMode: Option<string>,
    cornerRadius: Tri<real>,
    corners: Corners,
    clipsContent: Option<bool>,
    constraints: Option<Constraints>,
    layoutSizingHorizontal: Option<string>,
    layoutSizingVertical: Option<string>,
    fills: Tri<seq<Paint>>,
    strokes: Option<seq<Paint>>,
    strokeWeight: Tri<real>,
    strokeAlign: Option<string>,
    strokeCap: Tri<string>,
    strokeJoin: Tri<string>,
    dashPattern: Option<seq<real>>,
    effects: Option<seq<Effect>>,
    layout: Option<LayoutProps>,
    text: TextProps,
    mainComponent: Option<MainComponent>)

  /** A node of the document tree. A node without a `children` attribute and
      one with an empty list are treated alike, so both are the empty sequence. */
  datatype Node = Node(id: string, name: string, kind: string, attrs: Attributes, children: seq<Node>)
}
