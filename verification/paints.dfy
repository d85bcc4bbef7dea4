/** Paint and effect lists: the `fills`, `strokes` and `effects` entries of a
    node's property document. */
module Paints {
  import opened Attrs
  import opened Seqs
  import opened Numerals
  import opened Nodes
  import opened Colors

  /** A gradient stop: its position as a whole percentage ("50%") and its hex colour. */
  datatype StopEntry = StopEntry(position: string, color: Option<string>)

  /** What a fill entry carries beyond `type` and `opacity`. */
  datatype FillDetail =
    | PlainFill
    | SolidFill(color: string)
    | GradientFill(gradientStops: seq<StopEntry>)
    | ImageFill(scaleMode: Option<string>, imageHash: Option<string>)

  datatype FillEntry = FillEntry(kind: string, opacity: Option<real>, detail: FillDetail)

  datatype SolidStroke = SolidStroke(color: string, opacity: Option<real>)

  /** A stroke entry; only SOLID strokes with a colour carry `color` and `opacity`. */
  datatype StrokeEntry = StrokeEntry(kind: string, solid: Option<SolidStroke>)

  /** The `strokes` block. `weight`, `cap` and `join` keep the attribute as read,
      the "mixed" sentinel included; `Absent` is a key that is not emitted. */
  datatype StrokeBlock = StrokeBlock(
    colors: seq<StrokeEntry>,
    weight: Tri<real>,
    align: Option<string>,
    cap: Tri<string>,
    join: Tri<string>,
    dashPattern: Option<seq<real>>)

  /** What an effect entry carries beyond `type`. */
  datatype EffectDetail =
    | PlainEffect
    | Shadow(color: Option<string>, offset: Vector, blur: real, spread: Option<real>)
    | Blur(blur: real)

  datatype EffectEntry = EffectEntry(kind: string, detail: EffectDetail)

  /** Only an explicit `visible: false` hides a paint or an effect. */
  predicate PaintShown(p: Paint) {
    p.visible != Some(false)
  }

  predicate EffectShown(e: Effect) {
    e.visible != Some(false)
  }

  /** A type name beginning with "GRADIENT" (`indexOf('GRADIENT') === 0`). */
  predicate IsGradient(kind: string) {
    |kind| >= 8 && kind[..8] == "GRADIENT"
  }

  function StopEntryOf(s: ColorStop): StopEntry {
    StopEntry(IntToDecimal(Round(s.position * 100.0)) + "%", ColorToHex(s.color))
  }

  /** A stop whose position lies in [0, 1] is written as 0..100 decimal digits
      and a percent sign, reading back as its rounded percentage. */
  lemma StopEntryFormat(s: ColorStop)
    requires 0.0 <= s.position <= 1.0
    ensures var pos := StopEntryOf(s).position;
      && |pos| >= 2 && pos[|pos| - 1] == '%'
      && (forall i :: 0 <= i < |pos| - 1 ==> IsDecimalDigit(pos[i]))
      && DigitsValue(pos[..|pos| - 1], 10) == Round(s.position * 100.0) <= 100
  {
    var percent := Round(s.position * 100.0);
    var pos := StopEntryOf(s).position;
    assert pos[..|pos| - 1] == IntToDecimal(percent);
    DigitsRoundTrip(percent, 10);
  }

  function GradientStopEntries(stops: Option<seq<ColorStop>>): seq<StopEntry> {
    match stops
    case None => []
    case Some(ss) => Map(ss, StopEntryOf)
  }

  /** One fill entry: `type` and `opacity`, then the hex colour of a coloured
      SOLID, else the stop list of a gradient, else the image settings of an IMAGE. */
  function FillEntryOf(p: Paint): FillEntry {
    var detail :=
      if p.kind == "SOLID" && p.color.Some? then SolidFill(ColorToHex(p.color).value)
      else if IsGradient(p.kind) then GradientFill(GradientStopEntries(p.gradientStops))
      else if p.kind == "IMAGE" then ImageFill(p.scaleMode, p.imageHash)
      else PlainFill;
    FillEntry(p.kind, p.opacity, detail)
  }

  /** Which extra fields a fill entry carries: a colour exactly for a coloured
      SOLID, a stop list for every gradient (one entry per stop, in the paint's
      order; empty when the paint has none), the image settings exactly for
      IMAGE, nothing else otherwise. */
  lemma FillEntryShape(p: Paint)
    ensures var r := FillEntryOf(p);
      && r.kind == p.kind && r.opacity == p.opacity
      && (r.detail.SolidFill? <==> p.kind == "SOLID" && p.color.Some?)
      && (r.detail.SolidFill? ==> ColorToHex(p.color) == Some(r.detail.color))
      && (IsGradient(p.kind) ==>
           && r.detail.GradientFill?
           && |r.detail.gradientStops| == (if p.gradientStops.Some? then |p.gradientStops.value| else 0)
           && (p.gradientStops.Some? ==>
                 forall j :: 0 <= j < |p.gradientStops.value| ==>
                   r.detail.gradientStops[j] == StopEntryOf(p.gradientStops.value[j])))
      && (r.detail.ImageFill? <==> p.kind == "IMAGE")
      && (r.detail.ImageFill? ==> r.detail.scaleMode == p.scaleMode && r.detail.imageHash == p.imageHash)
      && (r.detail.PlainFill? <==>
           !(p.kind == "SOLID" && p.color.Some?) && !IsGradient(p.kind) && p.kind != "IMAGE")
  {
    if p.gradientStops.Some? {
      MapAt(p.gradientStops.value, StopEntryOf);
    }
    assert !IsGradient("SOLID") && !IsGradient("IMAGE") by {
      assert "SOLID"[0] != "GRADIENT"[0] && "IMAGE"[0] != "GRADIENT"[0];
    }
  }

  /** `getFills`: the entries of the shown fills, in order; no value when the
      list is absent, mixed or empty, or when every fill is hidden. */
  function Fills(n: Node): Option<seq<FillEntry>> {
    if !n.attrs.fills.Value? || |n.attrs.fills.value| == 0 then None
    else
      var fills := Map(Filter(n.attrs.fills.value, PaintShown), FillEntryOf);
      if |fills| > 0 then Some(fills) else None
  }

  function StrokeEntryOf(p: Paint): StrokeEntry
  {
    if p.kind == "SOLID" && p.color.Some? then StrokeEntry(p.kind, Some(SolidStroke(ColorToHex(p.color).value, p.opacity)))
    else StrokeEntry(p.kind, None)
  }

  /** A stroke entry keeps the paint's type and carries a colour exactly for SOLID strokes that have one. */
  lemma StrokeEntryShape(p: Paint)
    ensures StrokeEntryOf(p).kind == p.kind
    ensures StrokeEntryOf(p).solid.Some? <==> p.kind == "SOLID" && p.color.Some?
    ensures StrokeEntryOf(p).solid.Some? ==> ColorToHex(p.color) == Some(StrokeEntryOf(p).solid.value.color) && StrokeEntryOf(p).solid.value.opacity == p.opacity
  {
  }

  /** `getStrokes`: the shown strokes with the node's weight and alignment, the
      cap unless it is "NONE", the join when the node has one and the dash
      pattern when it is not empty; no value when no stroke is shown. */
  function Strokes(n: Node): Option<StrokeBlock>
  {
    match n.attrs.strokes
    case None => None
    case Some(ss) =>
      if |ss| == 0 then None
      else
        var colors := Map(Filter(ss, PaintShown), StrokeEntryOf);
        if |colors| == 0 then None
        else
          var a := n.attrs;
          Some(StrokeBlock(
            colors, a.strokeWeight, a.strokeAlign,
            if a.strokeCap.Absent? || a.strokeCap == Value("NONE") then Absent else a.strokeCap,
            a.strokeJoin,
            if a.dashPattern.Some? && |a.dashPattern.value| > 0 then a.dashPattern else None))
  }

  /** What the stroke block carries when there is one. */
  lemma StrokesShape(n: Node)
    ensures Strokes(n).Some? ==>
      && |Strokes(n).value.colors| > 0
      && Strokes(n).value.weight == n.attrs.strokeWeight
      && Strokes(n).value.align == n.attrs.strokeAlign
      && Strokes(n).value.join == n.attrs.strokeJoin
    ensures Strokes(n).Some? ==> (Strokes(n).value.cap.Absent? <==> n.attrs.strokeCap.Absent? || n.attrs.strokeCap == Value("NONE"))
    ensures Strokes(n).Some? && !Strokes(n).value.cap.Absent? ==> Strokes(n).value.cap == n.attrs.strokeCap
    ensures Strokes(n).Some? ==> (Strokes(n).value.dashPattern.Some? <==> n.attrs.dashPattern.Some? && |n.attrs.dashPattern.value| > 0)
    ensures Strokes(n).Some? && Strokes(n).value.dashPattern.Some? ==> Strokes(n).value.dashPattern == n.attrs.dashPattern
  {
  }

  /** One effect entry. A shadow's colour is rendered as rgba with the colour's
      own alpha channel as the opacity argument, and is null when the effect has
      no colour; `spread` only when it is non-zero. */
  function EffectEntryOf(e: Effect): EffectEntry
  {
    if e.kind == "DROP_SHADOW" || e.kind == "INNER_SHADOW" then
      var color := match e.color
        case Some(c) => ColorToRgba(e.color, c.a)
        case None => None;
      var spread := if e.spread.Some? && e.spread.value != 0.0 then e.spread else None;
      EffectEntry(e.kind, Shadow(color, e.offset, e.radius, spread))
    else if e.kind == "LAYER_BLUR" || e.kind == "BACKGROUND_BLUR" then
      EffectEntry(e.kind, Blur(e.radius))
    else
      EffectEntry(e.kind, PlainEffect)
  }

  /** Which detail an effect entry carries, by the effect's type. */
  lemma EffectEntryShape(e: Effect)
    ensures EffectEntryOf(e).kind == e.kind
    ensures EffectEntryOf(e).detail.Shadow? <==> e.kind == "DROP_SHADOW" || e.kind == "INNER_SHADOW"
    ensures EffectEntryOf(e).detail.Blur? <==> e.kind == "LAYER_BLUR" || e.kind == "BACKGROUND_BLUR"
    ensures EffectEntryOf(e).detail.Shadow? ==>
      && (EffectEntryOf(e).detail.color.Some? <==> e.color.Some?)
      && (e.color.Some? ==> EffectEntryOf(e).detail.color == ColorToRgba(e.color, e.color.value.a))
      && EffectEntryOf(e).detail.offset == e.offset
      && EffectEntryOf(e).detail.blur == e.radius
      && (EffectEntryOf(e).detail.spread.Some? <==> e.spread.Some? && e.spread.value != 0.0)
      && (EffectEntryOf(e).detail.spread.Some? ==> EffectEntryOf(e).detail.spread == e.spread)
    ensures EffectEntryOf(e).detail.Blur? ==> EffectEntryOf(e).detail.blur == e.radius
  {
  }

  /** `getEffects`: the entries of the shown effects, in order; no value when
      the list is absent or empty or every effect is hidden. */
  function Effects(n: Node): Option<seq<EffectEntry>> {
    match n.attrs.effects
    case None => None
    case Some(es) =>
      if |es| == 0 then None
      else
        var effects := Map(Filter(es, EffectShown), EffectEntryOf);
        if |effects| > 0 then Some(effects) else None
  }

  // ----- properties of the paint lists -----

  /** `getFills` gives no value exactly when the fills are absent, mixed, or
      all hidden (an empty list included). */
  lemma FillsNoneIff(n: Node)
    ensures Fills(n).None? <==>
      || !n.attrs.fills.Value?
      || forall i :: 0 <= i < |n.attrs.fills.value| ==> n.attrs.fills.value[i].visible == Some(false)
  {
    if n.attrs.fills.Value? {
      FilterEmptyIff(n.attrs.fills.value, PaintShown);
      MapAt(Filter(n.attrs.fills.value, PaintShown), FillEntryOf);
    }
  }

  /** The fill entries are those of the shown fills, one each, in source order:
      entry k comes from source position idx[k], the positions increase, and a
      position is used exactly when its fill is shown. */
  lemma FillsOrder(n: Node) returns (idx: seq<nat>)
    requires Fills(n).Some?
    ensures n.attrs.fills.Value?
    ensures var ps, es := n.attrs.fills.value, Fills(n).value;
      && |idx| == |es|
      && (forall k :: 0 <= k < |idx| ==> idx[k] < |ps| && es[k] == FillEntryOf(ps[idx[k]]))
      && (forall k, l :: 0 <= k < l < |idx| ==> idx[k] < idx[l])
      && (forall j :: 0 <= j < |ps| ==> (ps[j].visible != Some(false) <==> j in idx))
  {
    idx := FilterPositions(n.attrs.fills.value, PaintShown);
    MapAt(Filter(n.attrs.fills.value, PaintShown), FillEntryOf);
  }

  /** `getStrokes` gives no value exactly when the strokes are absent or all
      hidden (an empty list included). */
  lemma StrokesNoneIff(n: Node)
    ensures Strokes(n).None? <==>
      || n.attrs.strokes.None?
      || forall i :: 0 <= i < |n.attrs.strokes.value| ==> n.attrs.strokes.value[i].visible == Some(false)
  {
    if n.attrs.strokes.Some? {
      FilterEmptyIff(n.attrs.strokes.value, PaintShown);
      MapAt(Filter(n.attrs.strokes.value, PaintShown), StrokeEntryOf);
    }
  }

  /** The stroke colours are the entries of the shown strokes, in source order. */
  lemma StrokesOrder(n: Node) returns (idx: seq<nat>)
    requires Strokes(n).Some?
    ensures n.attrs.strokes.Some?
    ensures var ss, cs := n.attrs.strokes.value, Strokes(n).value.colors;
      && |idx| == |cs|
      && (forall k :: 0 <= k < |idx| ==> idx[k] < |ss| && cs[k] == StrokeEntryOf(ss[idx[k]]))
      && (forall k, l :: 0 <= k < l < |idx| ==> idx[k] < idx[l])
      && (forall j :: 0 <= j < |ss| ==> (ss[j].visible != Some(false) <==> j in idx))
  {
    idx := FilterPositions(n.attrs.strokes.value, PaintShown);
    MapAt(Filter(n.attrs.strokes.value, PaintShown), StrokeEntryOf);
  }

  /** `getEffects` gives no value exactly when the effects are absent or all hidden. */
  lemma EffectsNoneIff(n: Node)
    ensures Effects(n).None? <==>
      || n.attrs.effects.None?
      || forall i :: 0 <= i < |n.attrs.effects.value| ==> n.attrs.effects.value[i].visible == Some(false)
  {
    if n.attrs.effects.Some? {
      FilterEmptyIff(n.attrs.effects.value, EffectShown);
      MapAt(Filter(n.attrs.effects.value, EffectShown), EffectEntryOf);
    }
  }

  /** The effect entries are those of the shown effects, in source order. */
  lemma EffectsOrder(n: Node) returns (idx: seq<nat>)
    requires Effects(n).Some?
    ensures n.attrs.effects.Some?
    ensures var fx, es := n.attrs.effects.value, Effects(n).value;
      && |idx| == |es|
      && (forall k :: 0 <= k < |idx| ==> idx[k] < |fx| && es[k] == EffectEntryOf(fx[idx[k]]))
      && (forall k, l :: 0 <= k < l < |idx| ==> idx[k] < idx[l])
      && (forall j :: 0 <= j < |fx| ==> (fx[j].visible != Some(false) <==> j in idx))
  {
    idx := FilterPositions(n.attrs.effects.value, EffectShown);
    MapAt(Filter(n.attrs.effects.value, EffectShown), EffectEntryOf);
  }

  // ----- the accumulator loops -----

  /** The body of `getFills`' loop for one shown fill, which builds the entry
      field by field. */
  method BuildFillEntry(fill: Paint) returns (f: FillEntry)
    ensures f == FillEntryOf(fill)
  {
    f := FillEntry(fill.kind, fill.opacity, PlainFill);
    if fill.kind == "SOLID" && fill.color.Some? {
      f := f.(detail := SolidFill(ColorToHex(fill.color).value));
    } else if IsGradient(fill.kind) {
      var stops: seq<StopEntry> := [];
      if fill.gradientStops.Some? {
        stops := BuildStopEntries(fill.gradientStops.value);
      }
      f := f.(detail := GradientFill(stops));
    } else if fill.kind == "IMAGE" {
      f := f.(detail := ImageFill(fill.scaleMode, fill.imageHash));
    }
  }

  /** The inner loop of `getFills` over a gradient's stops. */
  method BuildStopEntries(gs: seq<ColorStop>) returns (stops: seq<StopEntry>)
    ensures stops == Map(gs, StopEntryOf)
  {
    stops := [];
    for j := 0 to |gs|
      invariant stops == Map(gs[..j], StopEntryOf)
    {
      MapSnoc(gs[..j], gs[j], StopEntryOf);
      assert gs[..j + 1] == gs[..j] + [gs[j]];
      stops := stops + [StopEntryOf(gs[j])];
    }
    assert gs[..|gs|] == gs;
  }

  method GetFills(n: Node) returns (r: Option<seq<FillEntry>>)
    ensures r == Fills(n)
  {
    if !n.attrs.fills.Value? || |n.attrs.fills.value| == 0 {
      return None;
    }
    var ps := n.attrs.fills.value;
    var fills: seq<FillEntry> := [];
    for i := 0 to |ps|
      invariant fills == Map(Filter(ps[..i], PaintShown), FillEntryOf)
    {
      var fill := ps[i];
      FilterMapSnoc(ps, i, PaintShown, FillEntryOf);
      if fill.visible == Some(false) {
        continue;
      }
      var f := BuildFillEntry(fill);
      fills := fills + [f];
    }
    assert ps[..|ps|] == ps;
    r := if |fills| > 0 then Some(fills) else None;
  }

  /** The body of `getStrokes`' loop for one shown stroke. */
  method BuildStrokeEntry(stroke: Paint) returns (s: StrokeEntry)
    ensures s == StrokeEntryOf(stroke)
  {
    s := StrokeEntry(stroke.kind, None);
    if stroke.kind == "SOLID" && stroke.color.Some? {
      s := s.(solid := Some(SolidStroke(ColorToHex(stroke.color).value, stroke.opacity)));
    }
  }

  method GetStrokes(n: Node) returns (r: Option<StrokeBlock>)
    ensures r == Strokes(n)
  {
    if n.attrs.strokes.None? || |n.attrs.strokes.value| == 0 {
      return None;
    }
    var ss := n.attrs.strokes.value;
    var strokes: seq<StrokeEntry> := [];
    for i := 0 to |ss|
      invariant strokes == Map(Filter(ss[..i], PaintShown), StrokeEntryOf)
    {
      var stroke := ss[i];
      FilterMapSnoc(ss, i, PaintShown, StrokeEntryOf);
      if stroke.visible == Some(false) {
        continue;
      }
      var s := BuildStrokeEntry(stroke);
      strokes := strokes + [s];
    }
    assert ss[..|ss|] == ss;
    if |strokes| == 0 {
      return None;
    }
    var a := n.attrs;
    var result := StrokeBlock(strokes, a.strokeWeight, a.strokeAlign, Absent, Absent, None);
    if !a.strokeCap.Absent? && a.strokeCap != Value("NONE") {
      result := result.(cap := a.strokeCap);
    }
    if !a.strokeJoin.Absent? {
      result := result.(join := a.strokeJoin);
    }
    if a.dashPattern.Some? && |a.dashPattern.value| > 0 {
      result := result.(dashPattern := a.dashPattern);
    }
    r := Some(result);
  }

  /** The body of `getEffects`' loop for one shown effect. */
  method BuildEffectEntry(effect: Effect) returns (e: EffectEntry)
    ensures e == EffectEntryOf(effect)
  {
    e := EffectEntry(effect.kind, PlainEffect);
    if effect.kind == "DROP_SHADOW" || effect.kind == "INNER_SHADOW" {
      var color := if effect.color.Some? then ColorToRgba(effect.color, effect.color.value.a) else None;
      var spread := if effect.spread.Some? && effect.spread.value != 0.0 then effect.spread else None;
      e := e.(detail := Shadow(color, effect.offset, effect.radius, spread));
    } else if effect.kind == "LAYER_BLUR" || effect.kind == "BACKGROUND_BLUR" {
      e := e.(detail := Blur(effect.radius));
    }
  }

  method GetEffects(n: Node) returns (r: Option<seq<EffectEntry>>)
    ensures r == Effects(n)
  {
    if n.attrs.effects.None? || |n.attrs.effects.value| == 0 {
      return None;
    }
    var fx := n.attrs.effects.value;
    var effects: seq<EffectEntry> := [];
    for i := 0 to |fx|
      invariant effects == Map(Filter(fx[..i], EffectShown), EffectEntryOf)
    {
      FilterMapSnoc(fx, i, EffectShown, EffectEntryOf);
      if fx[i].visible == Some(false) {
        continue;
      }
      var e := BuildEffectEntry(fx[i]);
      effects := effects + [e];
    }
    assert fx[..|fx|] == fx;
    r := if |effects| > 0 then Some(effects) else None;
  }
}
