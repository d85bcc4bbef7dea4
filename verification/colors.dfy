/** Colour encodings: `#rrggbb` hex and `rgba(r, g, b, a)` text. */
module Colors {
  import opened Attrs
  import opened Numerals
  import opened Nodes

  /** A fractional channel scaled to 0..255 with `Math.round(c * 255)`. */
  function Channel(c: real): (v: int)
    ensures 0.0 <= c <= 1.0 ==> 0 <= v <= 255
  {
    Round(c * 255.0)
  }

  /** `colorToHex`: `#` and each channel as `toString(16)` padded to two digits;
      no value for a missing colour. */
  function ColorToHex(color: Option<Color>): (r: Option<string>)
    ensures r.Some? <==> color.Some?
    ensures r.Some? ==> |r.value| >= 7 && r.value[0] == '#'
  {
    match color
    case None => None
    case Some(c) =>
      Some("#" + PadStart2(IntToHex(Channel(c.r))) + PadStart2(IntToHex(Channel(c.g)))
               + PadStart2(IntToHex(Channel(c.b))))
  }

  /** `colorToRgba`: decimal channels and the alpha with two decimals; the alpha
      is 1 when none is given; no value for a missing colour. */
  function ColorToRgba(color: Option<Color>, opacity: Option<real>): (r: Option<string>)
    ensures r.Some? <==> color.Some?
  {
    match color
    case None => None
    case Some(c) =>
      var alpha := opacity.GetOr(1.0);
      Some("rgba(" + IntToDecimal(Channel(c.r)) + ", " + IntToDecimal(Channel(c.g)) + ", "
                   + IntToDecimal(Channel(c.b)) + ", " + ToFixed2(alpha) + ")")
  }

  predicate InUnit(c: real) {
    0.0 <= c <= 1.0
  }

  /** For a colour whose channels lie in [0, 1], the hex encoding is `#` and six
      lowercase hex digits, two per channel, and each pair reads back as its
      channel, which is within half a step (1/510) of the fractional input. */
  lemma HexFormat(c: Color)
    requires InUnit(c.r) && InUnit(c.g) && InUnit(c.b)
    ensures ColorToHex(Some(c)).Some?
    ensures var h := ColorToHex(Some(c)).value;
      && |h| == 7 && h[0] == '#'
      && (forall i :: 1 <= i < 7 ==> IsHexDigit(h[i]))
      && DigitsValue(h[1..3], 16) == Channel(c.r)
      && DigitsValue(h[3..5], 16) == Channel(c.g)
      && DigitsValue(h[5..7], 16) == Channel(c.b)
    ensures -0.5 <= Channel(c.r) as real - 255.0 * c.r <= 0.5
    ensures -0.5 <= Channel(c.g) as real - 255.0 * c.g <= 0.5
    ensures -0.5 <= Channel(c.b) as real - 255.0 * c.b <= 0.5
  {
    var pr, pg, pb := PadStart2(IntToHex(Channel(c.r))), PadStart2(IntToHex(Channel(c.g))),
                      PadStart2(IntToHex(Channel(c.b)));
    ByteHex(Channel(c.r));
    ByteHex(Channel(c.g));
    ByteHex(Channel(c.b));
    var h := "#" + pr + pg + pb;
    assert h == ColorToHex(Some(c)).value;
    assert h[1..3] == pr && h[3..5] == pg && h[5..7] == pb;
  }

  /** For a colour whose channels lie in [0, 1], the rgba text is `rgba(`, the
      three channels in decimal, then the alpha as `toFixed(2)` writes it
      (see Fixed2Reads), separated by ", " and closed by `)`; each channel
      reads back as its rounded value. */
  lemma RgbaFormat(c: Color, opacity: Option<real>) returns (r: string, g: string, b: string)
    requires InUnit(c.r) && InUnit(c.g) && InUnit(c.b)
    ensures ColorToRgba(Some(c), opacity)
              == Some("rgba(" + r + ", " + g + ", " + b + ", " + ToFixed2(opacity.GetOr(1.0)) + ")")
    ensures IsDecimalText(r) && IsDecimalText(g) && IsDecimalText(b)
    ensures DigitsValue(r, 10) == Channel(c.r)
    ensures DigitsValue(g, 10) == Channel(c.g)
    ensures DigitsValue(b, 10) == Channel(c.b)
  {
    r, g, b := IntToDecimal(Channel(c.r)), IntToDecimal(Channel(c.g)), IntToDecimal(Channel(c.b));
    DigitsRoundTrip(Channel(c.r), 10);
    DigitsRoundTrip(Channel(c.g), 10);
    DigitsRoundTrip(Channel(c.b), 10);
  }
}
