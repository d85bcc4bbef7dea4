/** The `text` block of a TEXT node. */
module Typography {
  import opened Attrs
  import opened Nodes

  /** A JSON scalar of the text block: a number, a string, or the string made of
      a number followed by "%" (`value + '%'`; the number's decimal rendering is
      not modelled). */
  datatype Scalar = Num(num: real) | Str(str: string) | Percent(percent: real)

  datatype TextStyle = TextStyle(
    content: string,
    fontFamily: string,
    fontStyle: Option<string>,
    fontSize: Scalar,
    lineHeight: Option<Scalar>,
    letterSpacing: Option<Scalar>,
    textAlignHorizontal: string,
    textAlignVertical: string,
    textDecoration: Option<string>,
    textCase: Option<string>,
    paragraphSpacing: Option<real>)

  function LineHeightOf(lh: LineHeight): Scalar {
    if lh.unit == "AUTO" then Str("auto")
    else if lh.unit == "PERCENT" then Percent(lh.value)
    else Num(lh.value)
  }

  function LetterSpacingOf(ls: LetterSpacing): Scalar {
    if ls.unit == "PERCENT" then Percent(ls.value) else Num(ls.value)
  }

  /** `getTextStyles`: no value unless the node is a TEXT node. A mixed font
      gives the family "mixed" and no style; a mixed size gives "mixed"; a mixed
      line height or letter spacing is left out; decoration and case appear only
      when determinate and not "NONE" / "ORIGINAL"; the paragraph spacing only
      when present and positive; the alignments always. */
  function TextStylesOf(n: Node): Option<TextStyle>
  {
    if n.kind != "TEXT" then None
    else
      var t := n.attrs.text;
      var font := match t.fontName
        case Determinate(f) => (f.family, Some(f.style))
        case Indeterminate => ("mixed", None);
      Some(TextStyle(
        t.characters,
        font.0,
        font.1,
        match t.fontSize
          case Determinate(size) => Num(size)
          case Indeterminate => Str("mixed"),
        match t.lineHeight
          case Determinate(lh) => Some(LineHeightOf(lh))
          case Indeterminate => None,
        match t.letterSpacing
          case Determinate(ls) => Some(LetterSpacingOf(ls))
          case Indeterminate => None,
        t.textAlignHorizontal,
        t.textAlignVertical,
        if t.textDecoration.Determinate? && t.textDecoration.value != "NONE" then Some(t.textDecoration.value) else None,
        if t.textCase.Determinate? && t.textCase.value != "ORIGINAL" then Some(t.textCase.value) else None,
        if t.paragraphSpacing.Some? && t.paragraphSpacing.value > 0.0 then t.paragraphSpacing else None))
  }

  /** When the text block exists and what each of its keys is. */
  lemma TextStylesShape(n: Node)
    ensures TextStylesOf(n).Some? <==> n.kind == "TEXT"
    ensures TextStylesOf(n).Some? ==>
      var t, s := n.attrs.text, TextStylesOf(n).value;
      && s.content == t.characters
      && s.textAlignHorizontal == t.textAlignHorizontal
      && s.textAlignVertical == t.textAlignVertical
      && (t.fontName.Indeterminate? ==> s.fontFamily == "mixed" && s.fontStyle.None?)
      && (t.fontName.Determinate? ==>
            s.fontFamily == t.fontName.value.family && s.fontStyle == Some(t.fontName.value.style))
      && (t.fontSize.Indeterminate? ==> s.fontSize == Str("mixed"))
      && (t.fontSize.Determinate? ==> s.fontSize == Num(t.fontSize.value))
      && (s.lineHeight.None? <==> t.lineHeight.Indeterminate?)
      && (s.lineHeight == Some(Str("auto")) <==> t.lineHeight.Determinate? && t.lineHeight.value.unit == "AUTO")
      && (t.lineHeight.Determinate? && t.lineHeight.value.unit == "PERCENT" ==>
            s.lineHeight == Some(Percent(t.lineHeight.value.value)))
      && (t.lineHeight.Determinate? && t.lineHeight.value.unit != "AUTO" && t.lineHeight.value.unit != "PERCENT" ==>
            s.lineHeight == Some(Num(t.lineHeight.value.value)))
      && (s.letterSpacing.None? <==> t.letterSpacing.Indeterminate?)
      && (t.letterSpacing.Determinate? ==>
            s.letterSpacing == Some(if t.letterSpacing.value.unit == "PERCENT" then Percent(t.letterSpacing.value.value)
                                    else Num(t.letterSpacing.value.value)))
      && (s.textDecoration.Some? <==> t.textDecoration.Determinate? && t.textDecoration.value != "NONE")
      && (s.textDecoration.Some? ==> s.textDecoration.value == t.textDecoration.value)
      && (s.textCase.Some? <==> t.textCase.Determinate? && t.textCase.value != "ORIGINAL")
      && (s.textCase.Some? ==> s.textCase.value == t.textCase.value)
      && (s.paragraphSpacing.Some? <==> t.paragraphSpacing.Some? && t.paragraphSpacing.value > 0.0)
      && (s.paragraphSpacing.Some? ==> s.paragraphSpacing == t.paragraphSpacing)
  {
  }
}
