/** The hex colour text box (`ColorPickerRow.tsx`, and the same rule in the quest forms): the
    trimmed text is taken when it is `#` and six hex digits, an empty box gives the default
    colour, and anything else is ignored. */
module ColorPicker {
  import opened Wrappers
  import opened Text

  /** The default colour of `ColorPickerRow`. */
  const RowDefault: string := "#000000"

  predicate IsHexDigit(c: char) {
    '0' <= c <= '9' || 'A' <= c <= 'F' || 'a' <= c <= 'f'
  }

  /** `/^#[0-9A-Fa-f]{6}$/.test(s)`. */
  predicate IsHexColor(s: string) {
    |s| == 7 && s[0] == '#' && forall i | 1 <= i < 7 :: IsHexDigit(s[i])
  }

  /** The colour the text box passes on for `text`, with `fallback` for an empty box; None
      when it passes nothing on. */
  function AcceptHexText(text: string, fallback: string): (r: Option<string>)
    ensures r.Some? <==> IsHexColor(Trim(text)) || AllWhiteSpace(text)
    ensures IsHexColor(Trim(text)) ==> r == Some(Trim(text))
    ensures AllWhiteSpace(text) ==> r == Some(fallback)
  {
    var v := Trim(text);
    if IsHexColor(v) || v == "" then Some(if v == "" then fallback else v) else None
  }

  /** `ColorPickerRow`'s text box. */
  function RowColorText(text: string): Option<string> {
    AcceptHexText(text, RowDefault)
  }

  /** With a well-formed fallback, whatever the box passes on is a well-formed colour: seven
      characters starting with `#`. */
  lemma AcceptedIsHexColor(text: string, fallback: string)
    requires IsHexColor(fallback)
    ensures AcceptHexText(text, fallback).Some? ==> IsHexColor(AcceptHexText(text, fallback).value)
    ensures AcceptHexText(text, fallback).Some? ==>
      |AcceptHexText(text, fallback).value| == 7 && AcceptHexText(text, fallback).value[0] == '#'
  {
  }

  /** Typing back the colour the box shows is accepted unchanged. */
  lemma AcceptedColorIsStable(text: string, fallback: string)
    requires IsHexColor(fallback)
    requires AcceptHexText(text, fallback).Some?
    ensures AcceptHexText(AcceptHexText(text, fallback).value, fallback) == AcceptHexText(text, fallback)
  {
    HexColorIsTrimmed(AcceptHexText(text, fallback).value);
  }

  lemma HexColorIsTrimmed(s: string)
    requires IsHexColor(s)
    ensures Trim(s) == s
  {
    assert !IsWhiteSpace(s[0]) && !IsWhiteSpace(s[6]);
    assert TrimStart(s) == s;
    assert TrimEnd(s) == s;
  }

  /** `ColorPickerRow` only ever passes on `#000000` or a six-digit hex colour. */
  lemma RowPassesHexColors(text: string)
    ensures RowColorText(text).Some? ==> IsHexColor(RowColorText(text).value)
  {
    AcceptedIsHexColor(text, RowDefault);
  }
}
