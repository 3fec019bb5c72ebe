/**
 * How the dock finds a tool's button: querySelector with the attribute selector
 * `[data-tool="<id>"]` (Appsbar.js:276, 365). The id goes into a CSS string, which the
 * selector parser reads with the tokenizer of CSS Syntax Module Level 3: preprocessing
 * (section 3.3), "consume a string token" (section 4.3.5) and "consume an escaped code
 * point" (section 4.3.7). Only what follows the opening quote is modelled.
 */
module Css {

  // ---------- tokenizer ----------

  /** Section 3.3: CR LF, CR and FF become LF, and U+0000 becomes U+FFFD. */
  function Preprocess(s: string): string
    decreases |s|
  {
    if s == [] then []
    else if s[0] == '\r' && |s| >= 2 && s[1] == '\n' then "\n" + Preprocess(s[2..])
    else if s[0] == '\r' || s[0] == '\U{C}' then "\n" + Preprocess(s[1..])
    else if s[0] == '\0' then "\U{FFFD}" + Preprocess(s[1..])
    else [s[0]] + Preprocess(s[1..])
  }

  /** No code point that preprocessing rewrites. */
  predicate Clean(s: string) {
    forall i :: 0 <= i < |s| ==> s[i] != '\r' && s[i] != '\U{C}' && s[i] != '\0'
  }

  predicate IsHexDigit(c: char) {
    ('0' <= c <= '9') || ('a' <= c <= 'f') || ('A' <= c <= 'F')
  }

  function HexDigitValue(c: char): (v: nat)
    requires IsHexDigit(c)
    ensures v < 16
  {
    if '0' <= c <= '9' then c as nat - '0' as nat
    else if 'a' <= c <= 'f' then c as nat - 'a' as nat + 10
    else c as nat - 'A' as nat + 10
  }

  /** Whitespace after preprocessing: LF, tab and space. */
  predicate IsCssSpace(c: char) {
    c == '\n' || c == '\t' || c == ' '
  }

  /** How many hex digits start t, up to max. */
  function HexRun(t: string, max: nat): (k: nat)
    ensures k <= max && k <= |t|
    ensures forall i :: 0 <= i < k ==> IsHexDigit(t[i])
    ensures k < max && k < |t| ==> !IsHexDigit(t[k])
    decreases max
  {
    if max == 0 || t == [] || !IsHexDigit(t[0]) then 0 else 1 + HexRun(t[1..], max - 1)
  }

  function HexValue(h: string): nat
    requires forall i :: 0 <= i < |h| ==> IsHexDigit(h[i])
    decreases |h|
  {
    if h == [] then 0 else HexValue(h[..|h| - 1]) * 16 + HexDigitValue(h[|h| - 1])
  }

  /** The code point of an escape's value: zero, a surrogate or a value past U+10FFFF is U+FFFD. */
  function CodePoint(v: nat): char {
    if v == 0 || (0xD800 <= v <= 0xDFFF) || v > 0x10FFFF then '\U{FFFD}' else v as char
  }

  /** Section 4.3.7, from just after the backslash: the code point the escape stands for and
      how many code points it uses (up to six hex digits and one whitespace after them, or one
      code point that stands for itself). */
  function EscapedCodePoint(t: string): (r: (char, nat))
    requires t != []
    ensures 1 <= r.1 <= |t|
  {
    var k := HexRun(t, 6);
    if k == 0 then (t[0], 1)
    else (CodePoint(HexValue(t[..k])), if k < |t| && IsCssSpace(t[k]) then k + 1 else k)
  }

  /** A string token's value and the text after its closing quote, or a bad string. */
  datatype StringToken = Str(value: string, rest: string) | BadString

  function Prepend(c: char, t: StringToken): StringToken {
    match t
    case Str(v, r) => Str([c] + v, r)
    case BadString => BadString
  }

  function PrependAll(p: string, t: StringToken): StringToken {
    match t
    case Str(v, r) => Str(p + v, r)
    case BadString => BadString
  }

  /** Section 4.3.5 with `"` as the ending code point, from just after the opening quote:
      the end of input ends the string, an unescaped line feed makes it a bad string, a
      backslash before a line feed is dropped with it, and any other backslash starts an escape. */
  function ConsumeString(s: string): StringToken
    decreases |s|
  {
    if s == [] then Str([], [])
    else if s[0] == '"' then Str([], s[1..])
    else if s[0] == '\n' then BadString
    else if s[0] == '\\' then
      if |s| == 1 then Str([], [])
      else if s[1] == '\n' then ConsumeString(s[2..])
      else
        var e := EscapedCodePoint(s[1..]);
        Prepend(e.0, ConsumeString(s[1 + e.1..]))
    else Prepend(s[0], ConsumeString(s[1..]))
  }

  // ---------- the button selector ----------

  /** Drops the whitespace at the start: the rest of s after its longest run of whitespace. */
  function SkipSpace(s: string): (r: string)
    ensures |r| <= |s| && r == s[|s| - |r|..]
    ensures forall i :: 0 <= i < |s| - |r| ==> IsCssSpace(s[i])
    ensures r != [] ==> !IsCssSpace(r[0])
    decreases |s|
  {
    if s != [] && IsCssSpace(s[0]) then SkipSpace(s[1..]) else s
  }

  predicate IsNameStart(c: char) {
    ('a' <= c <= 'z') || ('A' <= c <= 'Z') || c == '_' || c >= '\U{80}'
  }

  predicate IsNameChar(c: char) {
    IsNameStart(c) || ('0' <= c <= '9') || c == '-'
  }

  function NameRun(s: string): string
    decreases |s|
  {
    if s != [] && IsNameChar(s[0]) then [s[0]] + NameRun(s[1..]) else []
  }

  /** The case modifiers an attribute selector may carry before its `]`. */
  predicate IsModifier(name: string) {
    name == "i" || name == "I" || name == "s" || name == "S"
  }

  /** What `[data-tool="` + valueText + `"]` is as a selector: a test for one attribute value,
      a syntax error (querySelector throws), or some other selector, which this model does not
      read further. The block and the string both close at the end of input. */
  datatype AttributeSelector = Equals(value: string) | Invalid | Other

  function ParseButtonSelector(valueText: string): AttributeSelector {
    match ConsumeString(Preprocess(valueText + "\"]"))
    case BadString => Invalid
    case Str(v, rest) =>
      var r := SkipSpace(rest);
      if r == [] || r == "]" then Equals(v)
      else if r[0] == '"' || r[0] == '\'' then Invalid
      else if IsNameStart(r[0]) && !IsModifier(NameRun(r)) then Invalid
      else Other
  }

  /** querySelector(`[data-tool="${valueText}"]`) among the dock buttons, given by their tool ids. */
  datatype ButtonQuery = Found(present: bool) | Throws | NotModelled

  function QueryButton(buttons: set<string>, valueText: string): ButtonQuery {
    match ParseButtonSelector(valueText)
    case Equals(v) => Found(v in buttons)
    case Invalid => Throws
    case Other => NotModelled
  }

  /** As written, with the id put into the selector unescaped: an id holding a backslash asks for
      another button, and one holding a quote or a line break is a syntax error. */
  lemma UnescapedLookupMisreads()
    ensures ParseButtonSelector("a\\b") == Equals("a\U{B}")
    ensures QueryButton({"a\\b"}, "a\\b") == Found(false)
    ensures QueryButton({"a\"b"}, "a\"b") == Throws
    ensures QueryButton({"a\nb"}, "a\nb") == Throws
  {
    BackslashIdIsMisread();
    QuoteIdThrows();
    LineBreakIdThrows();
  }

  /** `a\b` holds the escape `\b`, the code point U+000B. */
  lemma BackslashIdIsMisread()
    ensures ParseButtonSelector("a\\b") == Equals("a\U{B}")
  {
    var t := "a\\b\"]";
    assert "a\\b" + "\"]" == t;
    assert Clean(t);
    PreprocessClean(t);
    BackslashToken();
    SelectorOfClosedValue("a\\b", "a\U{B}");
  }

  lemma BackslashToken()
    ensures ConsumeString("a\\b\"]") == Str("a\U{B}", "]")
  {
    var t := "a\\b\"]";
    assert t[0] == 'a' && t[1..] == "\\b\"]";
    BackslashBIsVerticalTab();
  }

  lemma BackslashBIsVerticalTab()
    ensures ConsumeString("\\b\"]") == Str("\U{B}", "]")
  {
    var u := "\\b\"]";
    assert HexRun("b\"]", 6) == 1 by { assert HexRun("\"]", 5) == 0; }
    assert "b\"]"[..1] == "b";
    assert HexValue("b") == 11 by { assert "b"[..0] == []; }
    assert EscapedCodePoint("b\"]") == ('\U{B}', 1);
    assert u[1..] == "b\"]" && u[2..] == "\"]";
    assert ConsumeString("\"]") == Str([], "]");
  }

  /** In `a"b` the string ends after `a`, and the name `b` cannot follow an attribute value. */
  lemma QuoteIdThrows()
    ensures ParseButtonSelector("a\"b") == Invalid
  {
    assert "a\"b" + "\"]" == "a\"b\"]";
    QuoteTextIsClean();
    QuoteToken();
    StrayNameB();
    SelectorOfStrayName("a\"b", "a", "b\"]");
  }

  lemma QuoteTextIsClean()
    ensures Preprocess("a\"b\"]") == "a\"b\"]"
  {
    var t := "a\"b\"]";
    assert Clean(t);
    PreprocessClean(t);
  }

  lemma StrayNameB()
    ensures NameRun("b\"]") == "b" && !IsModifier("b")
  {
    assert NameRun("\"]") == [];
  }

  lemma QuoteToken()
    ensures ConsumeString("a\"b\"]") == Str("a", "b\"]")
  {
    var t := "a\"b\"]";
    assert t[0] == 'a' && t[1..] == "\"b\"]";
    assert ConsumeString("\"b\"]") == Str([], "b\"]");
  }

  /** A line feed inside a string makes a bad string. */
  lemma LineBreakIdThrows()
    ensures ParseButtonSelector("a\nb") == Invalid
  {
    var t := "a\nb\"]";
    assert "a\nb" + "\"]" == t;
    assert Clean(t);
    PreprocessClean(t);
    assert t[0] == 'a' && t[1..] == "\nb\"]";
    assert ConsumeString(t) == BadString by {
      assert ConsumeString("\nb\"]") == BadString;
    }
    SelectorOfBadString("a\nb");
  }

  lemma SelectorOfBadString(valueText: string)
    requires ConsumeString(Preprocess(valueText + "\"]")) == BadString
    ensures ParseButtonSelector(valueText) == Invalid
  {
  }

  /** A value followed directly by a name other than a case modifier is a syntax error. */
  lemma SelectorOfStrayName(valueText: string, v: string, rest: string)
    requires ConsumeString(Preprocess(valueText + "\"]")) == Str(v, rest)
    requires rest != [] && !IsCssSpace(rest[0]) && IsNameStart(rest[0]) && !IsModifier(NameRun(rest))
    requires rest[0] != '"' && rest[0] != '\'' && rest != "]"
    ensures ParseButtonSelector(valueText) == Invalid
  {
    assert SkipSpace(rest) == rest;
  }

  // ---------- the escaped lookup ----------

  /** One code point as it may stand inside a CSS string: a quote or a backslash behind a
      backslash, a line break as a hex escape closed by a space, anything else as it is. */
  function EscapeChar(c: char): string {
    if c == '"' || c == '\\' then ['\\', c]
    else if c == '\n' then "\\a "
    else if c == '\r' then "\\d "
    else if c == '\U{C}' then "\\c "
    else [c]
  }

  /** The id escaped for use between the quotes of the selector: an escaping that reads back whole
      inside a CSS string (only `"`, `\`, LF, CR and FF are escaped). */
  function Escape(s: string): string
    decreases |s|
  {
    if s == [] then [] else EscapeChar(s[0]) + Escape(s[1..])
  }

  lemma ConsumeHexEscape(h: char, v: nat, u: string)
    requires IsHexDigit(h) && HexDigitValue(h) == v && 0 < v < 0xD800
    ensures ConsumeString(['\\', h, ' '] + u) == Prepend(v as char, ConsumeString(u))
  {
    var s := ['\\', h, ' '] + u;
    var t := s[1..];
    assert t == [h, ' '] + u;
    assert HexRun(t, 6) == 1 by { assert t[1..][0] == ' '; }
    assert t[..1] == [h];
    assert HexValue([h]) == v by { assert [h][..0] == []; }
    assert EscapedCodePoint(t) == (v as char, 2);
    assert s[1 + 2..] == u;
  }

  lemma ConsumeQuotedChar(c: char, u: string)
    requires c == '"' || c == '\\'
    ensures ConsumeString(['\\', c] + u) == Prepend(c, ConsumeString(u))
  {
    var s := ['\\', c] + u;
    assert s[1..] == [c] + u;
    assert HexRun(s[1..], 6) == 0;
    assert s[1 + 1..] == u;
  }

  /** Reading back the escape of one code point yields that code point. */
  lemma ConsumeEscapeChar(c: char, u: string)
    ensures ConsumeString(EscapeChar(c) + u) == Prepend(c, ConsumeString(u))
  {
    if c == '"' || c == '\\' {
      ConsumeQuotedChar(c, u);
    } else if c == '\n' {
      ConsumeHexEscape('a', 10, u);
    } else if c == '\r' {
      ConsumeHexEscape('d', 13, u);
    } else if c == '\U{C}' {
      ConsumeHexEscape('c', 12, u);
    } else {
      var s := [c] + u;
      assert s[0] == c && s[1..] == u;
    }
  }

  /** The string token reads the escaped id back whole, whatever follows it. */
  lemma {:induction false} ConsumeEscape(id: string, t: string)
    ensures ConsumeString(Escape(id) + t) == PrependAll(id, ConsumeString(t))
    decreases |id|
  {
    if id == [] {
      assert Escape(id) + t == t;
      PrependAllNil(ConsumeString(t));
    } else {
      var rest := Escape(id[1..]) + t;
      assert Escape(id) + t == EscapeChar(id[0]) + rest;
      ConsumeEscapeChar(id[0], rest);
      ConsumeEscape(id[1..], t);
      PrependAllCons(id[0], id[1..], ConsumeString(t));
      assert [id[0]] + id[1..] == id;
    }
  }

  lemma PrependAllNil(t: StringToken)
    ensures PrependAll([], t) == t
  {
    match t
    case Str(v, r) => assert [] + v == v;
    case BadString =>
  }

  lemma PrependAllCons(c: char, p: string, t: StringToken)
    ensures Prepend(c, PrependAll(p, t)) == PrependAll([c] + p, t)
  {
    match t
    case Str(v, r) => assert [c] + (p + v) == ([c] + p) + v;
    case BadString =>
  }

  lemma {:induction false} PreprocessClean(s: string)
    requires Clean(s)
    ensures Preprocess(s) == s
    decreases |s|
  {
    if s != [] {
      assert Clean(s[1..]) by {
        forall i | 0 <= i < |s[1..]| ensures s[1..][i] != '\r' && s[1..][i] != '\U{C}' && s[1..][i] != '\0' {
          assert s[1..][i] == s[i + 1];
        }
      }
      PreprocessClean(s[1..]);
    }
  }

  lemma {:induction false} EscapeIsClean(id: string, t: string)
    requires forall i :: 0 <= i < |id| ==> id[i] != '\0'
    requires Clean(t)
    ensures Clean(Escape(id) + t)
    decreases |id|
  {
    if id != [] {
      EscapeIsClean(id[1..], t);
      var tail := Escape(id[1..]) + t;
      var e := EscapeChar(id[0]);
      assert Clean(e);
      assert Escape(id) + t == e + tail;
      forall i | 0 <= i < |e + tail|
        ensures (e + tail)[i] != '\r' && (e + tail)[i] != '\U{C}' && (e + tail)[i] != '\0'
      {
        if i >= |e| {
          assert (e + tail)[i] == tail[i - |e|];
        }
      }
    }
  }

  /** With the id escaped, the lookup finds the button exactly when the tool has one. (No
      selector can name an id holding U+0000, which preprocessing turns into U+FFFD.) */
  lemma EscapedQueryIsExact(buttons: set<string>, id: string)
    requires forall i :: 0 <= i < |id| ==> id[i] != '\0'
    ensures ParseButtonSelector(Escape(id)) == Equals(id)
    ensures QueryButton(buttons, Escape(id)) == Found(id in buttons)
  {
    EscapedValueReadsBack(id);
    SelectorOfClosedValue(Escape(id), id);
    QueryOfEquals(buttons, Escape(id), id);
  }

  /** The string of the escaped selector holds exactly the id and closes before the final `]`. */
  lemma EscapedValueReadsBack(id: string)
    requires forall i :: 0 <= i < |id| ==> id[i] != '\0'
    ensures ConsumeString(Preprocess(Escape(id) + "\"]")) == Str(id, "]")
  {
    var tail := "\"]";
    var text := Escape(id) + tail;
    ClosingQuote();
    EscapeIsClean(id, tail);
    PreprocessClean(text);
    ConsumeEscape(id, tail);
    assert id + [] == id;
  }

  lemma ClosingQuote()
    ensures ConsumeString("\"]") == Str([], "]") && Clean("\"]")
  {
  }

  lemma QueryOfEquals(buttons: set<string>, valueText: string, v: string)
    requires ParseButtonSelector(valueText) == Equals(v)
    ensures QueryButton(buttons, valueText) == Found(v in buttons)
  {
  }

  /** A value whose string closes just before the final `]` is a test for that value. */
  lemma SelectorOfClosedValue(valueText: string, v: string)
    requires ConsumeString(Preprocess(valueText + "\"]")) == Str(v, "]")
    ensures ParseButtonSelector(valueText) == Equals(v)
  {
    assert SkipSpace("]") == "]";
  }
}
