/**
 * The `type` tool of the MCP server (mcp-server/src/tools/type.ts): the key description
 * `getKeyInfo` gives each character, and the commands the tool sends for a text. Text is a
 * sequence of UTF-16 code units, as JavaScript strings are.
 */
module TypeTool {
  import opened Wrappers

  /** A UTF-16 code unit. */
  type Unit = u: int | 0 <= u < 0x1_0000

  predicate IsHighSurrogate(u: Unit) {
    0xD800 <= u < 0xDC00
  }

  predicate IsLowSurrogate(u: Unit) {
    0xDC00 <= u < 0xE000
  }

  /** An ASCII literal as code units. */
  function U(s: string): (r: seq<Unit>)
    requires forall i :: 0 <= i < |s| ==> s[i] as int < 128
    ensures |r| == |s| && forall i :: 0 <= i < |s| ==> r[i] == s[i] as int
  {
    if s == [] then [] else [s[0] as int as Unit] + U(s[1..])
  }

  // ---------------------------------------------------------------------------------------------
  // for…of: iterating by code point

  /** The strings `for (const char of text)` yields: a surrogate pair together, every other unit alone. */
  function CodePoints(text: seq<Unit>): (cps: seq<seq<Unit>>)
    ensures forall i :: 0 <= i < |cps| ==> 1 <= |cps[i]| <= 2
    ensures forall i :: 0 <= i < |cps| && |cps[i]| == 2 ==> IsHighSurrogate(cps[i][0]) && IsLowSurrogate(cps[i][1])
    decreases |text|
  {
    if text == [] then []
    else if |text| >= 2 && IsHighSurrogate(text[0]) && IsLowSurrogate(text[1]) then [text[..2]] + CodePoints(text[2..])
    else [text[..1]] + CodePoints(text[1..])
  }

  function Concat(cps: seq<seq<Unit>>): seq<Unit> {
    if cps == [] then [] else cps[0] + Concat(cps[1..])
  }

  /** Iterating by code point loses nothing and reorders nothing: the pieces spell the text. */
  lemma {:induction false} CodePointsSpellText(text: seq<Unit>)
    ensures Concat(CodePoints(text)) == text
    decreases |text|
  {
    if text != [] {
      if |text| >= 2 && IsHighSurrogate(text[0]) && IsLowSurrogate(text[1]) {
        CodePointsSpellText(text[2..]);
        assert text == text[..2] + text[2..];
      } else {
        CodePointsSpellText(text[1..]);
        assert text == text[..1] + text[1..];
      }
    }
  }

  /** Text without surrogates has one code point per unit. */
  lemma {:induction false} CodePointsOfBmpText(text: seq<Unit>)
    requires forall i :: 0 <= i < |text| ==> !IsHighSurrogate(text[i])
    ensures |CodePoints(text)| == |text|
    ensures forall i :: 0 <= i < |text| ==> CodePoints(text)[i] == [text[i]]
    decreases |text|
  {
    if text != [] {
      CodePointsOfBmpText(text[1..]);
    }
  }

  // ---------------------------------------------------------------------------------------------
  // getKeyInfo

  predicate IsAsciiLower(u: Unit) {
    'a' as int <= u <= 'z' as int
  }

  /**
   * `toUpperCase` of a string: ASCII letters are mapped to capitals; every other unit is kept
   * (Unicode case mapping beyond ASCII is not modelled).
   */
  function ToUpperCase(s: seq<Unit>): (r: seq<Unit>)
    ensures |r| == |s|
    ensures forall i :: 0 <= i < |s| ==> r[i] == if IsAsciiLower(s[i]) then s[i] - 32 else s[i]
  {
    seq(|s|, i requires 0 <= i < |s| => if IsAsciiLower(s[i]) then (s[i] - 32) as Unit else s[i])
  }

  /** JavaScript's `a <= b` on strings: code-unit lexicographic order. */
  predicate StringLessEq(a: seq<Unit>, b: seq<Unit>)
    decreases |a|
  {
    a == [] || (b != [] && (a[0] < b[0] || (a[0] == b[0] && StringLessEq(a[1..], b[1..]))))
  }

  datatype KeyInfo = KeyInfo(key: seq<Unit>, code: seq<Unit>, keyCode: int)

  /** The code of a one-unit character that is neither a letter, a digit, nor space: the punctuation table. */
  function PunctuationCode(c: Unit): (r: Option<string>)
    ensures r.Some? ==> forall i :: 0 <= i < |r.value| ==> r.value[i] as int < 128
  {
    if c == '.' as int then Some("Period")
    else if c == ',' as int then Some("Comma")
    else if c == '/' as int then Some("Slash")
    else if c == ';' as int then Some("Semicolon")
    else if c == '\'' as int then Some("Quote")
    else if c == '[' as int then Some("BracketLeft")
    else if c == ']' as int then Some("BracketRight")
    else if c == '-' as int then Some("Minus")
    else if c == '=' as int then Some("Equal")
    else if c == '\\' as int then Some("Backslash")
    else if c == '`' as int then Some("Backquote")
    else None
  }

  /** `getKeyInfo(char)`. */
  function GetKeyInfo(ch: seq<Unit>): (k: KeyInfo)
    ensures k.key == ch
    ensures |ch| != 1 ==> k.code == [] && k.keyCode == 0
    ensures |ch| == 1 ==> k.keyCode == ch[0]
  {
    if |ch| == 1 then
      var c := ch[0];
      var upper := ToUpperCase(ch);
      var code :=
        if StringLessEq(U("A"), upper) && StringLessEq(upper, U("Z")) then U("Key") + upper
        else if '0' as int <= c <= '9' as int then U("Digit") + ch
        else if c == ' ' as int then U("Space")
        else if PunctuationCode(c).Some? then U(PunctuationCode(c).value)
        else U("Key") + upper;
      KeyInfo(ch, code, if c == ' ' as int then 32 else c)
    else KeyInfo(ch, [], 0)
  }

  /** ASCII letters, of either case, get `Key` and the capital; the key code is that of the character typed. */
  lemma LetterKeys(c: Unit)
    requires 'a' as int <= c <= 'z' as int || 'A' as int <= c <= 'Z' as int
    ensures var cap := if c >= 'a' as int then c - 32 else c;
      GetKeyInfo([c]) == KeyInfo([c], U("Key") + [cap], c)
  {
  }

  /** Digits get `Digit` and the digit; space gets `Space` and key code 32. */
  lemma DigitAndSpaceKeys(c: Unit)
    ensures '0' as int <= c <= '9' as int ==> GetKeyInfo([c]) == KeyInfo([c], U("Digit") + [c], c)
    ensures c == ' ' as int ==> GetKeyInfo([c]) == KeyInfo([c], U("Space"), 32)
  {
    if '0' as int <= c <= '9' as int {
      assert !StringLessEq(U("A"), ToUpperCase([c]));
    }
  }

  /** For a one-unit string, `'A' <= s && s <= 'Z'` is the range test on its unit. */
  lemma CapitalRangeTest(c: Unit)
    ensures StringLessEq(U("A"), [c]) && StringLessEq([c], U("Z")) <==> 'A' as int <= c <= 'Z' as int
  {
    assert U("A") == ['A' as int] && U("Z") == ['Z' as int];
    assert StringLessEq([], []);
  }

  /** The punctuation table applies to its eleven characters. */
  lemma PunctuationKeys(c: Unit)
    requires PunctuationCode(c).Some?
    ensures GetKeyInfo([c]) == KeyInfo([c], U(PunctuationCode(c).value), c)
  {
    PunctuationIsNoLetter(c);
    assert ToUpperCase([c]) == [c];
    CapitalRangeTest(c);
  }

  lemma PunctuationIsNoLetter(c: Unit)
    requires PunctuationCode(c).Some?
    ensures !IsAsciiLower(c) && !('A' as int <= c <= 'Z' as int) && !('0' as int <= c <= '9' as int) && c != ' ' as int
  {
  }

  /** Any other one-unit character falls back to `Key` and its upper case, e.g. `Key!`; the case mapping is ASCII-only (see `ToUpperCase`). */
  lemma FallbackKeys(c: Unit)
    requires !(IsAsciiLower(c) || 'A' as int <= c <= 'Z' as int || '0' as int <= c <= '9' as int || c == ' ' as int)
    requires PunctuationCode(c).None?
    ensures GetKeyInfo([c]) == KeyInfo([c], U("Key") + [c], c)
  {
    assert ToUpperCase([c]) == [c];
  }

  /** A character outside the Basic Multilingual Plane (two units) gets an empty code and key code 0. */
  lemma AstralKeys(hi: Unit, lo: Unit)
    requires IsHighSurrogate(hi) && IsLowSurrogate(lo)
    ensures GetKeyInfo([hi, lo]) == KeyInfo([hi, lo], [], 0)
  {
  }

  // ---------------------------------------------------------------------------------------------
  // type

  /** What the tool sends: the focus-and-clear evaluation of `selector`, then one `Input.dispatchRealKey` per character. */
  datatype ToolCommand =
    | FocusAndClear(selector: string)
    | DispatchRealKey(info: KeyInfo)

  /** One `Input.dispatchRealKey` per code point, in order. */
  function Dispatches(cps: seq<seq<Unit>>): (cmds: seq<ToolCommand>)
    ensures |cmds| == |cps|
    ensures forall i :: 0 <= i < |cps| ==> cmds[i] == DispatchRealKey(GetKeyInfo(cps[i]))
  {
    if cps == [] then [] else Dispatches(cps[..|cps| - 1]) + [DispatchRealKey(GetKeyInfo(cps[|cps| - 1]))]
  }

  /**
   * `type(selector, text)`: one focus-and-clear evaluation, then one `Input.dispatchRealKey`
   * with `getKeyInfo` of each character, in text order, when every command succeeds.
   */
  method Type(selector: string, text: seq<Unit>) returns (cmds: seq<ToolCommand>)
    ensures cmds == [FocusAndClear(selector)] + Dispatches(CodePoints(text))
  {
    cmds := [FocusAndClear(selector)];
    var chars := CodePoints(text);
    for k := 0 to |chars|
      invariant cmds == [FocusAndClear(selector)] + Dispatches(chars[..k])
    {
      assert chars[..k + 1][..k] == chars[..k];
      cmds := cmds + [DispatchRealKey(GetKeyInfo(chars[k]))];
    }
    assert chars[..|chars|] == chars;
  }
}
