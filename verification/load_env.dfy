/**
 * `load_env` of the Python search script (python_client/search_x.py): reading `KEY=VALUE` lines
 * of a `.env` file into a dictionary, with Python's `str.strip`.
 */
module EnvFile {
  import opened Wrappers

  // ---------------------------------------------------------------------------------------------
  // str.strip

  /** The characters `str.isspace` accepts: what `strip()` with no argument removes. */
  predicate IsPySpace(c: char) {
    ('\t' <= c <= '\r') || ('\U{001C}' <= c <= ' ') || c == '\U{0085}' || c == '\U{00A0}' || c == '\U{1680}' ||
    ('\U{2000}' <= c <= '\U{200A}') || c == '\U{2028}' || c == '\U{2029}' || c == '\U{202F}' || c == '\U{205F}' ||
    c == '\U{3000}'
  }

  /** The argument of `strip`: none (white space), or the one character to remove. */
  datatype StripChars = Whitespace | Only(c: char)

  predicate Removes(chars: StripChars, c: char) {
    match chars
    case Whitespace => IsPySpace(c)
    case Only(d) => c == d
  }

  /** How many characters `lstrip(chars)` removes from the front of `s`. */
  function LeadingCount(s: string, chars: StripChars): (n: nat)
    ensures n <= |s|
  {
    if |s| > 0 && Removes(chars, s[0]) then 1 + LeadingCount(s[1..], chars) else 0
  }

  /** How many characters `rstrip(chars)` removes from the end of `s`. */
  function TrailingCount(s: string, chars: StripChars): (n: nat)
    ensures n <= |s|
  {
    if |s| > 0 && Removes(chars, s[|s| - 1]) then 1 + TrailingCount(s[..|s| - 1], chars) else 0
  }

  /** `s.lstrip(chars)`. */
  function StripStart(s: string, chars: StripChars): string {
    s[LeadingCount(s, chars)..]
  }

  /** `s.rstrip(chars)`. */
  function StripEnd(s: string, chars: StripChars): string {
    s[..|s| - TrailingCount(s, chars)]
  }

  /** `s.strip(chars)`. */
  function Strip(s: string, chars: StripChars): string {
    StripStart(StripEnd(s, chars), chars)
  }

  /** `lstrip` removes a run of `chars` and stops at the first character that is not one of them. */
  lemma {:induction false} LeadingCountIsRun(s: string, chars: StripChars)
    ensures var n := LeadingCount(s, chars);
      (forall i :: 0 <= i < n ==> Removes(chars, s[i])) && (n < |s| ==> !Removes(chars, s[n]))
  {
    if |s| > 0 && Removes(chars, s[0]) {
      LeadingCountIsRun(s[1..], chars);
      forall i | 0 <= i < LeadingCount(s, chars) ensures Removes(chars, s[i]) {
        if i > 0 { assert s[i] == s[1..][i - 1]; }
      }
    }
  }

  /** `rstrip` removes a run of `chars` and stops at the last character that is not one of them. */
  lemma {:induction false} TrailingCountIsRun(s: string, chars: StripChars)
    ensures var n := TrailingCount(s, chars);
      (forall i :: |s| - n <= i < |s| ==> Removes(chars, s[i])) && (n < |s| ==> !Removes(chars, s[|s| - n - 1]))
  {
    if |s| > 0 && Removes(chars, s[|s| - 1]) {
      TrailingCountIsRun(s[..|s| - 1], chars);
      forall i | |s| - TrailingCount(s, chars) <= i < |s| ensures Removes(chars, s[i]) {
        if i < |s| - 1 { assert s[i] == s[..|s| - 1][i]; }
      }
    }
  }

  /**
   * What `strip` keeps is a contiguous piece of `s` that neither starts nor ends with one of
   * `chars`, and everything it removes is one of `chars`.
   */
  lemma StripKeepsMiddle(s: string, chars: StripChars)
    ensures var r := Strip(s, chars);
      var a := LeadingCount(StripEnd(s, chars), chars);
      0 <= a <= |s| - |r| && r == s[a..a + |r|] &&
      (forall i :: 0 <= i < a ==> Removes(chars, s[i])) &&
      (forall i :: a + |r| <= i < |s| ==> Removes(chars, s[i]))
    ensures var r := Strip(s, chars);
      r == [] || (!Removes(chars, r[0]) && !Removes(chars, r[|r| - 1]))
  {
    var t := StripEnd(s, chars);
    var r := StripStart(t, chars);
    var a := LeadingCount(t, chars);
    TrailingCountIsRun(s, chars);
    LeadingCountIsRun(t, chars);
    assert r == s[a..a + |r|];
    forall i | 0 <= i < a ensures Removes(chars, s[i]) {
      assert s[i] == t[i];
    }
    if r != [] {
      assert r[0] == t[a];
      assert r[|r| - 1] == s[|t| - 1];
    }
  }

  /** A string that neither starts nor ends with one of `chars` is left as it is. */
  lemma StripLeavesClean(s: string, chars: StripChars)
    requires s == [] || (!Removes(chars, s[0]) && !Removes(chars, s[|s| - 1]))
    ensures Strip(s, chars) == s
  {
    assert TrailingCount(s, chars) == 0;
    assert StripEnd(s, chars) == s;
    assert LeadingCount(s, chars) == 0;
  }

  /** Stripping twice is stripping once. */
  lemma StripIdempotent(s: string, chars: StripChars)
    ensures Strip(Strip(s, chars), chars) == Strip(s, chars)
  {
    var r := Strip(s, chars);
    StripKeepsMiddle(s, chars);
    if r != [] {
      assert TrailingCount(r, chars) == 0;
      assert StripEnd(r, chars) == r;
      assert LeadingCount(r, chars) == 0;
    }
  }

  // ---------------------------------------------------------------------------------------------
  // One line

  /** The index of the first `c` in `s`: where `split(c, 1)` cuts. */
  function FirstIndexOf(s: string, c: char): (i: nat)
    requires c in s
    ensures i < |s| && s[i] == c && c !in s[..i]
  {
    if s[0] == c then 0 else 1 + FirstIndexOf(s[1..], c)
  }

  /** `value.strip().strip('"').strip("'")`: white space, then every surrounding `"`, then every surrounding `'`. */
  function CleanValue(value: string): string {
    Strip(Strip(Strip(value, Whitespace), Only('"')), Only('\''))
  }

  /**
   * One line of the file: after `line.strip()`, a blank line, a line starting with `#` and a
   * line without `=` assign nothing; any other line is split at its first `=` into the stripped
   * key and the cleaned value.
   */
  function ParseLine(raw: string): (r: Option<(string, string)>)
    ensures var line := Strip(raw, Whitespace);
      r.None? <==> line == [] || line[0] == '#' || '=' !in line
    ensures r.Some? ==> '=' !in r.value.0
  {
    var line := Strip(raw, Whitespace);
    if line == [] || line[0] == '#' then None
    else if '=' !in line then None
    else
      var i := FirstIndexOf(line, '=');
      StripKeepsMiddle(line[..i], Whitespace);
      Some((Strip(line[..i], Whitespace), CleanValue(line[i + 1..])))
  }

  /**
   * What a line assigns is clean: the key has no `=` and no surrounding white space, and the
   * value neither starts nor ends with `'`.
   */
  lemma ParsedLineIsClean(raw: string)
    requires ParseLine(raw).Some?
    ensures var (key, value) := ParseLine(raw).value;
      '=' !in key && Strip(key, Whitespace) == key &&
      (value == [] || (value[0] != '\'' && value[|value| - 1] != '\''))
  {
    var line := Strip(raw, Whitespace);
    var i := FirstIndexOf(line, '=');
    StripIdempotent(line[..i], Whitespace);
    var v := Strip(Strip(line[i + 1..], Whitespace), Only('"'));
    StripKeepsMiddle(v, Only('\''));
  }

  // ---------------------------------------------------------------------------------------------
  // The file

  /** What each line assigns, in file order. */
  function ParsedLines(lines: seq<string>): (ps: seq<Option<(string, string)>>)
    ensures |ps| == |lines| && forall i :: 0 <= i < |lines| ==> ps[i] == ParseLine(lines[i])
  {
    seq(|lines|, i requires 0 <= i < |lines| => ParseLine(lines[i]))
  }

  /** The dictionary after a run of assignments, each in turn: a later one overrides an earlier one. */
  function Assign(ps: seq<Option<(string, string)>>): map<string, string> {
    if ps == [] then map[]
    else
      var env := Assign(ps[..|ps| - 1]);
      match ps[|ps| - 1]
      case None => env
      case Some((k, v)) => env[k := v]
  }

  /** The dictionary `load_env` builds from the given lines. */
  function EnvOf(lines: seq<string>): map<string, string> {
    Assign(ParsedLines(lines))
  }

  /**
   * `load_env(file_path)`: `file` is the file's lines as `for line in f` yields them, or `None`
   * when opening it raises `FileNotFoundError`.
   */
  method LoadEnv(file: Option<seq<string>>) returns (env: map<string, string>)
    ensures file.None? ==> env == map[]
    ensures file.Some? ==> env == EnvOf(file.value)
  {
    env := map[];
    if file.None? {
      return;
    }
    var lines := file.value;
    for k := 0 to |lines|
      invariant env == Assign(ParsedLines(lines)[..k])
    {
      var ps := ParsedLines(lines);
      assert ps[..k + 1][..k] == ps[..k];
      var parsed := ParseLine(lines[k]);
      if parsed.Some? {
        env := env[parsed.value.0 := parsed.value.1];
      }
    }
    assert ParsedLines(lines)[..|lines|] == ParsedLines(lines);
  }

  // ---------------------------------------------------------------------------------------------
  // Properties of the dictionary

  /** A key is in the dictionary exactly when some assignment sets it. */
  lemma {:induction false} AssignedKeys(ps: seq<Option<(string, string)>>, key: string)
    ensures key in Assign(ps) <==> exists i :: 0 <= i < |ps| && ps[i].Some? && ps[i].value.0 == key
  {
    if ps != [] {
      var init := ps[..|ps| - 1];
      AssignedKeys(init, key);
      if key in Assign(init) {
        var i :| 0 <= i < |init| && init[i].Some? && init[i].value.0 == key;
        assert ps[i] == init[i];
      }
      if exists i :: 0 <= i < |ps| && ps[i].Some? && ps[i].value.0 == key {
        var i :| 0 <= i < |ps| && ps[i].Some? && ps[i].value.0 == key;
        if i < |init| {
          assert init[i] == ps[i];
        }
      }
    }
  }

  /** The value of a key is the one its last assignment gives: later lines override earlier ones. */
  lemma {:induction false} LastAssignmentWins(ps: seq<Option<(string, string)>>, i: nat)
    requires i < |ps| && ps[i].Some?
    requires forall j :: i < j < |ps| && ps[j].Some? ==> ps[j].value.0 != ps[i].value.0
    ensures ps[i].value.0 in Assign(ps) && Assign(ps)[ps[i].value.0] == ps[i].value.1
  {
    var init := ps[..|ps| - 1];
    if i < |ps| - 1 {
      assert init[i] == ps[i];
      forall j | i < j < |init| && init[j].Some?
        ensures init[j].value.0 != init[i].value.0
      {
        assert init[j] == ps[j];
      }
      LastAssignmentWins(init, i);
    }
  }

  /** A line that assigns nothing (blank, comment, no `=`) leaves the dictionary as the lines before it left it. */
  lemma SkippedLineChangesNothing(lines: seq<string>, raw: string)
    requires ParseLine(raw).None?
    ensures EnvOf(lines + [raw]) == EnvOf(lines)
  {
    var ps := ParsedLines(lines);
    var qs := ParsedLines(lines + [raw]);
    assert qs == ps + [None];
    assert qs[..|qs| - 1] == ps;
  }

  // ---------------------------------------------------------------------------------------------
  // Worked lines

  /**
   * A line is split at its first `=` only: for a key without `=`, the value is everything after
   * it, `=` signs included, cleaned.
   */
  lemma SplitsAtFirstEquals(key: string, value: string)
    requires '=' !in key && key != [] && key[0] != '#' && !IsPySpace(key[0])
    requires value == [] || !IsPySpace(value[|value| - 1])
    ensures ParseLine(key + "=" + value) == Some((Strip(key, Whitespace), CleanValue(value)))
  {
    var line := key + "=" + value;
    StripLeavesClean(line, Whitespace);
    var i := FirstIndexOf(line, '=');
    assert line[|key|] == '=';
    assert i == |key|;
    assert line[..i] == key && line[i + 1..] == value;
  }

  /** One pair of `c` around text that neither starts nor ends with `c` comes off, and only that pair. */
  lemma StripOnePair(c: char, mid: string)
    requires mid != [] && mid[0] != c && mid[|mid| - 1] != c
    ensures Strip([c] + mid + [c], Only(c)) == mid
  {
    var s := [c] + mid + [c];
    var t := [c] + mid;
    assert s[..|s| - 1] == t;
    assert TrailingCount(t, Only(c)) == 0;
    assert StripEnd(s, Only(c)) == t;
    assert t[1..] == mid;
    assert LeadingCount(mid, Only(c)) == 0;
    assert LeadingCount(t, Only(c)) == 1;
  }

  /** Double quotes come off before single quotes: `"'v'"` loses both pairs. */
  lemma DoubleQuotesOutsideSingle(v: string)
    requires v != [] && v[0] != '\'' && v[|v| - 1] != '\''
    ensures CleanValue(['"', '\''] + v + ['\'', '"']) == v
  {
    var inner := ['\''] + v + ['\''];
    var s := ['"'] + inner + ['"'];
    assert ['"', '\''] + v + ['\'', '"'] == s;
    StripLeavesClean(s, Whitespace);
    StripOnePair('"', inner);
    StripOnePair('\'', v);
  }

  /** Single quotes outside double quotes: `'"v"'` loses only the single quotes. */
  lemma SingleQuotesOutsideDouble(v: string)
    ensures CleanValue(['\'', '"'] + v + ['"', '\'']) == ['"'] + v + ['"']
  {
    var inner := ['"'] + v + ['"'];
    var s := ['\''] + inner + ['\''];
    assert ['\'', '"'] + v + ['"', '\''] == s;
    StripLeavesClean(s, Whitespace);
    StripLeavesClean(s, Only('"'));
    StripOnePair('\'', inner);
  }
}
