/**
The text of .config files: escaping, the forms of assignment lines, and how
they are recognised when a file is read back.
*/
module ConfigText {
  import opened Options

  const PREFIX := "CONFIG_"
  const NOT_SET := " is not set"

  // ---------------------------------------------------------------------
  // Escaping
  // ---------------------------------------------------------------------

  /** str.replace() of one character by a string */
  function Replace(s: string, ch: char, sub: string): string {
    if s == "" then "" else (if s[0] == ch then sub else [s[0]]) + Replace(s[1..], ch, sub)
  }

  /** escape(): backslashes first, then quotes. */
  function Escape(s: string): string {
    Replace(Replace(s, '\\', "\\\\"), '"', "\\\"")
  }

  /** unescape(): a backslash and the character after it become that character. */
  function Unescape(s: string): string {
    if s == "" then ""
    else if s[0] == '\\' && |s| >= 2 && s[1] != '\n' then [s[1]] + Unescape(s[2..])
    else [s[0]] + Unescape(s[1..])
  }

  /** What precedes the first unescaped quote, if there is one. */
  function BeforeQuote(s: string): Option<string> {
    if s == "" then None
    else if s[0] == '"' then Some("")
    else if s[0] == '\\' then
      if |s| >= 2 && s[1] != '\n' then
        var rest :- BeforeQuote(s[2..]);
        Some(s[..2] + rest)
      else None
    else
      var rest :- BeforeQuote(s[1..]);
      Some(s[..1] + rest)
  }

  /** The contents of a string literal at the start of `s`. */
  function QuotedContents(s: string): Option<string> {
    if s != "" && s[0] == '"' then BeforeQuote(s[1..]) else None
  }

  /** One escaped character. */
  function EscapedChar(ch: char): string {
    if ch == '\\' then "\\\\" else if ch == '"' then "\\\"" else [ch]
  }

  lemma {:induction false} ReplaceConcat(a: string, b: string, ch: char, sub: string)
    ensures Replace(a + b, ch, sub) == Replace(a, ch, sub) + Replace(b, ch, sub)
  {
    if a == "" {
      assert a + b == b;
    } else {
      ReplaceConcat(a[1..], b, ch, sub);
      assert (a + b)[1..] == a[1..] + b;
    }
  }

  lemma EscapeStep(s: string)
    requires s != ""
    ensures Escape(s) == EscapedChar(s[0]) + Escape(s[1..])
  {
    var first := if s[0] == '\\' then "\\\\" else [s[0]];
    ReplaceConcat(first, Replace(s[1..], '\\', "\\\\"), '"', "\\\"");
    assert s[0] == '\\' ==> Replace("\\\\", '"', "\\\"") == "\\\\" by {
      assert "\\\\"[1..] == "\\";
      assert Replace("\\", '"', "\\\"") == "\\";
    }
    assert s[0] != '\\' ==> Replace([s[0]], '"', "\\\"") == EscapedChar(s[0]);
  }

  /** Reading back an escaped string gives the string, whatever follows the closing quote. */
  lemma {:induction false} EscapeRoundTrip(s: string, rest: string)
    ensures BeforeQuote(Escape(s) + "\"" + rest) == Some(Escape(s))
    ensures Unescape(Escape(s)) == s
  {
    if s == "" {
      assert Escape(s) + "\"" + rest == "\"" + rest;
    } else {
      hide Escape;
      EscapeStep(s);
      EscapeRoundTrip(s[1..], rest);
      var e, tail := EscapedChar(s[0]), Escape(s[1..]) + "\"" + rest;
      assert Escape(s) + "\"" + rest == e + tail;
      BeforeQuoteStep(s[0], tail);
      UnescapeStep(s[0], Escape(s[1..]));
      assert s == [s[0]] + s[1..];
      assert e + Escape(s[1..]) == Escape(s);
    }
  }

  lemma BeforeQuoteStep(ch: char, tail: string)
    requires BeforeQuote(tail).Some?
    ensures BeforeQuote(EscapedChar(ch) + tail) == Some(EscapedChar(ch) + BeforeQuote(tail).value)
  {
    var e := EscapedChar(ch);
    assert (e + tail)[|e|..] == tail && (e + tail)[..|e|] == e;
  }

  lemma UnescapeStep(ch: char, tail: string)
    ensures Unescape(EscapedChar(ch) + tail) == [ch] + Unescape(tail)
  {
    var e := EscapedChar(ch);
    assert (e + tail)[|e|..] == tail;
  }

  lemma QuotedRoundTrip(s: string)
    ensures QuotedContents("\"" + Escape(s) + "\"") == Some(Escape(s)) && Unescape(Escape(s)) == s
  {
    EscapeRoundTrip(s, "");
    var q := "\"" + Escape(s) + "\"";
    assert q[1..] == Escape(s) + "\"" + "";
  }

  // ---------------------------------------------------------------------
  // Lines
  // ---------------------------------------------------------------------

  /** str.isspace() */
  predicate IsSpace(ch: char) {
    var n := ch as int;
    9 <= n <= 13 || 28 <= n <= 32 || n == 0x85 || n == 0xa0 || n == 0x1680 || 0x2000 <= n <= 0x200a ||
    n == 0x2028 || n == 0x2029 || n == 0x202f || n == 0x205f || n == 0x3000
  }

  predicate IsBreak(ch: char) {
    ch == '\n' || ch == '\r'
  }

  /** str.rstrip() */
  function RStrip(s: string): string {
    if s != "" && IsSpace(s[|s| - 1]) then RStrip(s[..|s| - 1]) else s
  }

  /** Index of the first `ch` from `k` on, or |s|. */
  function Find(s: string, ch: char, k: nat): (r: nat)
    requires k <= |s|
    ensures k <= r <= |s|
    ensures forall j :: k <= j < r ==> s[j] != ch
    ensures r < |s| ==> s[r] == ch
    decreases |s| - k
  {
    if k == |s| || s[k] == ch then k else Find(s, ch, k + 1)
  }

  predicate StartsWith(s: string, p: string) {
    p <= s
  }

  /** The name and value of an assignment line. */
  function SetMatch(line: string): Option<(string, string)> {
    if !StartsWith(line, PREFIX) then None else
      var eq := Find(line, '=', |PREFIX|);
      if eq == |line| || eq == |PREFIX| then None
      else Some((line[|PREFIX|..eq], line[eq + 1..]))
  }

  /** The name in a "# CONFIG_<name> is not set" line. */
  function UnsetMatch(line: string): Option<string> {
    var start := "# " + PREFIX;
    if !StartsWith(line, start) then None else
      var end := Find(line, ' ', |start|);
      if end == |start| || !StartsWith(line[end..], NOT_SET) then None
      else Some(line[|start|..end])
  }

  function SetLine(name: string, value: string): string {
    PREFIX + name + "=" + value
  }

  function UnsetLine(name: string): string {
    "# " + PREFIX + name + NOT_SET
  }

  /** Symbol names: not empty, and without the characters that end them in a file. */
  predicate PlainName(name: string) {
    name != "" && '=' !in name && ' ' !in name && (forall ch :: ch in name ==> !IsBreak(ch))
  }

  lemma FindUnique(s: string, ch: char, k: nat, r: nat)
    requires k <= r < |s| && s[r] == ch && forall j :: k <= j < r ==> s[j] != ch
    ensures Find(s, ch, k) == r
  {}

  lemma SetRoundTrip(name: string, value: string)
    requires PlainName(name)
    ensures SetMatch(SetLine(name, value)) == Some((name, value))
  {
    var line := SetLine(name, value);
    assert line[..|PREFIX|] == PREFIX;
    var eq := |PREFIX| + |name|;
    assert line[|PREFIX|..eq] == name && line[eq] == '=' && line[eq + 1..] == value;
    forall j | |PREFIX| <= j < eq ensures line[j] != '=' {
      assert line[j] == name[j - |PREFIX|];
    }
    FindUnique(line, '=', |PREFIX|, eq);
  }

  lemma UnsetRoundTrip(name: string)
    requires PlainName(name)
    ensures SetMatch(UnsetLine(name)) == None && UnsetMatch(UnsetLine(name)) == Some(name)
  {
    var line, start := UnsetLine(name), "# " + PREFIX;
    assert line[0] == '#' && PREFIX[0] == 'C';
    assert line[..|start|] == start;
    var end := |start| + |name|;
    assert line[|start|..end] == name && line[end..] == NOT_SET;
    assert line[end] == NOT_SET[0];
    forall j | |start| <= j < end ensures line[j] != ' ' {
      assert line[j] == name[j - |start|];
    }
    FindUnique(line, ' ', |start|, end);
  }

  // ---------------------------------------------------------------------
  // Files
  // ---------------------------------------------------------------------

  predicate BreakFree(s: string) {
    forall ch :: ch in s ==> !IsBreak(ch)
  }

  predicate AllBreakFree(lines: seq<string>) {
    forall k :: 0 <= k < |lines| ==> BreakFree(lines[k])
  }

  /** Index of the first line break from `k` on, or |s|. */
  function FindBreak(s: string, k: nat): (r: nat)
    requires k <= |s|
    ensures k <= r <= |s|
    ensures forall j :: k <= j < r ==> !IsBreak(s[j])
    ensures r < |s| ==> IsBreak(s[r])
    decreases |s| - k
  {
    if k == |s| || IsBreak(s[k]) then k else FindBreak(s, k + 1)
  }

  /** The lines of a text file, with universal newlines. */
  function Lines(text: string): seq<string>
    decreases |text|
  {
    if text == "" then [] else
      var b := FindBreak(text, 0);
      if b == |text| then [text]
      else if text[b] == '\r' && b + 1 < |text| && text[b + 1] == '\n' then [text[..b]] + Lines(text[b + 2..])
      else [text[..b]] + Lines(text[b + 1..])
  }

  function Join(lines: seq<string>): string {
    if lines == [] then "" else lines[0] + "\n" + Join(lines[1..])
  }

  lemma {:induction false} JoinRoundTrip(lines: seq<string>)
    requires AllBreakFree(lines)
    ensures Lines(Join(lines)) == lines
  {
    if lines != [] {
      JoinRoundTrip(lines[1..]);
      var first, rest := lines[0], Join(lines[1..]);
      var text := first + "\n" + rest;
      assert BreakFree(first);
      assert forall j :: 0 <= j < |first| ==> text[j] == first[j] && first[j] in first;
      assert text[|first|] == '\n';
      assert FindBreak(text, 0) == |first|;
      assert text[..|first|] == first && text[|first| + 1..] == rest;
    }
  }

  lemma {:induction false} JoinConcat(a: seq<string>, b: seq<string>)
    ensures Join(a + b) == Join(a) + Join(b)
  {
    if a == [] {
      assert a + b == b;
    } else {
      JoinConcat(a[1..], b);
      assert (a + b)[1..] == a[1..] + b;
    }
  }

  lemma RStripNoOp(s: string)
    requires s == "" || !IsSpace(s[|s| - 1])
    ensures RStrip(s) == s
  {}

  lemma JoinNone()
    ensures Join([]) == ""
  {}

  lemma JoinOne(line: string)
    ensures Join([line]) == line + "\n"
  {
    assert [line][1..] == [];
  }
}
