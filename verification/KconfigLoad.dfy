/**
Assigning and loading, one setting at a time: which assignments succeed and what
they store, what a line of a .config file says, how loading on top of earlier
settings differs from replacing them, and what is written where.
*/
module KconfigLoad {
  import opened Options
  import opened ConfigText
  import opened KconfigModel
  import opened KconfigSemantics
  import opened KconfigSettings
  import opened KconfigValues
  import opened KconfigFile

  // ---------------------------------------------------------------------
  // Assignments
  // ---------------------------------------------------------------------

  /** What a value means for a type: "n", "m" and "y" are letters for values of bool and tristate items only. */
  function Meant(logical: bool, value: UserValue): UserValue {
    if !logical then value
    else if value == UStr("n") then UTri(0)
    else if value == UStr("m") then UTri(1)
    else if value == UStr("y") then UTri(2)
    else value
  }

  /** Only item i may have got another value, and only the selection of choice ch another symbol. */
  predicate Elsewhere(us: Users, vs: Users, i: Id, ch: Option<Id>) {
    && |vs| == |us|
    && forall j: Id :: j < |us| ==>
         && (j != i ==> vs[j].value == us[j].value) && (ch != Some(j) ==> vs[j].selection == us[j].selection)
  }

  /**
  An assignment succeeds exactly if the value is valid for the type of the symbol.
  It is then stored, y in a choice makes the symbol the user's selection, and these
  items count as set. Otherwise nothing changes.
  */
  lemma AssignedExactly(c: Config, s: UserState, i: Id, value: UserValue)
    requires WellFormed(c) && ValidState(c, s) && i < |c.items| && c.items[i].Symbol?
    ensures |s.us| == |c.items|
    ensures var (r, ok) := SetSymbol(c, s, i, value);
      var d := c.items[i];
      var v := Meant(IsBoolTri(d.typ), value);
      var chosen := if v == UTri(2) then d.choice else None;
      && (ok <==> ValidFor(c.lib, d.typ, v))
      && (!ok ==> r == s)
      && (ok ==>
            && Elsewhere(s.us, r.us, i, chosen) && r.us[i].value == Some(v)
            && (chosen.Some? ==> chosen.value < |r.us| && r.us[chosen.value].selection == Some(i))
            && r.touched == s.touched + {i} + if chosen.Some? then {chosen.value} else {})
  {
    assert WellFormedItem(c, i);
    assert ValidValue(c, i, s.us[i]);
    hide WellFormed, ValidUsers;
    assert Offered(c.items[i], value) == Meant(IsBoolTri(c.items[i].typ), value);
  }

  /** The same for the mode of a choice. */
  lemma ModeAssignedExactly(c: Config, s: UserState, ch: Id, value: UserValue)
    requires ValidState(c, s) && IsChoice(c, ch) && IsBoolTri(c.items[ch].typ)
    ensures |s.us| == |c.items|
    ensures var (r, ok) := SetChoice(c, s, ch, value);
      var v := Meant(true, value);
      && (ok <==> ValidFor(c.lib, c.items[ch].typ, v))
      && (!ok ==> r == s)
      && (ok ==> Elsewhere(s.us, r.us, ch, None) && r.us[ch].value == Some(v) && r.touched == s.touched + {ch})
  {
    assert ValidValue(c, ch, s.us[ch]);
    hide ValidUsers;
  }

  // ---------------------------------------------------------------------
  // Lines
  // ---------------------------------------------------------------------

  /** The defined symbol a line names. */
  ghost predicate Named(c: Config, names: Names, name: string, i: Id) {
    && PlainName(name) && name in names && names[name] == i
    && i < |c.items| && c.items[i].Symbol? && c.items[i].defined
  }

  predicate Trimmed(s: string) {
    s == "" || !IsSpace(s[|s| - 1])
  }

  /** The settings after the letters of a bool or tristate value have been assigned: m and y also set the mode of the choice. */
  ghost predicate LetterAssigned(c: Config, s: UserState, i: Id, t: Tri, r: UserState)
    requires WellFormed(c) && ValidState(c, s) && i < |c.items| && c.items[i].Symbol?
  {
    var ch := c.items[i].choice;
    assert ch.Some? ==> IsChoice(c, ch.value) by { assert WellFormedItem(c, i); }
    exists m :: ValidState(c, m) && r == SetSymbol(c, m, i, UTri(t)).0 &&
      m == if ch.Some? && t != 0 then SetChoice(c, s, ch.value, UTri(t)).0 else s
  }

  lemma LettersSame(c: Config, s: UserState, i: Id, t: Tri)
    requires WellFormed(c) && ValidState(c, s) && i < |c.items| && c.items[i].Symbol? && IsBoolTri(c.items[i].typ)
    ensures LetterAssigned(c, s, i, t, AssignBool(c, s, i, TriToStr(t)))
  {
    var ch := c.items[i].choice;
    assert WellFormedItem(c, i);
    hide WellFormed, ValidUsers;
    var m := s;
    if ch.Some? && t != 0 {
      ChangesKeepValid(c, s, ch.value, UTri(t));
      m := SetChoice(c, s, ch.value, UTri(t)).0;
      assert SetChoice(c, s, ch.value, UStr(TriToStr(t))) == SetChoice(c, s, ch.value, UTri(t));
    }
    assert SetSymbol(c, m, i, UStr(TriToStr(t))) == SetSymbol(c, m, i, UTri(t));
    assert AssignBool(c, s, i, TriToStr(t)) == SetSymbol(c, m, i, UTri(t)).0;
  }

  /** "CONFIG_X=y" and the like: only the first character counts, and m only for tristate symbols. */
  lemma LogicalLine(c: Config, names: Names, s: UserState, name: string, i: Id, val: string)
    requires WellFormed(c) && ValidState(c, s) && Named(c, names, name, i) && IsBoolTri(c.items[i].typ)
    requires Trimmed(SetLine(name, val))
    ensures var r := ApplyLine(c, names, s, SetLine(name, val));
      && (val != "" && val[0] == 'y' ==> LetterAssigned(c, s, i, 2, r))
      && (val != "" && val[0] == 'n' ==> LetterAssigned(c, s, i, 0, r))
      && (val != "" && val[0] == 'm' && c.items[i].typ.Tristate? ==> LetterAssigned(c, s, i, 1, r))
      && (val == "" || (val[0] != 'y' && val[0] != 'n' && !(val[0] == 'm' && c.items[i].typ.Tristate?)) ==> r == s)
  {
    SetRoundTrip(name, val);
    RStripNoOp(SetLine(name, val));
    hide WellFormed, ValidUsers, LetterAssigned, SetLine, SetMatch, RStrip, AssignBool;
    if val != "" {
      assert val[..1] == [val[0]];
      LettersSame(c, s, i, 2);
      LettersSame(c, s, i, 0);
      LettersSame(c, s, i, 1);
    }
  }

  /** "CONFIG_X=text": strings must be quoted, numbers are taken as they are. */
  lemma TextLine(c: Config, names: Names, s: UserState, name: string, i: Id, val: string)
    requires WellFormed(c) && ValidState(c, s) && Named(c, names, name, i) && !IsBoolTri(c.items[i].typ)
    requires Trimmed(SetLine(name, val))
    ensures var r := ApplyLine(c, names, s, SetLine(name, val));
      && (!c.items[i].typ.String? ==> r == SetSymbol(c, s, i, UStr(val)).0)
      && (c.items[i].typ.String? && (val == "" || val[0] != '"') ==> r == s)
      && forall text :: c.items[i].typ.String? && val == "\"" + Escape(text) + "\"" ==> r == SetSymbol(c, s, i, UStr(text)).0
  {
    SetRoundTrip(name, val);
    RStripNoOp(SetLine(name, val));
    hide WellFormed, ValidUsers, SetLine, SetMatch, RStrip, SetSymbol, Escape;
    forall text | val == "\"" + Escape(text) + "\"" ensures QuotedContents(val) == Some(Escape(text)) && Unescape(Escape(text)) == text {
      QuotedRoundTrip(text);
    }
  }

  /** "# CONFIG_X is not set" means n, for bool and tristate symbols. */
  lemma UnsetMeansN(c: Config, names: Names, s: UserState, name: string, i: Id)
    requires WellFormed(c) && ValidState(c, s) && Named(c, names, name, i)
    ensures ApplyLine(c, names, s, UnsetLine(name)) == if IsBoolTri(c.items[i].typ) then SetSymbol(c, s, i, UTri(0)).0 else s
  {
    UnsetRoundTrip(name);
    var l := UnsetLine(name);
    assert l[|l| - 1] == 't';
    RStripNoOp(l);
    hide WellFormed, ValidUsers, UnsetLine, UnsetMatch, SetMatch, RStrip;
    if IsBoolTri(c.items[i].typ) {
      assert SetSymbol(c, s, i, UStr("n")) == SetSymbol(c, s, i, UTri(0));
    }
  }

  /** Assignments to names that are no defined symbols, and all other lines, change nothing. */
  lemma OtherLines(c: Config, names: Names, s: UserState, line: string)
    requires WellFormed(c) && ValidState(c, s)
    requires var l := RStrip(line);
      && (SetMatch(l).Some? ==> Lookup(c, names, SetMatch(l).value.0).None?)
      && (SetMatch(l).None? && UnsetMatch(l).Some? ==> Lookup(c, names, UnsetMatch(l).value).None?)
    ensures ApplyLine(c, names, s, line) == s
  {
    hide WellFormed, ValidUsers, RStrip, SetMatch, UnsetMatch, Lookup;
  }

  // ---------------------------------------------------------------------
  // With and without replacement
  // ---------------------------------------------------------------------

  /** What makes r of s makes q of t, which differs from s in the flags only, and raises the flags of what it changes. */
  ghost predicate Raised(s: UserState, r: UserState, t: UserState, q: UserState) {
    && r.us == q.us && |r.us| == |s.us| && s.touched <= r.touched && t.touched <= q.touched
    && q.touched <= t.touched + r.touched && r.touched <= s.touched + q.touched
    && forall j: Id :: j < |s.us| && j !in r.touched ==> r.us[j] == s.us[j]
  }

  lemma SymbolStep(c: Config, s: UserState, t: UserState, i: Id, value: UserValue)
    requires WellFormed(c) && ValidState(c, s) && ValidState(c, t) && t.us == s.us && i < |c.items| && c.items[i].Symbol?
    ensures var r, q := SetSymbol(c, s, i, value).0, SetSymbol(c, t, i, value).0;
      Raised(s, r, t, q)
  {
    assert WellFormedItem(c, i);
    assert |s.us| == |c.items|;
    hide WellFormed, ValidUsers;
  }

  lemma ChoiceStep(c: Config, s: UserState, t: UserState, ch: Id, value: UserValue)
    requires ValidState(c, s) && ValidState(c, t) && t.us == s.us && IsChoice(c, ch)
    ensures var r, q := SetChoice(c, s, ch, value).0, SetChoice(c, t, ch, value).0;
      Raised(s, r, t, q)
  {
    assert |s.us| == |c.items|;
    hide ValidUsers;
  }

  lemma BoolStep(c: Config, s: UserState, t: UserState, i: Id, val: string)
    requires WellFormed(c) && ValidState(c, s) && ValidState(c, t) && t.us == s.us && i < |c.items| && c.items[i].Symbol?
    ensures var r, q := AssignBool(c, s, i, val), AssignBool(c, t, i, val);
      Raised(s, r, t, q)
  {
    var d := c.items[i];
    assert WellFormedItem(c, i);
    hide WellFormed, ValidUsers, SetSymbol, SetChoice;
    if d.choice.Some? && val != "n" {
      ChangesKeepValid(c, s, d.choice.value, UStr(val));
      ChangesKeepValid(c, t, d.choice.value, UStr(val));
      ChoiceStep(c, s, t, d.choice.value, UStr(val));
      SymbolStep(c, SetChoice(c, s, d.choice.value, UStr(val)).0, SetChoice(c, t, d.choice.value, UStr(val)).0, i, UStr(val));
    } else {
      SymbolStep(c, s, t, i, UStr(val));
    }
  }

  lemma LineStep(c: Config, names: Names, s: UserState, t: UserState, line: string)
    requires WellFormed(c) && ValidState(c, s) && ValidState(c, t) && t.us == s.us
    ensures var r, q := ApplyLine(c, names, s, line), ApplyLine(c, names, t, line);
      Raised(s, r, t, q)
  {
    var l := RStrip(line);
    hide WellFormed, ValidUsers, RStrip, SetMatch, UnsetMatch, QuotedContents, AssignBool, SetSymbol, BoolText;
    var i := if SetMatch(l).Some? then Lookup(c, names, SetMatch(l).value.0)
             else if UnsetMatch(l).Some? then Lookup(c, names, UnsetMatch(l).value) else None;
    if i.Some? {
      if SetMatch(l).Some? {
        var val := SetMatch(l).value.1;
        if IsBoolTri(c.items[i.value].typ) && BoolText(c.items[i.value].typ, val) {
          TextStarts(c.items[i.value].typ, val);
          BoolStep(c, s, t, i.value, val[..1]);
        }
        SymbolStep(c, s, t, i.value, UStr(val));
        if QuotedContents(val).Some? {
          SymbolStep(c, s, t, i.value, UStr(Unescape(QuotedContents(val).value)));
        }
      } else {
        SymbolStep(c, s, t, i.value, UStr("n"));
      }
    }
  }

  lemma TextStarts(t: Type, val: string)
    requires BoolText(t, val)
    ensures val != ""
  {}

  lemma {:induction false} LinesStep(c: Config, names: Names, s: UserState, t: UserState, lines: seq<string>)
    requires WellFormed(c) && ValidState(c, s) && ValidState(c, t) && t.us == s.us
    ensures var r, q := LoadLines(c, names, s, lines), LoadLines(c, names, t, lines);
      Raised(s, r, t, q)
    decreases |lines|
  {
    hide WellFormed, ValidUsers, ApplyLine;
    if lines != [] {
      LineStep(c, names, s, t, lines[0]);
      LinesStep(c, names, ApplyLine(c, names, s, lines[0]), ApplyLine(c, names, t, lines[0]), lines[1..]);
    }
  }

  /** The items a file sets, mode and selection of choices included. */
  function SetBy(c: Config, names: Names, s: UserState, text: string): set<Id>
    requires WellFormed(c) && ValidState(c, s)
  {
    LoadLines(c, names, UserState(s.us, {}), Lines(text)).touched
  }

  /**
  Loading with replacement sets what the file sets and unsets everything else;
  without, what the file does not set stays as it was.
  */
  lemma ReplaceOrMerge(c: Config, names: Names, s: UserState, text: string, i: Id)
    requires WellFormed(c) && ValidState(c, s) && Live(c, i)
    ensures i < |s.us|
    ensures var replaced, merged := Load(c, names, s, text, true).us, Load(c, names, s, text, false).us;
      && |replaced| == |merged| == |s.us|
      && (i in SetBy(c, names, s, text) ==> replaced[i] == merged[i])
      && (i !in SetBy(c, names, s, text) ==>
            merged[i] == s.us[i] && replaced[i] == User(None, if c.items[i].Symbol? then s.us[i].selection else None))
  {
    assert |s.us| == |c.items|;
    var lines, start, bare := Lines(text), Untouched(c, s), UserState(s.us, {});
    assert ValidState(c, start) && ValidState(c, bare);
    hide WellFormed, ValidUsers, LoadLines, Lines, Live;
    LinesStep(c, names, bare, start, lines);
    LinesStep(c, names, bare, s, lines);
    assert i !in start.touched;
  }

  // ---------------------------------------------------------------------
  // What is written
  // ---------------------------------------------------------------------

  /** Entry k is the first for its symbol. */
  predicate FirstEntry(layout: seq<Entry>, k: nat)
    requires k < |layout|
  {
    layout[k] !in layout[..k]
  }

  /** The lines of the entries: comment lines as they are, a symbol's line at its first entry. */
  function Written(c: Config, v: Env, layout: seq<Entry>, k: nat): seq<string>
    requires k <= |layout|
    decreases |layout| - k
  {
    if k == |layout| then []
    else
      (match layout[k]
       case Text(ls) => ls
       case Sym(i) => if FirstEntry(layout, k) && SymbolLine(c, v, i).Some? then [SymbolLine(c, v, i).value] else [])
      + Written(c, v, layout, k + 1)
  }

  /** Each symbol is written once, where the walk meets it first. */
  lemma {:induction false} WrittenOnce(c: Config, v: Env, layout: seq<Entry>, k: nat, visited: set<Id>)
    requires k <= |layout| && forall i: Id :: i in visited <==> Sym(i) in layout[..k]
    ensures SaveLines(c, v, layout[k..], visited) == Written(c, v, layout, k)
    decreases |layout| - k
  {
    hide SymbolLine;
    if k < |layout| {
      assert layout[k..][0] == layout[k] && layout[k..][1..] == layout[k + 1..];
      assert layout[..k + 1] == layout[..k] + [layout[k]];
      match layout[k]
      case Text(ls) => WrittenOnce(c, v, layout, k + 1, visited);
      case Sym(i) =>
        if i in visited {
          WrittenOnce(c, v, layout, k + 1, visited);
        } else {
          WrittenOnce(c, v, layout, k + 1, visited + {i});
        }
    }
  }

  /** The line of a symbol that is to be written, by its type. */
  lemma LineMeans(c: Config, v: Env, i: Id)
    requires i < |c.items| && c.items[i].Symbol? && i in v.tri && i in v.str
    ensures var d := c.items[i];
      if IsBoolTri(d.typ) && v.tri[i].1 then
        SymbolLine(c, v, i) == Some(if v.str[i].0 == "n" then "# CONFIG_" + d.name + " is not set" else "CONFIG_" + d.name + "=" + v.str[i].0)
      else if d.typ.String? && v.str[i].1 then SymbolLine(c, v, i) == Some("CONFIG_" + d.name + "=\"" + Escape(v.str[i].0) + "\"")
      else if (d.typ.Int? || d.typ.Hex?) && v.str[i].1 then SymbolLine(c, v, i) == Some("CONFIG_" + d.name + "=" + v.str[i].0)
      else SymbolLine(c, v, i) == None
  {
    var d := c.items[i];
    hide Escape;
    assert "CONFIG_" + d.name + "=" + ("\"" + Escape(v.str[i].0) + "\"") == "CONFIG_" + d.name + "=\"" + Escape(v.str[i].0) + "\"";
    assert "# " + PREFIX + d.name + NOT_SET == "# CONFIG_" + d.name + " is not set";
  }
}
