/**
Strings that a .config file cannot carry: what is loaded never has a line break
and no number a trailing blank, so that saved values with them do not come back.
*/
module KconfigTexts {
  import opened Options
  import opened ConfigText
  import opened KconfigModel
  import opened KconfigSemantics
  import opened KconfigSettings
  import opened KconfigValues
  import opened KconfigFile
  import opened KconfigSaveLoad

  // ---------------------------------------------------------------------
  // What a line can say
  // ---------------------------------------------------------------------

  lemma {:induction false} LinesBreakFree(text: string)
    ensures AllBreakFree(Lines(text))
    decreases |text|
  {
    if text != "" {
      var b := FindBreak(text, 0);
      assert BreakFree(text[..b]);
      if b < |text| {
        var next := if text[b] == '\r' && b + 1 < |text| && text[b + 1] == '\n' then b + 2 else b + 1;
        LinesBreakFree(text[next..]);
      }
    }
  }

  lemma {:induction false} Stripped(s: string)
    requires BreakFree(s)
    ensures CleanText(Unknown, RStrip(s))
    decreases |s|
  {
    if s != "" && IsSpace(s[|s| - 1]) {
      Stripped(s[..|s| - 1]);
    }
  }

  lemma {:induction false} QuotedPart(s: string)
    ensures BeforeQuote(s).Some? ==> forall ch :: ch in BeforeQuote(s).value ==> ch in s
    decreases |s|
  {
    if s != "" && s[0] != '"' {
      if s[0] != '\\' {
        QuotedPart(s[1..]);
      } else if |s| >= 2 && s[1] != '\n' {
        QuotedPart(s[2..]);
      }
    }
  }

  lemma {:induction false} UnescapedPart(s: string)
    ensures forall ch :: ch in Unescape(s) ==> ch in s
    decreases |s|
  {
    if s != "" {
      UnescapedPart(s[1..]);
      if |s| >= 2 {
        UnescapedPart(s[2..]);
      }
    }
  }

  lemma ValueClean(line: string)
    requires CleanText(Unknown, line) && SetMatch(line).Some?
    ensures CleanText(Unknown, SetMatch(line).value.1)
    ensures var q := QuotedContents(SetMatch(line).value.1); q.Some? ==> BreakFree(Unescape(q.value))
  {
    var val := SetMatch(line).value.1;
    assert forall ch :: ch in val ==> ch in line;
    var q := QuotedContents(val);
    if q.Some? {
      QuotedPart(val[1..]);
      UnescapedPart(q.value);
    }
  }

  // ---------------------------------------------------------------------
  // What a load sets
  // ---------------------------------------------------------------------

  ghost predicate CleanUser(c: Config, us: Users, i: Id) {
    i < |us| && i < |c.items| && c.items[i].Symbol? && UserStr(us[i]).Some? ==> CleanText(c.items[i].typ, UserStr(us[i]).value)
  }

  /** All texts set since the flags were cleared are clean. */
  ghost predicate CleanTouched(c: Config, s: UserState) {
    forall i: Id :: i in s.touched && Live(c, i) ==> CleanUser(c, s.us, i)
  }

  lemma SymbolClean(c: Config, s: UserState, i: Id, val: string)
    requires WellFormed(c) && ValidState(c, s) && i < |c.items| && c.items[i].Symbol? && CleanTouched(c, s)
    requires CleanText(c.items[i].typ, val)
    ensures CleanTouched(c, SetSymbol(c, s, i, UStr(val)).0)
  {
    var r := SetSymbol(c, s, i, UStr(val)).0;
    hide CleanText, ValidFor;
    if c.items[i].choice.Some? { MemberIsSymbol(c, i); }
    hide WellFormed, ValidUsers;
    forall j: Id | j in r.touched && Live(c, j) ensures CleanUser(c, r.us, j) {
      assert j in s.touched ==> CleanUser(c, s.us, j);
    }
  }

  lemma MemberIsSymbol(c: Config, i: Id)
    requires WellFormed(c) && i < |c.items| && c.items[i].Symbol? && c.items[i].choice.Some?
    ensures IsChoice(c, c.items[i].choice.value)
  {
    assert WellFormedItem(c, i);
  }

  lemma ChoiceClean(c: Config, s: UserState, i: Id, val: UserValue)
    requires ValidState(c, s) && IsChoice(c, i) && CleanTouched(c, s)
    ensures CleanTouched(c, SetChoice(c, s, i, val).0)
  {
    var r := SetChoice(c, s, i, val).0;
    hide CleanText, ValidFor;
    forall j: Id | j in r.touched && Live(c, j) ensures CleanUser(c, r.us, j) {
      assert j in s.touched ==> CleanUser(c, s.us, j);
    }
  }

  lemma BoolClean(c: Config, s: UserState, i: Id, val: string)
    requires WellFormed(c) && ValidState(c, s) && i < |c.items| && c.items[i].Symbol? && CleanTouched(c, s)
    requires CleanText(c.items[i].typ, val)
    ensures CleanTouched(c, AssignBool(c, s, i, val))
  {
    hide CleanTouched, CleanText, SetSymbol, SetChoice;
    var d := c.items[i];
    if d.choice.Some? && val != "n" {
      MemberIsSymbol(c, i);
      hide WellFormed, ValidUsers;
      ChangesKeepValid(c, s, d.choice.value, UStr(val));
      ChoiceClean(c, s, d.choice.value, UStr(val));
      SymbolClean(c, SetChoice(c, s, d.choice.value, UStr(val)).0, i, val);
    } else {
      SymbolClean(c, s, i, val);
    }
  }

  lemma AssignedClean(c: Config, s: UserState, i: Id, val: string)
    requires WellFormed(c) && ValidState(c, s) && i < |c.items| && c.items[i].Symbol? && CleanTouched(c, s) && CleanText(Unknown, val)
    requires var q := QuotedContents(val); q.Some? ==> BreakFree(Unescape(q.value))
    ensures IsBoolTri(c.items[i].typ) && BoolText(c.items[i].typ, val) ==> CleanTouched(c, AssignBool(c, s, i, val[..1]))
    ensures c.items[i].typ.String? && QuotedContents(val).Some? ==> CleanTouched(c, AssignText(c, s, i, Unescape(QuotedContents(val).value)))
    ensures !IsBoolTri(c.items[i].typ) && !c.items[i].typ.String? ==> CleanTouched(c, AssignText(c, s, i, val))
  {
    hide WellFormed, ValidUsers, CleanTouched, SetSymbol, AssignBool, QuotedContents;
    var d := c.items[i];
    if IsBoolTri(d.typ) {
      if BoolText(d.typ, val) {
        assert !IsSpace(val[0]) && !IsBreak(val[0]);
        BoolClean(c, s, i, val[..1]);
      }
    } else if !d.typ.String? {
      SymbolClean(c, s, i, val);
    } else if QuotedContents(val).Some? {
      SymbolClean(c, s, i, Unescape(QuotedContents(val).value));
    }
  }

  lemma LineClean(c: Config, names: Names, s: UserState, line: string)
    requires WellFormed(c) && ValidState(c, s) && CleanTouched(c, s) && BreakFree(line)
    ensures CleanTouched(c, ApplyLine(c, names, s, line))
  {
    Stripped(line);
    var l := RStrip(line);
    if SetMatch(l).Some? {
      ValueClean(l);
      hide WellFormed, ValidUsers, CleanTouched, AssignBool, AssignText, QuotedContents, SetMatch, CleanText, BoolText, RStrip;
      var i := Lookup(c, names, SetMatch(l).value.0);
      if i.Some? {
        AssignedClean(c, s, i.value, SetMatch(l).value.1);
      }
    } else if UnsetMatch(l).Some? {
      hide WellFormed, ValidUsers, CleanTouched, SetSymbol, SetMatch, UnsetMatch, RStrip;
      var i := Lookup(c, names, UnsetMatch(l).value);
      if i.Some? && IsBoolTri(c.items[i.value].typ) {
        SymbolClean(c, s, i.value, "n");
      }
    }
  }

  lemma {:induction false} LoadClean(c: Config, names: Names, s: UserState, lines: seq<string>)
    requires WellFormed(c) && ValidState(c, s) && CleanTouched(c, s) && AllBreakFree(lines)
    ensures CleanTouched(c, LoadLines(c, names, s, lines))
    decreases |lines|
  {
    hide WellFormed, ValidUsers, CleanTouched, ApplyLine, BreakFree;
    if lines != [] {
      LineClean(c, names, s, lines[0]);
      LoadClean(c, names, ApplyLine(c, names, s, lines[0]), lines[1..]);
    }
  }

  /** Whatever the file and the settings before, all texts loaded with replace=True are clean. */
  lemma LoadedClean(c: Config, names: Names, s: UserState, text: string)
    requires WellFormed(c) && ValidState(c, s)
    ensures var r := Load(c, names, s, text, true);
      ValidState(c, r) && forall i: Id :: Live(c, i) ==> CleanUser(c, r.us, i)
  {
    LinesBreakFree(text);
    hide WellFormed, CleanText, AllBreakFree, LoadLines;
    var start := Untouched(c, s);
    LoadClean(c, names, start, Lines(text));
    var loaded := LoadLines(c, names, start, Lines(text));
    assert |loaded.us| == |c.items|;
    hide ValidUsers;
    forall i: Id | Live(c, i) ensures CleanUser(c, Reset(c, loaded).us, i) {
      if i in loaded.touched {
        assert CleanUser(c, loaded.us, i);
      }
    }
  }

  // ---------------------------------------------------------------------
  // What values come to
  // ---------------------------------------------------------------------

  predicate TidyOperand(c: Config, t: Type, o: Operand) {
    match o
    case Const(_, _, s) => CleanText(t, s)
    case Item(j) => !t.String? ==> j < |c.items| && !c.items[j].typ.String?
  }

  predicate TidyItem(c: Config, d: Def) {
    d.Symbol? ==>
      && CleanText(Unknown, d.name)
      && forall k :: 0 <= k < |d.defaults| && d.defaults[k].value.Val? ==> TidyOperand(c, d.typ, d.defaults[k].value.operand)
  }

  /**
  Constants and names lie in one line; numbers are written without blanks, and
  have no string symbols as defaults, of which the program warns.
  */
  ghost predicate Tidy(c: Config) {
    && (forall i :: 0 <= i < |c.items| ==> TidyItem(c, c.items[i]))
    && (forall n, b :: CleanText(Int, c.lib.render(n, b)))
  }

  lemma TidyAt(c: Config, i: Id)
    requires Tidy(c) && i < |c.items|
    ensures TidyItem(c, c.items[i])
  {}

  ghost predicate CleanAt(c: Config, v: Env, i: Id) {
    i < |c.items| && c.items[i].Symbol? && i in v.str ==> CleanText(c.items[i].typ, v.str[i].0)
  }

  lemma ClampClean(t: Type, range: Option<(int, int)>, s: string, lib: Lib)
    requires CleanText(t, s) && !t.String? && forall n, b :: CleanText(Int, lib.render(n, b))
    ensures CleanText(t, Clamp(t, range, s, lib))
  {}

  lemma DefaultClean(c: Config, v: Env, i: Id)
    requires WellFormed(c) && Tidy(c) && i < |c.items| && c.items[i].Symbol? && !IsBoolTri(c.items[i].typ) && !c.items[i].typ.Unknown?
    requires forall j: Id :: j < |c.items| && StrLevel(c, j) < StrLevel(c, i) ==> CleanAt(c, v, j)
    ensures var s := DefaultStr(c.items[i], c, View(v, Readable(c, i)));
      s.Some? && s.value.Some? ==> CleanText(c.items[i].typ, s.value.value)
  {
    var d, w := c.items[i], View(v, Readable(c, i));
    TidyAt(c, i);
    ActiveDefaultIsDefault(d.defaults, 0, c, w);
    hide WellFormed, Tidy, CleanText, Readable, ActiveDefault;
    var a := ActiveDefault(d.defaults, 0, c, w);
    if a.Some? && a.value.Some? && a.value.value.0.Val? && w.Str(a.value.value.0.operand).Some? {
      var k :| 0 <= k < |d.defaults| && d.defaults[k].value == a.value.value.0;
      DefaultFacts(c, i, k);
      var o := d.defaults[k].value.operand;
      assert TidyOperand(c, d.typ, o) && StrBelow(c, o, StrLevel(c, i));
      if o.Item? {
        assert CleanAt(c, v, o.id);
        OtherType(c.items[o.id].typ, d.typ, v.str[o.id].0);
      }
    }
  }

  lemma OtherType(t: Type, u: Type, s: string)
    requires CleanText(t, s) && (!u.String? ==> !t.String?)
    ensures CleanText(u, s)
  {}

  lemma TextClean(c: Config, us: Users, v: Env, i: Id)
    requires WellFormed(c) && Tidy(c) && JustifiedAt(c, UserOf(us, i), v, i) && i < |c.items| && c.items[i].Symbol? && i in v.str
    requires !IsBoolTri(c.items[i].typ) && !c.items[i].typ.Unknown?
    requires UserStr(UserOf(us, i)).Some? ==> CleanText(c.items[i].typ, UserStr(UserOf(us, i)).value)
    requires forall j: Id :: j < |c.items| && StrLevel(c, j) < StrLevel(c, i) ==> CleanAt(c, v, j)
    ensures CleanText(c.items[i].typ, v.str[i].0)
  {
    DefaultClean(c, v, i);
    var d, w := c.items[i], View(v, Readable(c, i));
    hide WellFormed, DefaultStr, Readable, ActiveRange, TidyItem, Visibility, TriValue, Selection, Assignable, CleanAt;
    var s := DefaultStr(d, c, w);
    assert CleanText(d.typ, "");
    var range := ActiveRange(d.typ, d.ranges, 0, c, w);
    if !d.typ.String? && s.Some? && range.Some? {
      ClampClean(d.typ, range.value, s.value.GetOr(""), c.lib);
    }
    hide CleanText, Clamp, InRange;
  }

  lemma TriClean(t: Type, x: Tri)
    ensures CleanText(t, TriToStr(x))
  {}

  lemma NameClean(c: Config, u: User, v: Env, i: Id)
    requires Tidy(c) && JustifiedAt(c, u, v, i) && i < |c.items| && c.items[i].Symbol? && i in v.str
    requires IsBoolTri(c.items[i].typ) || c.items[i].typ.Unknown?
    ensures CleanText(c.items[i].typ, v.str[i].0)
  {
    hide Visibility, TriValue, Selection, Assignable, Readable, Tidy, CleanText, TriToStr, TextStr, NumberStr;
    var d := c.items[i];
    TidyAt(c, i);
    if IsBoolTri(d.typ) {
      assert i in v.tri && v.str[i].0 == TriToStr(v.tri[i].0);
      TriClean(d.typ, v.tri[i].0);
    } else {
      OtherType(Unknown, d.typ, d.name);
    }
  }

  lemma UndefinedIsUntyped(c: Config, i: Id)
    requires WellFormed(c) && i < |c.items| && !Live(c, i)
    ensures c.items[i].typ.Unknown?
  {
    assert WellFormedItem(c, i);
  }

  /** With clean texts from the user all strings are clean. */
  lemma {:induction false} ValuesClean(c: Config, us: Users, v: Env, i: Id)
    requires WellFormed(c) && Tidy(c) && Justified(c, us, v) && |us| == |c.items|
    requires forall j: Id :: Live(c, j) ==> CleanUser(c, us, j)
    ensures CleanAt(c, v, i)
    decreases StrLevel(c, i)
  {
    hide WellFormed, Tidy, JustifiedAt, CleanText;
    if i < |c.items| && c.items[i].Symbol? && i in v.str {
      assert JustifiedAt(c, UserOf(us, i), v, i);
      if IsBoolTri(c.items[i].typ) || c.items[i].typ.Unknown? {
        NameClean(c, UserOf(us, i), v, i);
      } else {
        if !Live(c, i) { UndefinedIsUntyped(c, i); }
        assert CleanUser(c, us, i);
        forall j: Id | j < |c.items| && StrLevel(c, j) < StrLevel(c, i) ensures CleanAt(c, v, j) {
          ValuesClean(c, us, v, j);
        }
        TextClean(c, us, v, i);
      }
    }
  }

  /**
  Saving and loading gives all values again if and only if every item is
  recoverable and no string has a line break and no number a trailing blank.
  */
  lemma SaveLoadExactly(c: Config, names: Names, us: Users, layout: seq<Entry>, s0: UserState)
    requires WellFormed(c) && ValidUsers(c, us) && ValidState(c, s0) && NamesOk(c, names)
    requires Saveable(c) && Tidy(c) && LayoutOk(c, layout)
    ensures var text := Join(SaveLines(c, Values(c, us), layout, {}));
            Values(c, Load(c, names, s0, text, true).us) == Values(c, us) <==>
            CleanValues(c, Values(c, us)) && forall i: Id :: i < |c.items| ==> Recoverable(c, Values(c, us), i)
  {
    hide WellFormed, ValidUsers, Saveable, Tidy, LayoutOk, Values, Load, Join, SaveLines, Recoverable, NamesOk, CleanText;
    if CleanValues(c, Values(c, us)) {
      SaveLoadExact(c, names, us, layout, s0);
    } else {
      var text := Join(SaveLines(c, Values(c, us), layout, {}));
      var r := Load(c, names, s0, text, true).us;
      LoadedClean(c, names, s0, text);
      ValidLength(c, Load(c, names, s0, text, true));
      ValuesExistUniquely(c, r);
      forall i: Id | i < |c.items| ensures CleanAt(c, Values(c, r), i) {
        ValuesClean(c, r, Values(c, r), i);
      }
      assert CleanValues(c, Values(c, r)) by {
        forall i | 0 <= i < |c.items| && c.items[i].Symbol? && i in Values(c, r).str
          ensures CleanText(c.items[i].typ, Values(c, r).str[i].0)
        {
          assert CleanAt(c, Values(c, r), i);
        }
      }
    }
  }
}
