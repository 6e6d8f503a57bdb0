/**
Saving and reloading: exactly when, from whatever settings the load starts, the
values are those that were saved.
*/
module KconfigSaveLoad {
  import opened ConfigText
  import opened KconfigChoice
  import opened KconfigFile
  import opened KconfigModel
  import opened KconfigSemantics
  import opened KconfigSettings
  import opened KconfigValues
  import opened Options

  // ---------------------------------------------------------------------
  // When the file format can carry a configuration
  // ---------------------------------------------------------------------

  predicate SaveableItem(d: Def) {
    match d
    case Symbol(name, typ, _, _, _, _, _, _, choice, _, _) =>
      PlainName(name) && (choice.Some? ==> IsBoolTri(typ))
    case Choice(typ, _, _, _, _) =>
      IsBoolTri(typ)
  }

  /** Names as the tokenizer reads them, and choices of bool and tristate symbols. */
  predicate Saveable(c: Config) {
    forall i :: 0 <= i < |c.items| ==> SaveableItem(c.items[i])
  }

  /** A string a line can carry: no line break, and for numbers no trailing blank. */
  predicate CleanText(t: Type, s: string) {
    BreakFree(s) && (!t.String? ==> s == "" || !IsSpace(s[|s| - 1]))
  }

  ghost predicate CleanValues(c: Config, v: Env) {
    forall i :: 0 <= i < |c.items| && c.items[i].Symbol? && i in v.str ==> CleanText(c.items[i].typ, v.str[i].0)
  }

  /** A comment line that loading skips. */
  predicate Inert(line: string) {
    BreakFree(line) && SetMatch(RStrip(line)).None? && UnsetMatch(RStrip(line)).None?
  }

  predicate EntryOk(c: Config, e: Entry) {
    match e
    case Text(ls) => forall k :: 0 <= k < |ls| ==> Inert(ls[k])
    case Sym(i) => Live(c, i) && c.items[i].Symbol?
  }

  ghost predicate LayoutOk(c: Config, layout: seq<Entry>) {
    && (forall k :: 0 <= k < |layout| ==> EntryOk(c, layout[k]))
    && (forall i: Id :: Live(c, i) && c.items[i].Symbol? ==> Sym(i) in layout)
  }

  // ---------------------------------------------------------------------
  // One line
  // ---------------------------------------------------------------------

  predicate Known(c: Config, v: Env, i: Id) {
    i < |c.items| && c.items[i].Symbol? && i in v.tri && i in v.str
  }

  /** The user value that writing and reading back gives item `i`. */
  function Wanted(c: Config, v: Env, i: Id): UserValue
    requires Known(c, v, i)
  {
    if IsBoolTri(c.items[i].typ) then UTri(v.tri[i].0) else UStr(v.str[i].0)
  }

  function Effect(c: Config, s: UserState, v: Env, i: Id): (r: UserState)
    requires WellFormed(c) && ValidState(c, s) && Known(c, v, i)
    ensures ValidState(c, r)
  {
    if IsBoolTri(c.items[i].typ) then AssignBool(c, s, i, TriToStr(v.tri[i].0))
    else AssignText(c, s, i, v.str[i].0)
  }

  /** The string of a bool or tristate symbol is its value, and only tristate symbols are m. */
  predicate Spelled(c: Config, v: Env, i: Id)
    requires Known(c, v, i)
  {
    && (IsBoolTri(c.items[i].typ) ==> v.str[i].0 == TriToStr(v.tri[i].0))
    && (c.items[i].typ.Bool? ==> v.tri[i].0 != 1)
  }

  lemma LineIsClean(c: Config, v: Env, i: Id)
    requires Known(c, v, i) && SymbolLine(c, v, i).Some? && SaveableItem(c.items[i])
    requires CleanText(c.items[i].typ, v.str[i].0) && Spelled(c, v, i)
    ensures var l := SymbolLine(c, v, i).value; BreakFree(l) && RStrip(l) == l
  {
    var d, l := c.items[i], SymbolLine(c, v, i).value;
    if d.typ.String? {
      EscapeBreakFree(v.str[i].0);
    }
    forall ch | ch in l ensures !IsBreak(ch) {
      if ch !in d.name && ch !in v.str[i].0 {
        assert ch in PREFIX || ch in NOT_SET || ch == '=' || ch == '"' || ch == '#' || ch == ' ' || ch in Escape(v.str[i].0);
      }
    }
    RStripNoOp(l);
  }

  lemma {:induction false} EscapeBreakFree(s: string)
    requires BreakFree(s)
    ensures BreakFree(Escape(s))
  {
    if s != "" {
      EscapeStep(s);
      EscapeBreakFree(s[1..]);
    }
  }

  lemma ApplyOwnLine(c: Config, names: Names, s: UserState, v: Env, i: Id)
    requires WellFormed(c) && ValidState(c, s) && NamesOk(c, names)
    requires Known(c, v, i) && Live(c, i) && SymbolLine(c, v, i).Some? && SaveableItem(c.items[i])
    requires CleanText(c.items[i].typ, v.str[i].0) && Spelled(c, v, i)
    ensures ApplyLine(c, names, s, SymbolLine(c, v, i).value) == Effect(c, s, v, i)
  {
    hide WellFormed, ValidUsers, AssignBool, AssignText;
    var d, l := c.items[i], SymbolLine(c, v, i).value;
    LineIsClean(c, v, i);
    assert Lookup(c, names, d.name) == Some(i);
    if IsBoolTri(d.typ) {
      if v.tri[i].0 == 0 {
        UnsetRoundTrip(d.name);
        AssignN(c, s, i);
      } else {
        SetRoundTrip(d.name, v.str[i].0);
        assert v.str[i].0[..1] == v.str[i].0;
      }
    } else if d.typ.String? {
      SetRoundTrip(d.name, "\"" + Escape(v.str[i].0) + "\"");
      QuotedRoundTrip(v.str[i].0);
    } else {
      SetRoundTrip(d.name, v.str[i].0);
    }
  }

  lemma AssignN(c: Config, s: UserState, i: Id)
    requires WellFormed(c) && ValidState(c, s) && i < |c.items| && c.items[i].Symbol?
    ensures AssignBool(c, s, i, "n") == AssignText(c, s, i, "n")
  {}

  // ---------------------------------------------------------------------
  // All lines
  // ---------------------------------------------------------------------

  /** Loading item `i` from its line stores its value. */
  predicate Accepted(c: Config, v: Env, i: Id) {
    Known(c, v, i) && Live(c, i) && SymbolLine(c, v, i).Some? && ValidFor(c.lib, c.items[i].typ, Wanted(c, v, i))
  }

  /** The line of `m` sets the mode of choice `ch`, to the value of `m`. */
  predicate Moded(c: Config, v: Env, ch: Id, m: Id) {
    && Accepted(c, v, m) && c.items[m].choice == Some(ch) && IsBoolTri(c.items[m].typ) && v.tri[m].0 != 0
    && ch < |c.items| && ValidFor(c.lib, c.items[ch].typ, UTri(v.tri[m].0))
  }

  /** `m` is the y symbol of choice `ch`. */
  predicate Picked(c: Config, v: Env, ch: Id, m: Id) {
    Moded(c, v, ch, m) && v.tri[m].0 == 2
  }

  ghost predicate SymbolLoaded(c: Config, v: Env, s: UserState, done: set<Id>, i: Id)
  {
    && (i in s.touched <==> i in done && Accepted(c, v, i))
    && (i in s.touched && i < |s.us| ==> s.us[i].value == Some(Wanted(c, v, i)))
  }

  ghost predicate ChoiceLoaded(c: Config, v: Env, s: UserState, done: set<Id>, ch: Id)
  {
    && (ch in s.touched <==> exists m :: m in done && Moded(c, v, ch, m))
    && (forall m :: m in done && Moded(c, v, ch, m) && ch < |s.us| ==> ModeLoaded(v, s.us[ch], m))
  }

  /** The mode is the value of `m`, and `m` is selected if that is y. */
  predicate ModeLoaded(v: Env, u: User, m: Id) {
    m in v.tri && u.value == Some(UTri(v.tri[m].0)) && (v.tri[m].0 == 2 ==> u.selection == Some(m))
  }

  ghost predicate LoadedAt(c: Config, v: Env, s: UserState, done: set<Id>, i: Id)
  {
    Live(c, i) ==> if c.items[i].Symbol? then SymbolLoaded(c, v, s, done, i) else ChoiceLoaded(c, v, s, done, i)
  }

  /** After the lines of the symbols in `done`: exactly their settings have been stored. */
  ghost predicate Loaded(c: Config, v: Env, s: UserState, done: set<Id>)
  {
    forall i: Id :: LoadedAt(c, v, s, done, i)
  }

  /** The symbols of a choice agree on its mode, and at most one of them is y. */
  ghost predicate OneMode(c: Config, v: Env) {
    forall ch, m, n :: Moded(c, v, ch, m) && Moded(c, v, ch, n) ==> v.tri[m].0 == v.tri[n].0 && (v.tri[m].0 == 2 ==> m == n)
  }

  lemma EffectOfPlain(c: Config, s: UserState, v: Env, i: Id)
    requires WellFormed(c) && ValidState(c, s) && Accepted(c, v, i) && Saveable(c) && Spelled(c, v, i)
    requires forall ch :: !Moded(c, v, ch, i)
    ensures Effect(c, s, v, i).touched == s.touched + {i}
    ensures Effect(c, s, v, i).us == PutValue(s.us, i, Some(Wanted(c, v, i)))
  {
    assert SaveableItem(c.items[i]) && WellFormedItem(c, i);
    var d := c.items[i];
    if d.choice.Some? {
      assert !Moded(c, v, d.choice.value, i) && SaveableItem(c.items[d.choice.value]);
      assert ValidValue(c, d.choice.value, s.us[d.choice.value]);
    }
    SameValue(s.us, i, Some(Wanted(c, v, i)));
  }

  lemma SameValue(us: Users, i: Id, x: Option<UserValue>)
    requires i < |us|
    ensures us[i].value == x ==> PutValue(us, i, x) == us
  {}

  lemma EffectOfModed(c: Config, s: UserState, v: Env, i: Id, ch: Id)
    requires WellFormed(c) && ValidState(c, s) && Moded(c, v, ch, i) && Saveable(c)
    ensures ch < |s.us| && ch != i && IsChoice(c, ch)
    ensures Effect(c, s, v, i).touched == s.touched + {i, ch}
    ensures Effect(c, s, v, i).us == WithMode(s.us, v.tri[i].0, i, ch)
  {
    assert WellFormedItem(c, i) && SaveableItem(c.items[i]) && SaveableItem(c.items[ch]);
    SameValue(s.us, ch, Some(UTri(v.tri[i].0)));
  }

  /** The settings after choice symbol `i` has been assigned `t`, m or y. */
  function WithMode(us: Users, t: Tri, i: Id, ch: Id): Users
    requires i < |us| && ch < |us|
  {
    us[ch := User(Some(UTri(t)), if t == 2 then Some(i) else us[ch].selection)][i := User(Some(UTri(t)), us[i].selection)]
  }

  lemma EffectRejected(c: Config, s: UserState, v: Env, i: Id)
    requires WellFormed(c) && ValidState(c, s) && Known(c, v, i) && Spelled(c, v, i) && SaveableItem(c.items[i])
    requires Live(c, i) && !ValidFor(c.lib, c.items[i].typ, Wanted(c, v, i))
    ensures Effect(c, s, v, i) == s
  {
    assert ValidValue(c, i, s.us[i]);
  }

  lemma PlainStepAt(c: Config, v: Env, s: UserState, t: UserState, done: set<Id>, i: Id, j: Id)
    requires Accepted(c, v, i) && i < |s.us| == |c.items| && (forall ch :: !Moded(c, v, ch, i))
    requires t.touched == s.touched + {i} && t.us == PutValue(s.us, i, Some(Wanted(c, v, i)))
    requires LoadedAt(c, v, s, done, j)
    ensures LoadedAt(c, v, t, done + {i}, j)
  {
    hide Moded, Accepted;
    assert Accepted(c, v, i) && Known(c, v, i) by { AcceptedKnown(c, v, i); }
    if Live(c, j) && c.items[j].Choice? {
      forall m ensures m in done + {i} && Moded(c, v, j, m) <==> m in done && Moded(c, v, j, m) {
        assert !Moded(c, v, j, i);
      }
    }
  }

  lemma ModeStepAt(c: Config, v: Env, s: UserState, t: UserState, done: set<Id>, i: Id, ch: Id, j: Id)
    requires Moded(c, v, ch, i) && i < |s.us| == |c.items| && IsChoice(c, ch) && ch != i && OneMode(c, v)
    requires t.touched == s.touched + {i, ch} && i in v.tri && t.us == WithMode(s.us, v.tri[i].0, i, ch)
    requires LoadedAt(c, v, s, done, j)
    ensures LoadedAt(c, v, t, done + {i}, j)
  {
    hide Moded, Accepted;
    ModedOnce(c, v, ch, i, j);
    AcceptedKnown(c, v, i);
    if Live(c, j) && c.items[j].Choice? && j != ch {
      forall m ensures m in done + {i} && Moded(c, v, j, m) <==> m in done && Moded(c, v, j, m) {
        assert !Moded(c, v, j, i);
      }
    }
    if j == ch {
      forall m | m in done + {i} && Moded(c, v, ch, m) ensures ModeLoaded(v, t.us[ch], m) {
        ModedKnown(c, v, ch, m);
      }
    }
  }

  lemma ModedKnown(c: Config, v: Env, ch: Id, m: Id)
    requires Moded(c, v, ch, m)
    ensures m in v.tri
  {}

  lemma ValidLength(c: Config, s: UserState)
    requires ValidState(c, s)
    ensures |s.us| == |c.items|
  {}

  lemma AcceptedKnown(c: Config, v: Env, i: Id)
    requires Accepted(c, v, i)
    ensures Known(c, v, i)
  {}

  lemma LoadedStep(c: Config, v: Env, s: UserState, done: set<Id>, i: Id)
    requires WellFormed(c) && ValidState(c, s) && Saveable(c) && OneMode(c, v) && i !in done
    requires Known(c, v, i) && Live(c, i) && Spelled(c, v, i) && SymbolLine(c, v, i).Some?
    requires Loaded(c, v, s, done)
    ensures Loaded(c, v, Effect(c, s, v, i), done + {i})
  {
    hide Effect, WellFormed, ValidUsers, Saveable, Spelled, SymbolLine, Wanted, Moded, Accepted, OneMode, WithMode;
    assert |s.us| == |c.items| by { ValidLength(c, s); }
    var t := Effect(c, s, v, i);
    if !Accepted(c, v, i) {
      NotAccepted(c, v, i);
      assert SaveableItem(c.items[i]) by { SaveableAt(c, i); }
      EffectRejected(c, s, v, i);
      forall j: Id ensures LoadedAt(c, v, t, done + {i}, j) {
        assert LoadedAt(c, v, s, done, j);
      }
    } else if exists ch :: Moded(c, v, ch, i) {
      var ch :| Moded(c, v, ch, i);
      EffectOfModed(c, s, v, i, ch);
      ModedKnown(c, v, ch, i);
      forall j: Id ensures LoadedAt(c, v, t, done + {i}, j) {
        assert LoadedAt(c, v, s, done, j);
        ModeStepAt(c, v, s, t, done, i, ch, j);
      }
    } else {
      EffectOfPlain(c, s, v, i);
      forall j: Id ensures LoadedAt(c, v, t, done + {i}, j) {
        assert LoadedAt(c, v, s, done, j);
        PlainStepAt(c, v, s, t, done, i, j);
      }
    }
  }

  lemma NotAccepted(c: Config, v: Env, i: Id)
    requires Known(c, v, i) && Live(c, i) && SymbolLine(c, v, i).Some? && !Accepted(c, v, i)
    ensures !ValidFor(c.lib, c.items[i].typ, Wanted(c, v, i))
    ensures forall ch :: !Moded(c, v, ch, i)
  {}

  lemma SaveableAt(c: Config, i: Id)
    requires Saveable(c) && i < |c.items|
    ensures SaveableItem(c.items[i])
  {}

  /** A symbol sets the mode of its own choice only. */
  lemma ModedOnce(c: Config, v: Env, ch: Id, i: Id, j: Id)
    requires Moded(c, v, ch, i)
    ensures Moded(c, v, j, i) ==> j == ch
    ensures Accepted(c, v, i) && Known(c, v, i) && Wanted(c, v, i) == UTri(v.tri[i].0)
  {}

  // ---------------------------------------------------------------------
  // The whole file
  // ---------------------------------------------------------------------

  ghost predicate Ready(c: Config, v: Env) {
    && Saveable(c) && CleanValues(c, v) && OneMode(c, v)
    && forall i: Id :: Live(c, i) && c.items[i].Symbol? ==> Known(c, v, i) && Spelled(c, v, i)
  }

  function Syms(layout: seq<Entry>): set<Id> {
    if layout == [] then {} else
      (match layout[0] case Sym(i) => {i} case Text(_) => {}) + Syms(layout[1..])
  }

  lemma {:induction false} LoadConcat(c: Config, names: Names, s: UserState, a: seq<string>, b: seq<string>)
    requires WellFormed(c) && ValidState(c, s)
    ensures LoadLines(c, names, s, a + b) == LoadLines(c, names, LoadLines(c, names, s, a), b)
    decreases |a|
  {
    hide ApplyLine, WellFormed, ValidState;
    if a == [] {
      assert a + b == b;
    } else {
      assert (a + b)[1..] == a[1..] + b;
      LoadConcat(c, names, ApplyLine(c, names, s, a[0]), a[1..], b);
    }
  }

  lemma {:induction false} InertIgnored(c: Config, names: Names, s: UserState, ls: seq<string>)
    requires WellFormed(c) && ValidState(c, s) && forall k :: 0 <= k < |ls| ==> Inert(ls[k])
    ensures LoadLines(c, names, s, ls) == s
  {
    hide WellFormed, ValidState;
    if ls != [] {
      assert Inert(ls[0]);
      assert ApplyLine(c, names, s, ls[0]) == s;
      InertIgnored(c, names, s, ls[1..]);
    }
  }

  lemma LoadSymbol(c: Config, names: Names, v: Env, s: UserState, done: set<Id>, i: Id)
    requires WellFormed(c) && ValidState(c, s) && NamesOk(c, names) && Ready(c, v)
    requires Live(c, i) && c.items[i].Symbol? && i !in done && Loaded(c, v, s, done)
    ensures Loaded(c, v, LoadLines(c, names, s, SymbolLines(c, v, i)), done + {i})
  {
    hide WellFormed, ValidState, ApplyLine, Effect, SymbolLine, NamesOk, OneMode, Loaded;
    assert Known(c, v, i) && Spelled(c, v, i);
    var l := SymbolLine(c, v, i);
    if l.Some? {
      SaveableAt(c, i);
      ApplyOwnLine(c, names, s, v, i);
      assert LoadLines(c, names, s, [l.value]) == Effect(c, s, v, i) by {
        assert [l.value][1..] == [];
      }
      LoadedStep(c, v, s, done, i);
    } else {
      Unwritten(c, v, s, done, i);
    }
  }

  lemma Unwritten(c: Config, v: Env, s: UserState, done: set<Id>, i: Id)
    requires SymbolLine(c, v, i).None? && Loaded(c, v, s, done)
    ensures Loaded(c, v, s, done + {i})
  {
    hide SymbolLine, Wanted;
    forall j: Id ensures LoadedAt(c, v, s, done + {i}, j) {
      assert LoadedAt(c, v, s, done, j);
      assert !Moded(c, v, j, i) && !Accepted(c, v, i);
    }
  }

  lemma {:induction false} LoadLayout(c: Config, names: Names, v: Env, s: UserState, layout: seq<Entry>, done: set<Id>)
    requires WellFormed(c) && ValidState(c, s) && NamesOk(c, names) && Ready(c, v)
    requires forall k :: 0 <= k < |layout| ==> EntryOk(c, layout[k])
    requires Loaded(c, v, s, done)
    ensures Loaded(c, v, LoadLines(c, names, s, SaveLines(c, v, layout, done)), done + Syms(layout))
    decreases |layout|
  {
    hide WellFormed, ValidState, ApplyLine, NamesOk, Ready, Loaded;
    if layout == [] {
      assert done + {} == done;
    } else {
      var rest := layout[1..];
      assert EntryOk(c, layout[0]);
      match layout[0]
      case Text(ls) =>
        LoadConcat(c, names, s, ls, SaveLines(c, v, rest, done));
        InertIgnored(c, names, s, ls);
        LoadLayout(c, names, v, s, rest, done);
        assert {} + Syms(rest) == Syms(rest);
      case Sym(i) =>
        assert done + ({i} + Syms(rest)) == done + {i} + Syms(rest);
        if i in done {
          LoadLayout(c, names, v, s, rest, done);
          assert done + {i} == done;
        } else {
          LoadConcat(c, names, s, SymbolLines(c, v, i), SaveLines(c, v, rest, done + {i}));
          LoadSymbol(c, names, v, s, done, i);
          LoadLayout(c, names, v, LoadLines(c, names, s, SymbolLines(c, v, i)), rest, done + {i});
        }
    }
  }

  lemma {:induction false} SymsComplete(layout: seq<Entry>, i: Id)
    ensures i in Syms(layout) <==> Sym(i) in layout
  {
    if layout != [] {
      SymsComplete(layout[1..], i);
      assert layout == [layout[0]] + layout[1..];
    }
  }

  /** What the reset leaves: accepted values on symbols, on choices the mode its symbols agree on, nothing else. */
  ghost predicate UserMatches(c: Config, v: Env, u: User, i: Id) {
    Live(c, i) ==>
      if c.items[i].Symbol? then
        u.value == if Accepted(c, v, i) then Some(Wanted(c, v, i)) else None
      else
        && (forall m :: Moded(c, v, i, m) ==> ModeLoaded(v, u, m))
        && ((forall m :: !Moded(c, v, i, m)) ==> u == User(None, None))
  }

  lemma ResetMatches(c: Config, v: Env, s: UserState, done: set<Id>, i: Id)
    requires ValidState(c, s) && i < |c.items| && Loaded(c, v, s, done)
    requires forall m: Id :: Live(c, m) && c.items[m].Symbol? ==> m in done
    ensures UserMatches(c, v, ResetUser(c, s, i), i)
  {
    hide ValidUsers, Moded, Accepted, Wanted, ModeLoaded;
    assert |s.us| == |c.items| by { ValidLength(c, s); }
    assert LoadedAt(c, v, s, done, i);
    forall m | Moded(c, v, i, m) ensures m in done {
      ModedOnce(c, v, i, m, i);
      AcceptedKnown(c, v, m);
    }
  }

  // ---------------------------------------------------------------------
  // What the reloaded settings do to the saved values
  // ---------------------------------------------------------------------

  /** Bool items are invisible or fully visible. */
  lemma BoolVisibility(c: Config, u: User, v: Env, i: Id)
    requires i < |c.items| && i in v.vis && JustifiedAt(c, u, v, i)
    ensures c.items[i].typ.Bool? ==> v.vis[i] != 1
    ensures v.vis[i] == 1 ==> TypeOf(i, c, View(v, Readable(c, i))) == Some(Tristate)
  {
    hide PromptValue, HiddenByChoice, Readable, TriValue, StrValue, Selection, Assignable;
  }

  lemma SymbolFacts(c: Config, u: User, v: Env, i: Id)
    requires i < |c.items| && SaveableItem(c.items[i]) && c.items[i].Symbol? && JustifiedAt(c, u, v, i) && TotalAt(c, v, i)
    ensures Spelled(c, v, i)
    ensures c.items[i].choice.Some? && v.tri[i].0 == 2 ==>
              c.items[i].choice.value in v.sel && v.sel[c.items[i].choice.value] == Some(i)
    ensures IsBoolTri(c.items[i].typ) && v.vis[i] != 0 ==> v.tri[i].1
  {
    BoolVisibility(c, u, v, i);
    hide PromptValue, HiddenByChoice, Readable, Visibility, BaseTri, Assignable, Selection;
    if IsBoolTri(c.items[i].typ) && c.items[i].choice.None? && v.vis[i] != 0 {
      VisibleIsWritten(c, u, View(v, Readable(c, i)), i, v.vis[i]);
    }
  }

  lemma SaveableMember(c: Config, ch: Id, m: Id)
    requires WellFormed(c) && Saveable(c) && m < |c.items| && c.items[m].Symbol? && c.items[m].choice == Some(ch)
    ensures LogicalChoice(c, ch) && m in c.items[ch].syms
  {
    assert WellFormedItem(c, m) && WellFormedItem(c, ch);
    forall x | x in c.items[ch].syms ensures x < |c.items| && IsBoolTri(c.items[x].typ) {
      assert SaveableItem(c.items[x]);
    }
  }

  /** A symbol that sets the mode of its choice is y exactly if the choice is, and then it is selected. */
  lemma ModeOfMember(c: Config, us: Users, v: Env, ch: Id, m: Id)
    requires WellFormed(c) && ValidUsers(c, us) && Saveable(c) && Total(c, v) && Justified(c, us, v) && Moded(c, v, ch, m)
    ensures ch in v.tri && ch in v.sel && m in v.tri
    ensures v.tri[m].0 == 2 <==> v.tri[ch].0 == 2
    ensures v.tri[m].0 == 2 ==> v.sel[ch] == Some(m)
  {
    SaveableMember(c, ch, m);
    hide WellFormed, ValidUsers, Saveable, Total, Justified;
    ModeAndSelection(c, us, v, ch);
    MemberIsTotal(c, v, m);
    MemberVisibility(c, us, v, ch, m);
    MemberValue(c, us, v, ch, m);
  }

  lemma ValuesReady(c: Config, us: Users, v: Env)
    requires WellFormed(c) && ValidUsers(c, us) && Saveable(c) && Total(c, v) && Justified(c, us, v) && CleanValues(c, v)
    ensures Ready(c, v)
  {
    hide WellFormed, ValidUsers, JustifiedAt, SaveableItem, Wanted, SymbolLine, Spelled, Moded;
    forall i: Id | i < |c.items| && c.items[i].Symbol? ensures Known(c, v, i) && Spelled(c, v, i) {
      assert JustifiedAt(c, UserOf(us, i), v, i) && TotalAt(c, v, i);
      SymbolFacts(c, UserOf(us, i), v, i);
    }
    forall ch, m, n | Moded(c, v, ch, m) && Moded(c, v, ch, n)
      ensures m in v.tri && n in v.tri && v.tri[m].0 == v.tri[n].0 && (v.tri[m].0 == 2 ==> m == n)
    {
      ModeOfMember(c, us, v, ch, m);
      ModeOfMember(c, us, v, ch, n);
      ModedNotN(c, v, ch, m);
      ModedNotN(c, v, ch, n);
    }
  }

  lemma ModedNotN(c: Config, v: Env, ch: Id, m: Id)
    requires Moded(c, v, ch, m)
    ensures m in v.tri && v.tri[m].0 != 0
  {}

  /**
  The value of an item comes back from a file. It does not for y above an m-level
  prompt, unless a select or imply makes it y again; for the mode of a choice where
  no symbol is written as m or y and it is not the mode the choice starts with, or
  where one is and the mode is n; and for a user value of a symbol that is set from
  the environment, which is not written.
  */
  predicate Recoverable(c: Config, v: Env, i: Id)
    requires i < |c.items|
  {
    var d, w := c.items[i], View(v, Readable(c, i));
    i in v.vis && i in v.tri && i in v.str &&
    match d
    case Symbol(_, typ, _, _, _, revDep, weakRevDep, _, choice, _, special) =>
      if IsBoolTri(typ) then
        choice.None? && v.vis[i] == 1 && v.tri[i].0 == 2 ==>
          ExprValue(revDep, c, w) == Some(2) || ExprValue(weakRevDep, c, w) == Some(2)
      else
        special && !typ.Unknown? ==> StrValue(i, c, User(None, None), w) == Some(v.str[i])
    case Choice(_, _, _, _, optional) =>
      v.vis[i] != 0 ==>
        if exists m :: m in v.tri && Moded(c, v, i, m) then v.tri[i].0 != 0
        else v.tri[i].0 == if optional then 0 else if TypeOf(i, c, w) == Some(Bool) then 2 else 1
  }

  /** Outside choices: what is kept when a value becomes the user's. */
  lemma PlainExact(c: Config, u: User, u': User, v: View, i: Id, vis: Tri)
    requires i < |c.items| && c.items[i].Symbol? && IsBoolTri(c.items[i].typ)
    requires vis == 1 ==> TypeOf(i, c, v) == Some(Tristate)
    requires PlainTri(i, c, u, vis, v).Some?
    requires vis != 0 ==> UserTri(u') == Some(PlainTri(i, c, u, vis, v).value.0)
    ensures PlainTri(i, c, u', vis, v) == PlainTri(i, c, u, vis, v) <==>
      (vis == 1 && PlainTri(i, c, u, vis, v).value.0 == 2 ==>
         ExprValue(c.items[i].revDep, c, v) == Some(2) || ExprValue(c.items[i].weakRevDep, c, v) == Some(2))
  {
    hide ExprValue, ActiveDefault, TypeOf;
    if vis != 0 {
      VisibleIsWritten(c, u, v, i, vis);
      VisibleIsWritten(c, u', v, i, vis);
      var d, x := c.items[i], PlainTri(i, c, u, vis, v).value.0;
      assert BaseTri(d, u', vis, c, v) == Some((Min(x, vis), true));
    }
  }

  lemma TriExact(c: Config, u: User, u': User, v: Env, i: Id)
    requires i < |c.items| && c.items[i].Symbol? && IsBoolTri(c.items[i].typ) && SaveableItem(c.items[i])
    requires JustifiedAt(c, u, v, i) && TotalAt(c, v, i) && Live(c, i) && UserMatches(c, v, u', i)
    ensures TriValue(i, c, u', View(v, Readable(c, i))) == Some(v.tri[i]) <==> Recoverable(c, v, i)
  {
    BoolVisibility(c, u, v, i);
    SymbolFacts(c, u, v, i);
    var w := View(v, Readable(c, i));
    hide PromptValue, HiddenByChoice, Readable, Visibility, PlainTri, TypeOf, Selection, Assignable, StrValue;
    assert v.vis[i] != 0 ==> UserTri(u') == Some(v.tri[i].0);
    if c.items[i].choice.None? {
      PlainExact(c, u, u', w, i, v.vis[i]);
    }
  }

  lemma VisibleIsWritten(c: Config, u: User, v: View, i: Id, vis: Tri)
    requires i < |c.items| && c.items[i].Symbol? && vis != 0 && PlainTri(i, c, u, vis, v).Some?
    ensures PlainTri(i, c, u, vis, v).value.1
  {
    hide ExprValue, ActiveDefault;
  }

  /** Visible strings and numbers are written. */
  lemma VisibleTextIsWritten(c: Config, u: User, v: View, d: Def, vis: Tri)
    requires d.Symbol? && vis != 0
    ensures TextStr(d, c, u, vis, v).Some? ==> TextStr(d, c, u, vis, v).value.1
    ensures NumberStr(d, c, u, vis, v).Some? ==> NumberStr(d, c, u, vis, v).value.1
  {
    hide DefaultStr, ActiveRange;
  }

  lemma TextFixpoint(c: Config, u: User, u': User, v: View, d: Def, vis: Tri)
    requires d.Symbol? && TextStr(d, c, u, vis, v).Some?
    requires vis != 0 ==> UserStr(u') == Some(TextStr(d, c, u, vis, v).value.0)
    ensures TextStr(d, c, u', vis, v) == TextStr(d, c, u, vis, v)
  {
    hide DefaultStr;
    if vis != 0 {
      VisibleTextIsWritten(c, u, v, d, vis);
    }
  }

  /** A number that came from the defaults may be rejected or out of range; then it comes from them again. */
  lemma NumberFixpoint(c: Config, u: User, u': User, v: View, d: Def, vis: Tri)
    requires d.Symbol? && NumberStr(d, c, u, vis, v).Some?
    requires UserStr(u).Some? ==> ValidFor(c.lib, d.typ, UStr(UserStr(u).value))
    requires var s := NumberStr(d, c, u, vis, v).value.0;
             vis != 0 ==> UserStr(u') == if ValidFor(c.lib, d.typ, UStr(s)) then Some(s) else None
    ensures NumberStr(d, c, u', vis, v) == NumberStr(d, c, u, vis, v)
  {
    hide DefaultStr, ActiveRange, ValidFor, Clamp;
    if vis != 0 {
      VisibleTextIsWritten(c, u, v, d, vis);
    }
  }

  lemma StrExact(c: Config, u: User, u': User, v: Env, i: Id)
    requires i < |c.items| && c.items[i].Symbol? && SaveableItem(c.items[i]) && ValidValue(c, i, u) && !IsBoolTri(c.items[i].typ)
    requires JustifiedAt(c, u, v, i) && TotalAt(c, v, i) && Live(c, i) && UserMatches(c, v, u', i)
    ensures StrValue(i, c, u', View(v, Readable(c, i))) == Some(v.str[i]) <==> Recoverable(c, v, i)
  {
    hide Readable, Visibility, TextStr, NumberStr, TriValue, Assignable, Selection;
    var d, w, vis := c.items[i], View(v, Readable(c, i)), v.vis[i];
    if d.special && !d.typ.Unknown? {
      assert !Accepted(c, v, i) && u'.value.None?;
      SameText(c, u', User(None, None), w, i);
    } else if !d.typ.Unknown? {
      if vis != 0 {
        VisibleTextIsWritten(c, u, w, d, vis);
      }
      if d.typ.String? {
        TextFixpoint(c, u, u', w, d, vis);
      } else {
        NumberFixpoint(c, u, u', w, d, vis);
      }
    }
  }

  /** Selections play no role for symbols. */
  lemma SameText(c: Config, u: User, u': User, w: View, i: Id)
    requires i < |c.items| && c.items[i].Symbol? && u.value == u'.value
    ensures StrValue(i, c, u, w) == StrValue(i, c, u', w)
  {
    hide DefaultStr, ActiveRange;
  }

  /** A choice: the mode its symbols show, or else the one it starts with. */
  lemma ModeExact(c: Config, us: Users, u': User, v: Env, ch: Id)
    requires WellFormed(c) && ValidUsers(c, us) && Saveable(c) && IsChoice(c, ch)
    requires Total(c, v) && Justified(c, us, v) && UserMatches(c, v, u', ch)
    ensures ch in v.tri && (TriValue(ch, c, u', View(v, Readable(c, ch))) == Some(v.tri[ch]) <==> Recoverable(c, v, ch))
  {
    assert TotalAt(c, v, ch) && JustifiedAt(c, UserOf(us, ch), v, ch);
    hide WellFormed, ValidUsers, Justified, Total, Saveable, Moded;
    if m: Id :| m in v.tri && Moded(c, v, ch, m) {
      ModeOfMember(c, us, v, ch, m);
      ModedNotN(c, v, ch, m);
      ShownMode(c, UserOf(us, ch), u', v, ch, m);
    } else {
      forall m ensures !Moded(c, v, ch, m) {
        if Moded(c, v, ch, m) {
          ModedNotN(c, v, ch, m);
        }
      }
      HiddenMode(c, UserOf(us, ch), u', v, ch);
    }
  }

  lemma ShownMode(c: Config, u: User, u': User, v: Env, ch: Id, m: Id)
    requires IsChoice(c, ch) && JustifiedAt(c, u, v, ch) && TotalAt(c, v, ch)
    requires m in v.tri && Moded(c, v, ch, m) && ModeLoaded(v, u', m) && v.tri[m].0 != 0
    requires v.tri[m].0 == 2 <==> v.tri[ch].0 == 2
    ensures TriValue(ch, c, u', View(v, Readable(c, ch))) == Some(v.tri[ch]) <==> Recoverable(c, v, ch)
  {
    hide Readable, Visibility, Selection, Assignable, StrValue, Moded, TypeOf;
    assert View(v, Readable(c, ch)).Vis(ch) == Some(v.vis[ch]);
  }

  lemma HiddenMode(c: Config, u: User, u': User, v: Env, ch: Id)
    requires IsChoice(c, ch) && JustifiedAt(c, u, v, ch) && TotalAt(c, v, ch)
    requires (forall m :: !Moded(c, v, ch, m)) && u' == User(None, None)
    ensures TriValue(ch, c, u', View(v, Readable(c, ch))) == Some(v.tri[ch]) <==> Recoverable(c, v, ch)
  {
    hide Readable, Visibility, Selection, Assignable, StrValue, Moded, TypeOf;
    assert View(v, Readable(c, ch)).Vis(ch) == Some(v.vis[ch]);
  }

  /** The selected symbol of a choice is its y symbol, and the other way around. */
  lemma SelectedIsPicked(c: Config, us: Users, v: Env, ch: Id, x: Id)
    requires WellFormed(c) && ValidUsers(c, us) && Saveable(c) && IsChoice(c, ch)
    requires Total(c, v) && Justified(c, us, v) && ch in v.sel && v.sel[ch] == Some(x)
    ensures Picked(c, v, ch, x) && x in Readable(c, ch) && x in v.vis && v.vis[x] != 0
    ensures ch in v.tri && v.tri[ch].0 == 2
  {
    hide WellFormed, ValidUsers, Justified, Total, Saveable, Readable, Picked;
    SelectedIsVisible(c, us, v, ch, x);
    SelectedIsY(c, us, v, ch, x);
  }

  lemma SelectedIsVisible(c: Config, us: Users, v: Env, ch: Id, x: Id)
    requires WellFormed(c) && ValidUsers(c, us) && IsChoice(c, ch)
    requires Total(c, v) && Justified(c, us, v) && ch in v.sel && v.sel[ch] == Some(x)
    ensures x < |c.items| && c.items[x].Symbol? && c.items[x].choice == Some(ch) && x in Readable(c, ch)
    ensures x in v.vis && v.vis[x] != 0 && ch in v.tri && v.tri[ch].0 == 2
  {
    assert WellFormedItem(c, ch) && ValidSelection(c, ch, us[ch]);
    assert JustifiedAt(c, UserOf(us, ch), v, ch) && TotalAt(c, v, ch);
    hide WellFormed, Visibility, TriValue, StrValue, Assignable, Selection, Justified, Total;
    SelectionIsVisible(c, us[ch], View(v, Readable(c, ch)), ch);
  }

  lemma SelectedIsY(c: Config, us: Users, v: Env, ch: Id, x: Id)
    requires WellFormed(c) && ValidUsers(c, us) && Saveable(c) && IsChoice(c, ch)
    requires Total(c, v) && Justified(c, us, v) && ch in v.sel && v.sel[ch] == Some(x)
    requires x < |c.items| && c.items[x].Symbol? && c.items[x].choice == Some(ch)
    requires x in v.vis && v.vis[x] != 0 && ch in v.tri && v.tri[ch].0 == 2
    ensures Picked(c, v, ch, x)
  {
    SaveableMember(c, ch, x);
    SaveableAt(c, x);
    SaveableAt(c, ch);
    assert WellFormedItem(c, x) && JustifiedAt(c, UserOf(us, x), v, x) && TotalAt(c, v, x);
    hide WellFormed, ValidUsers, JustifiedAt, Saveable, Justified, WellFormedItem;
    assert TotalAt(c, v, ch);
    MemberVisibility(c, us, v, ch, x);
    MemberValue(c, us, v, ch, x);
    SymbolFacts(c, UserOf(us, x), v, x);
  }

  /** The selected symbol is y, so it is selected again; without one the defaults decide, as before. */
  lemma SelectionFixpoint(c: Config, us: Users, u': User, v: Env, ch: Id)
    requires WellFormed(c) && ValidUsers(c, us) && Saveable(c) && IsChoice(c, ch)
    requires Total(c, v) && Justified(c, us, v) && UserMatches(c, v, u', ch) && ch in v.sel
    ensures Selection(ch, c, u', View(v, Readable(c, ch))) == Some(v.sel[ch])
  {
    hide WellFormed, ValidUsers, Visibility, TriValue, StrValue, Assignable, Readable, SelectionFromDefaults, Moded, Saveable;
    assert TotalAt(c, v, ch);
    assert JustifiedAt(c, UserOf(us, ch), v, ch);
    if v.sel[ch].Some? {
      SelectedIsPicked(c, us, v, ch, v.sel[ch].value);
    } else if v.tri[ch].0 == 2 {
      forall m ensures !Moded(c, v, ch, m) {
        if Moded(c, v, ch, m) {
          ModeOfMember(c, us, v, ch, m);
        }
      }
    }
  }

  /** The saved values of an item obey its rules under the reloaded settings exactly if they are recoverable. */
  lemma ItemExact(c: Config, us: Users, u': User, v: Env, i: Id)
    requires WellFormed(c) && ValidUsers(c, us) && Saveable(c) && i < |c.items|
    requires Total(c, v) && Justified(c, us, v) && UserMatches(c, v, u', i)
    ensures JustifiedAt(c, u', v, i) <==> Recoverable(c, v, i)
  {
    hide WellFormed, Visibility, TriValue, StrValue, Assignable, Selection, Readable, Moded, UserMatches, Recoverable;
    assert TotalAt(c, v, i);
    assert JustifiedAt(c, UserOf(us, i), v, i);
    SaveableAt(c, i);
    var w := View(v, Readable(c, i));
    if !Live(c, i) {
      UndefinedConstant(c, us[i], u', w, i);
      UndefinedRecoverable(c, v, i);
    } else if c.items[i].Choice? {
      ModeExact(c, us, u', v, i);
      SelectionFixpoint(c, us, u', v, i);
      ChoiceStr(c, us[i], u', w, i);
    } else if IsBoolTri(c.items[i].typ) {
      TriExact(c, us[i], u', v, i);
      BoolTriStr(c, us[i], u', w, i);
    } else {
      assert ValidValue(c, i, us[i]);
      StrExact(c, us[i], u', v, i);
      NonBoolTri(c, us[i], u', w, i);
    }
  }

  lemma UndefinedRecoverable(c: Config, v: Env, i: Id)
    requires WellFormed(c) && i < |c.items| && !Live(c, i) && TotalAt(c, v, i)
    ensures Recoverable(c, v, i)
  {
    assert WellFormedItem(c, i);
  }

  lemma BoolTriStr(c: Config, u: User, u': User, w: View, i: Id)
    requires i < |c.items| && IsBoolTri(c.items[i].typ)
    ensures StrValue(i, c, u, w) == StrValue(i, c, u', w)
  {}

  lemma UndefinedConstant(c: Config, u: User, u': User, w: View, i: Id)
    requires WellFormed(c) && i < |c.items| && !Live(c, i)
    ensures TriValue(i, c, u, w) == TriValue(i, c, u', w) && StrValue(i, c, u, w) == StrValue(i, c, u', w)
    ensures c.items[i].Symbol?
  {
    assert WellFormedItem(c, i);
  }

  lemma ChoiceStr(c: Config, u: User, u': User, w: View, i: Id)
    requires IsChoice(c, i)
    ensures StrValue(i, c, u, w) == StrValue(i, c, u', w)
  {}

  lemma NonBoolTri(c: Config, u: User, u': User, w: View, i: Id)
    requires i < |c.items| && c.items[i].Symbol? && !IsBoolTri(c.items[i].typ)
    ensures TriValue(i, c, u, w) == TriValue(i, c, u', w)
  {}

  // ---------------------------------------------------------------------
  // The theorem
  // ---------------------------------------------------------------------

  lemma WithinBoth(v: Env, w: Env)
    requires Within(v, w) && Within(w, v)
    ensures v == w
  {
    hide Within;
    assert forall i: Id :: WithinAt(v, w, i) && WithinAt(w, v, i) by { WithinEvery(v, w); WithinEvery(w, v); }
    assert v.vis.Keys == w.vis.Keys by { forall i: Id ensures i in v.vis <==> i in w.vis { assert WithinAt(v, w, i); } }
    assert v.tri.Keys == w.tri.Keys by { forall i: Id ensures i in v.tri <==> i in w.tri { assert WithinAt(v, w, i); } }
    assert v.str.Keys == w.str.Keys by { forall i: Id ensures i in v.str <==> i in w.str { assert WithinAt(v, w, i); } }
    assert v.sel.Keys == w.sel.Keys by { forall i: Id ensures i in v.sel <==> i in w.sel { assert WithinAt(v, w, i); } }
    assert v.asg.Keys == w.asg.Keys by { forall i: Id ensures i in v.asg <==> i in w.asg { assert WithinAt(v, w, i); } }
    forall i: Id ensures i in v.vis ==> v.vis[i] == w.vis[i]
                 ensures i in v.tri ==> v.tri[i] == w.tri[i]
                 ensures i in v.str ==> v.str[i] == w.str[i]
                 ensures i in v.sel ==> v.sel[i] == w.sel[i]
                 ensures i in v.asg ==> v.asg[i] == w.asg[i]
    {
      assert WithinAt(v, w, i);
    }
    assert v.vis == w.vis;
    assert v.tri == w.tri;
    assert v.str == w.str;
    assert v.sel == w.sel;
    assert v.asg == w.asg;
  }

  lemma WithinEvery(v: Env, w: Env)
    requires Within(v, w)
    ensures forall i: Id :: WithinAt(v, w, i)
  {}

  /** Two total justified assignments are the same. */
  lemma SolutionsEqual(c: Config, us: Users, v: Env)
    requires WellFormed(c) && ValidUsers(c, us) && Total(c, v) && Justified(c, us, v)
    ensures v == Values(c, us)
  {
    hide WellFormed, ValidUsers, JustifiedAt, Values, Total;
    ValuesExistUniquely(c, us);
    var w := Values(c, us);
    JustifiedWithin(c, us, w, v);
    WithinBoth(v, w);
  }

  /**
  Saving the values of a configuration and loading the file, from any settings
  at all, gives every item all of its values again, write flags and choice
  selections included, exactly if every item is recoverable.
  */
  lemma SaveLoadExact(c: Config, names: Names, us: Users, layout: seq<Entry>, s0: UserState)
    requires WellFormed(c) && ValidUsers(c, us) && ValidState(c, s0) && NamesOk(c, names)
    requires Saveable(c) && CleanValues(c, Values(c, us)) && LayoutOk(c, layout)
    ensures var text := Join(SaveLines(c, Values(c, us), layout, {}));
            Values(c, Load(c, names, s0, text, true).us) == Values(c, us) <==>
            forall i: Id :: i < |c.items| ==> Recoverable(c, Values(c, us), i)
  {
    hide WellFormed, ValidUsers, JustifiedAt, Values, Total, SaveLines, Load, Recoverable, Join, UserMatches;
    var v := Values(c, us);
    ValuesExistUniquely(c, us);
    var r := Load(c, names, s0, Join(SaveLines(c, v, layout, {})), true).us;
    LoadedSettings(c, names, us, layout, s0);
    forall i: Id ensures JustifiedAt(c, UserOf(r, i), v, i) <==> i < |c.items| ==> Recoverable(c, v, i) {
      if i < |c.items| {
        ItemExact(c, us, r[i], v, i);
      } else {
        assert JustifiedAt(c, UserOf(us, i), v, i);
        NoSuchItem(c, UserOf(us, i), UserOf(r, i), v, i);
      }
    }
    if forall i: Id :: i < |c.items| ==> Recoverable(c, v, i) {
      SolutionsEqual(c, r, v);
    } else if Values(c, r) == v {
      ValuesExistUniquely(c, r);
    }
  }

  /** The settings the load leaves behind. */
  lemma LoadedSettings(c: Config, names: Names, us: Users, layout: seq<Entry>, s0: UserState)
    requires WellFormed(c) && ValidUsers(c, us) && ValidState(c, s0) && NamesOk(c, names)
    requires Saveable(c) && CleanValues(c, Values(c, us)) && LayoutOk(c, layout)
    ensures var v := Values(c, us);
      var r := Load(c, names, s0, Join(SaveLines(c, v, layout, {})), true).us;
      |r| == |c.items| && ValidUsers(c, r) && forall i: Id :: i < |c.items| ==> UserMatches(c, v, r[i], i)
  {
    hide WellFormed, ValidUsers, JustifiedAt, Values, Total, LoadLines, SaveLines, SaveableItem, UserMatches;
    var v := Values(c, us);
    ValuesExistUniquely(c, us);
    ValuesReady(c, us, v);
    var lines := SaveLines(c, v, layout, {});
    LinesAreClean(c, v, layout, {});
    JoinRoundTrip(lines);
    var start := Untouched(c, s0);
    StartLoaded(c, v, s0);
    LoadLayout(c, names, v, start, layout, {});
    var s := LoadLines(c, names, start, lines);
    ValidLength(c, s);
    forall m: Id | Live(c, m) && c.items[m].Symbol? ensures m in {} + Syms(layout) {
      SymsComplete(layout, m);
    }
    forall i: Id | i < |c.items| ensures UserMatches(c, v, ResetUser(c, s, i), i) {
      ResetMatches(c, v, s, {} + Syms(layout), i);
    }
  }

  /** Without tristates, optional choices and symbols from the environment. */
  predicate PlainItem(d: Def) {
    !d.typ.Tristate? && (if d.Symbol? then !d.special else !d.optional)
  }

  /** Plain configurations always come back. */
  lemma SaveLoadFixpoint(c: Config, names: Names, us: Users, layout: seq<Entry>, s0: UserState)
    requires WellFormed(c) && ValidUsers(c, us) && ValidState(c, s0) && NamesOk(c, names)
    requires Saveable(c) && CleanValues(c, Values(c, us)) && LayoutOk(c, layout)
    requires forall i :: 0 <= i < |c.items| ==> PlainItem(c.items[i])
    ensures var text := Join(SaveLines(c, Values(c, us), layout, {}));
            Values(c, Load(c, names, s0, text, true).us) == Values(c, us)
  {
    hide WellFormed, ValidUsers, Values, Join, SaveLines, Load, Saveable, Recoverable, LayoutOk, CleanValues, NamesOk, PlainItem;
    SaveLoadExact(c, names, us, layout, s0);
    forall i: Id | i < |c.items| ensures Recoverable(c, Values(c, us), i) {
      PlainRecoverable(c, us, i);
    }
  }

  lemma PlainRecoverable(c: Config, us: Users, i: Id)
    requires WellFormed(c) && ValidUsers(c, us) && Saveable(c) && i < |c.items| && PlainItem(c.items[i])
    ensures Recoverable(c, Values(c, us), i)
  {
    SaveableAt(c, i);
    hide WellFormed, ValidUsers, Values, Saveable;
    ValuesExistUniquely(c, us);
    var v := Values(c, us);
    assert TotalAt(c, v, i) && JustifiedAt(c, UserOf(us, i), v, i);
    BoolVisibility(c, UserOf(us, i), v, i);
    hide JustifiedAt, ExprValue, StrValue, Readable, TypeOf;
    if c.items[i].Choice? {
      PlainChoiceBack(c, UserOf(us, i), v, i);
    }
  }

  lemma PlainChoiceBack(c: Config, u: User, v: Env, i: Id)
    requires IsChoice(c, i) && c.items[i].typ.Bool? && !c.items[i].optional && JustifiedAt(c, u, v, i) && TotalAt(c, v, i)
    requires v.vis[i] != 1
    ensures Recoverable(c, v, i)
  {
    BoolMode(c, u, v, i);
    hide JustifiedAt, Readable, TypeOf, Moded;
  }

  lemma BoolMode(c: Config, u: User, v: Env, ch: Id)
    requires IsChoice(c, ch) && c.items[ch].typ.Bool? && !c.items[ch].optional && JustifiedAt(c, u, v, ch) && TotalAt(c, v, ch)
    requires v.vis[ch] != 1
    ensures v.vis[ch] != 0 ==> v.tri[ch].0 == 2
    ensures TypeOf(ch, c, View(v, Readable(c, ch))) == Some(Bool)
  {
    hide Readable, Visibility, Selection, Assignable, StrValue;
  }

  lemma NoSuchItem(c: Config, u: User, u': User, v: Env, i: Id)
    requires i >= |c.items| && JustifiedAt(c, u, v, i)
    ensures JustifiedAt(c, u', v, i)
  {}

  lemma StartLoaded(c: Config, v: Env, s: UserState)
    requires ValidState(c, s)
    ensures ValidState(c, Untouched(c, s)) && Loaded(c, v, Untouched(c, s), {})
  {
    hide ValidUsers, Picked, Accepted, Wanted;
  }

  lemma {:induction false} LinesAreClean(c: Config, v: Env, layout: seq<Entry>, visited: set<Id>)
    requires Ready(c, v) && forall k :: 0 <= k < |layout| ==> EntryOk(c, layout[k])
    ensures AllBreakFree(SaveLines(c, v, layout, visited))
    decreases |layout|
  {
    hide OneMode, SymbolLine, BreakFree;
    if layout != [] {
      var rest := layout[1..];
      assert EntryOk(c, layout[0]);
      match layout[0]
      case Text(ls) =>
        LinesAreClean(c, v, rest, visited);
        forall k | 0 <= k < |ls| ensures BreakFree(ls[k]) {
          assert Inert(ls[k]);
        }
        CleanConcat(ls, SaveLines(c, v, rest, visited));
      case Sym(i) =>
        LinesAreClean(c, v, rest, visited);
        LinesAreClean(c, v, rest, visited + {i});
        if SymbolLine(c, v, i).Some? {
          LineIsClean(c, v, i);
        }
        CleanConcat(SymbolLines(c, v, i), SaveLines(c, v, rest, visited + {i}));
    }
  }

  lemma CleanConcat(a: seq<string>, b: seq<string>)
    requires AllBreakFree(a) && AllBreakFree(b)
    ensures AllBreakFree(a + b)
  {
    hide BreakFree;
  }
}
