/**
Writing the configuration to a .config file and loading it back.
*/
module KconfigFile {
  import opened ConfigText
  import opened KconfigModel
  import opened KconfigSemantics
  import opened KconfigSettings
  import opened Options

  // ---------------------------------------------------------------------
  // Writing
  // ---------------------------------------------------------------------

  /** What is written while walking the menu tree: a symbol's entry, or comment lines. */
  datatype Entry = Sym(id: Id) | Text(lines: seq<string>)

  /** Symbol.config_string without its newline; None for symbols that are not written. */
  function ConfigLine(d: Def, tri: (Tri, bool), str: (string, bool)): Option<string>
    requires d.Symbol?
  {
    if IsBoolTri(d.typ) then
      if !tri.1 then None
      else if str.0 == "n" then Some(UnsetLine(d.name))
      else Some(SetLine(d.name, str.0))
    else if d.typ.Unknown? || !str.1 then None
    else if d.typ.String? then Some(SetLine(d.name, "\"" + Escape(str.0) + "\""))
    else Some(SetLine(d.name, str.0))
  }

  function SymbolLine(c: Config, v: Env, i: Id): Option<string> {
    if i < |c.items| && c.items[i].Symbol? && i in v.tri && i in v.str
    then ConfigLine(c.items[i], v.tri[i], v.str[i])
    else None
  }

  function SymbolLines(c: Config, v: Env, i: Id): seq<string> {
    match SymbolLine(c, v, i)
    case Some(l) => [l]
    case None => []
  }

  /** The lines _config_contents() writes; a symbol is written at its first entry. */
  function SaveLines(c: Config, v: Env, layout: seq<Entry>, visited: set<Id>): seq<string> {
    if layout == [] then [] else
      match layout[0]
      case Text(ls) => ls + SaveLines(c, v, layout[1..], visited)
      case Sym(i) =>
        if i in visited then SaveLines(c, v, layout[1..], visited)
        else SymbolLines(c, v, i) + SaveLines(c, v, layout[1..], visited + {i})
  }

  // ---------------------------------------------------------------------
  // Loading
  // ---------------------------------------------------------------------

  type Names = map<string, Id>

  /** The symbol table: every symbol under its name. */
  ghost predicate NamesOk(c: Config, names: Names) {
    && (forall n :: n in names ==> names[n] < |c.items| && c.items[names[n]].Symbol? && c.items[names[n]].name == n)
    && (forall i :: 0 <= i < |c.items| && c.items[i].Symbol? ==> c.items[i].name in names && names[c.items[i].name] == i)
  }

  /** The defined symbol of that name. */
  function Lookup(c: Config, names: Names, name: string): Option<Id> {
    if name in names && names[name] < |c.items| && c.items[names[name]].Symbol? && c.items[names[name]].defined
    then Some(names[name]) else None
  }

  /** Whether the first character of `val` is a value for the type. */
  predicate BoolText(t: Type, val: string) {
    val != "" && (val[0] == 'y' || val[0] == 'n' || (t.Tristate? && val[0] == 'm'))
  }

  /** Assigns one of "n", "m" and "y"; m and y also set the mode of the symbol's choice. */
  function AssignBool(c: Config, s: UserState, i: Id, val: string): (r: UserState)
    requires WellFormed(c) && ValidState(c, s) && i < |c.items| && c.items[i].Symbol?
    ensures ValidState(c, r)
  {
    var d := c.items[i];
    assert WellFormedItem(c, i);
    var s1 :=
      if d.choice.Some? && val != "n" then
        ChangesKeepValid(c, s, d.choice.value, UStr(val));
        SetChoice(c, s, d.choice.value, UStr(val)).0
      else s;
    ChangesKeepValid(c, s1, i, UStr(val));
    SetSymbol(c, s1, i, UStr(val)).0
  }

  function AssignText(c: Config, s: UserState, i: Id, val: string): (r: UserState)
    requires WellFormed(c) && ValidState(c, s) && i < |c.items| && c.items[i].Symbol?
    ensures ValidState(c, r)
  {
    ChangesKeepValid(c, s, i, UStr(val));
    SetSymbol(c, s, i, UStr(val)).0
  }

  /** Handles one line of the file in _load_config(). */
  function ApplyLine(c: Config, names: Names, s: UserState, line: string): (r: UserState)
    requires WellFormed(c) && ValidState(c, s)
    ensures ValidState(c, r)
  {
    var l := RStrip(line);
    match SetMatch(l)
    case Some((name, val)) =>
      (match Lookup(c, names, name)
       case None => s
       case Some(i) =>
         var d := c.items[i];
         if IsBoolTri(d.typ) then
           if BoolText(d.typ, val) then AssignBool(c, s, i, val[..1]) else s
         else if d.typ.String? then
           match QuotedContents(val)
           case None => s
           case Some(q) => AssignText(c, s, i, Unescape(q))
         else
           AssignText(c, s, i, val))
    case None =>
      match UnsetMatch(l)
      case None => s
      case Some(name) =>
        match Lookup(c, names, name)
        case None => s
        case Some(i) => if IsBoolTri(c.items[i].typ) then AssignText(c, s, i, "n") else s
  }

  function LoadLines(c: Config, names: Names, s: UserState, lines: seq<string>): (r: UserState)
    requires WellFormed(c) && ValidState(c, s)
    ensures ValidState(c, r)
    decreases |lines|
  {
    if lines == [] then s else LoadLines(c, names, ApplyLine(c, names, s, lines[0]), lines[1..])
  }

  /** The setting of item `i` after everything that was not assigned has been unset. */
  function ResetUser(c: Config, s: UserState, i: Id): User
    requires |s.us| == |c.items| && i < |c.items|
  {
    if !Live(c, i) || i in s.touched then s.us[i]
    else if c.items[i].Symbol? then User(None, s.us[i].selection)
    else User(None, None)
  }

  function Reset(c: Config, s: UserState): (r: UserState)
    requires ValidState(c, s)
    ensures ValidState(c, r)
  {
    UserState(seq(|c.items|, i requires 0 <= i < |c.items| => ResetUser(c, s, i)), s.touched)
  }

  /** The live items lose their `_was_set` flag. */
  function Untouched(c: Config, s: UserState): UserState {
    UserState(s.us, set i | i in s.touched && !Live(c, i))
  }

  /** _load_config(), replacing the current settings or adding to them */
  function Load(c: Config, names: Names, s: UserState, text: string, replace: bool): (r: UserState)
    requires WellFormed(c) && ValidState(c, s)
    ensures ValidState(c, r)
  {
    if replace then Reset(c, LoadLines(c, names, Untouched(c, s), Lines(text)))
    else LoadLines(c, names, s, Lines(text))
  }

  // ---------------------------------------------------------------------
  // Resetting step by step
  // ---------------------------------------------------------------------

  /** The reset, done only for the items in `done`. */
  function ResetSome(c: Config, s: UserState, done: set<Id>): UserState
    requires |s.us| == |c.items|
  {
    UserState(seq(|c.items|, i requires 0 <= i < |c.items| => if i in done then ResetUser(c, s, i) else s.us[i]), s.touched)
  }

  lemma ResetNone(c: Config, s: UserState)
    requires |s.us| == |c.items|
    ensures ResetSome(c, s, {}) == s
  {
    assert ResetSome(c, s, {}).us == s.us;
  }

  lemma ResetStep(c: Config, s: UserState, done: set<Id>, i: Id)
    requires |s.us| == |c.items| && i < |c.items| && i !in done
    ensures var r := ResetSome(c, s, done);
            ResetSome(c, s, done + {i}) ==
            if !Live(c, i) || i in s.touched then r
            else if c.items[i].Symbol? then UnsetSymbol(r, i)
            else UnsetChoice(r, i)
    ensures |ResetSome(c, s, done).us| == |c.items| && ResetSome(c, s, done).touched == s.touched
  {
    var r, t := ResetSome(c, s, done), ResetSome(c, s, done + {i});
    if !Live(c, i) || i in s.touched {
      assert t.us == r.us;
    } else if c.items[i].Symbol? {
      assert t.us == PutValue(r.us, i, None);
    } else {
      assert t.us == r.us[i := User(None, None)];
    }
  }

  lemma ResetAll(c: Config, s: UserState, done: set<Id>)
    requires ValidState(c, s) && forall i: Id :: i < |c.items| ==> i in done
    ensures ResetSome(c, s, done) == Reset(c, s)
  {
    assert ResetSome(c, s, done).us == Reset(c, s).us;
  }
}
