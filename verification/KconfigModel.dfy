/**
The configuration model of the vendored Kconfiglib: symbols, choices, their
properties, and the rules that give them values.

Every rule is written once, as a function over a `View`: a partial assignment
of values to items together with the set of items the rule may consult. A rule
yields `None` as soon as it needs a value the view does not have, so
`Some(v)` says both what the value is and that every item actually read
(short-circuits included) was available. The caching evaluator and the
cache-free semantics are both explained by these rules.
*/
module KconfigModel {
  import opened Options

  type Id = nat

  /** n, m, y */
  type Tri = t: nat | t <= 2

  datatype Type = Unknown | Bool | Tristate | String | Int | Hex

  /** A symbol or choice, or a quoted (constant) symbol. */
  datatype Operand = Item(id: Id) | Const(typ: Type, tri: Tri, str: string)

  datatype Relation = Equal | Unequal | Less | LessEqual | Greater | GreaterEqual

  datatype Expr =
    | Val(operand: Operand)
    | And(left: Expr, right: Expr)
    | Or(left: Expr, right: Expr)
    | Not(arg: Expr)
    | Compare(rel: Relation, a: Operand, b: Operand)

  const Y: Expr := Val(Operand.Const(Tristate, 2, "y"))
  const N: Expr := Val(Operand.Const(Tristate, 0, "n"))

  datatype Default = Default(value: Expr, cond: Expr)

  datatype Range = Range(low: Operand, high: Operand, cond: Expr)

  datatype ChoiceDefault = ChoiceDefault(sym: Id, cond: Expr)

  /**
  What the parser left on an item. `prompts` holds the prompt conditions of the
  menu nodes that have one; `special` marks symbols set from the environment and
  the defconfig_list symbol, which are never written out.
  */
  datatype Def =
    | Symbol(name: string, typ: Type, prompts: seq<Expr>, defaults: seq<Default>,
             ranges: seq<Range>, revDep: Expr, weakRevDep: Expr, directDep: Expr,
             choice: Option<Id>, defined: bool, special: bool)
    | Choice(typ: Type, prompts: seq<Expr>, choiceDefaults: seq<ChoiceDefault>,
             syms: seq<Id>, optional: bool)

  /** Library code: int(s, base), the three-way string comparison, and str()/hex(). */
  datatype Lib = Lib(parseInt: (string, nat) -> Option<int>,
                     strcmp: (string, string) -> int,
                     render: (int, nat) -> string)

  /** When each kind of value of an item is due: visibility, value or mode, selection, string, assignable values. */
  datatype Levels = Levels(vis: nat, tri: nat, sel: nat, str: nat, asg: nat)

  /** `levels` is an evaluation order: every value only looks at values of lower level. */
  datatype Config = Config(items: seq<Def>, modules: Id, lib: Lib, levels: seq<Levels>)

  datatype UserValue = UTri(tri: Tri) | UStr(str: string)

  /** What the user has set: a value or mode, and for choices the selected symbol. */
  datatype User = User(value: Option<UserValue>, selection: Option<Id>)

  /** Values known so far. The booleans of `tri` and `str` are the "write to .config" flags. */
  datatype Env = Env(vis: map<Id, Tri>, tri: map<Id, (Tri, bool)>, str: map<Id, (string, bool)>,
                     sel: map<Id, Option<Id>>, asg: map<Id, seq<Tri>>)

  datatype View = View(env: Env, readable: set<Id>) {
    function Vis(i: Id): Option<Tri> {
      if i in readable && i in env.vis then Some(env.vis[i]) else None
    }

    function Tri(o: Operand): Option<Tri> {
      match o
      case Const(_, t, _) => Some(t)
      case Item(i) => if i in readable && i in env.tri then Some(env.tri[i].0) else None
    }

    function Str(o: Operand): Option<string> {
      match o
      case Const(_, _, s) => Some(s)
      case Item(i) => if i in readable && i in env.str then Some(env.str[i].0) else None
    }

    function Sel(i: Id): Option<Option<Id>> {
      if i in readable && i in env.sel then Some(env.sel[i]) else None
    }
  }

  predicate IsBoolTri(t: Type) {
    t.Bool? || t.Tristate?
  }

  function Base(t: Type): nat {
    match t
    case Hex => 16
    case Int => 10
    case _ => 0
  }

  function Min(a: Tri, b: Tri): Tri {
    if a <= b then a else b
  }

  function Max(a: Tri, b: Tri): Tri {
    if a <= b then b else a
  }

  function TriToStr(t: Tri): string {
    if t == 0 then "n" else if t == 1 then "m" else "y"
  }

  function StrToTri(s: string): Option<Tri> {
    if s == "n" then Some(0) else if s == "m" then Some(1) else if s == "y" then Some(2) else None
  }

  function UserTri(u: User): Option<Tri> {
    if u.value.Some? && u.value.value.UTri? then Some(u.value.value.tri) else None
  }

  function UserStr(u: User): Option<string> {
    if u.value.Some? && u.value.value.UStr? then Some(u.value.value.str) else None
  }

  /** Set_value() accepts a value when this holds for the type of the item. */
  predicate ValidFor(lib: Lib, t: Type, v: UserValue) {
    match t
    case Bool => v == UTri(2) || v == UTri(0)
    case Tristate => v.UTri?
    case String => v.UStr?
    case Int => v.UStr? && lib.parseInt(v.str, 10).Some?
    case Hex => v.UStr? && lib.parseInt(v.str, 16).Some? && lib.parseInt(v.str, 16).value >= 0
    case Unknown => false
  }

  // ---------------------------------------------------------------------
  // Expressions
  // ---------------------------------------------------------------------

  function OrigType(c: Config, o: Operand): Type {
    match o
    case Const(t, _, _) => t
    case Item(i) => if i < |c.items| then c.items[i].typ else Unknown
  }

  predicate Holds(rel: Relation, comp: int) {
    match rel
    case Equal => comp == 0
    case Unequal => comp != 0
    case Less => comp < 0
    case LessEqual => comp <= 0
    case Greater => comp > 0
    case GreaterEqual => comp >= 0
  }

  /** The inner option is None when the operand does not parse as a number. */
  function SymToNum(o: Operand, c: Config, v: View): Option<Option<int>> {
    if IsBoolTri(OrigType(c, o)) then
      var t :- v.Tri(o);
      Some(Some(t))
    else
      var s :- v.Str(o);
      Some(c.lib.parseInt(s, Base(OrigType(c, o))))
  }

  function CompareAsStrings(a: Operand, b: Operand, c: Config, v: View): Option<int> {
    var s1 :- v.Str(a);
    var s2 :- v.Str(b);
    Some(c.lib.strcmp(s1, s2))
  }

  function Comparison(a: Operand, b: Operand, c: Config, v: View): Option<int> {
    if OrigType(c, a).String? && OrigType(c, b).String? then
      CompareAsStrings(a, b, c, v)
    else
      var n1 :- SymToNum(a, c, v);
      if n1.None? then
        CompareAsStrings(a, b, c, v)
      else
        var n2 :- SymToNum(b, c, v);
        if n2.None? then CompareAsStrings(a, b, c, v) else Some(n1.value - n2.value)
  }

  /** expr_value(), with its short-circuits. */
  function ExprValue(e: Expr, c: Config, v: View): Option<Tri> {
    match e
    case Val(o) => v.Tri(o)
    case And(l, r) =>
      var v1 :- ExprValue(l, c, v);
      if v1 == 0 then Some(0) else
        var v2 :- ExprValue(r, c, v);
        Some(Min(v1, v2))
    case Or(l, r) =>
      var v1 :- ExprValue(l, c, v);
      if v1 == 2 then Some(2) else
        var v2 :- ExprValue(r, c, v);
        Some(Max(v1, v2))
    case Not(x) =>
      var v1 :- ExprValue(x, c, v);
      Some(2 - v1)
    case Compare(rel, a, b) =>
      var comp :- Comparison(a, b, c, v);
      Some(if Holds(rel, comp) then 2 else 0)
  }

  // ---------------------------------------------------------------------
  // Type, visibility and mode
  // ---------------------------------------------------------------------

  /** The `type` property: tristate turns into bool in a y-mode choice or without modules. */
  function TypeOf(i: Id, c: Config, v: View): Option<Type>
    requires i < |c.items|
  {
    var d := c.items[i];
    if !d.typ.Tristate? then Some(d.typ) else
      var inYChoice :- ChoiceIsY(d, v);
      if inYChoice then Some(Bool) else
        var m :- v.Tri(Item(c.modules));
        Some(if m == 0 then Bool else Tristate)
  }

  function ChoiceIsY(d: Def, v: View): Option<bool> {
    if d.Symbol? && d.choice.Some? then
      var t :- v.Tri(Item(d.choice.value));
      Some(t == 2)
    else
      Some(false)
  }

  /** The largest of the first `k` prompt conditions. */
  function PromptValue(prompts: seq<Expr>, k: nat, c: Config, v: View): Option<Tri>
    requires k <= |prompts|
  {
    if k == 0 then Some(0) else
      var m :- PromptValue(prompts, k - 1, c, v);
      var p :- ExprValue(prompts[k - 1], c, v);
      Some(Max(m, p))
  }

  /** Whether the choice mode hides a choice symbol whose prompts evaluate to `vis`. */
  function HiddenByChoice(d: Def, vis: Tri, c: Config, v: View): Option<bool> {
    if d.Symbol? && d.choice.Some? then
      var typ := OrigType(c, Item(d.choice.value));
      if typ.Tristate? && !d.typ.Tristate? then
        var t :- v.Tri(Item(d.choice.value));
        Some(t != 2)
      else if d.typ.Tristate? && vis == 1 then
        var t :- v.Tri(Item(d.choice.value));
        Some(t == 2)
      else
        Some(false)
    else
      Some(false)
  }

  function Promote(i: Id, vis: Tri, c: Config, v: View): Option<Tri>
    requires i < |c.items|
  {
    if vis != 1 then Some(vis) else
      var t :- TypeOf(i, c, v);
      Some(if t.Tristate? then 1 else 2)
  }

  /** _visibility(). Without a prompt that is not n the mode of the choice, which the program looks at all the same, plays no role. */
  function Visibility(i: Id, c: Config, v: View): Option<Tri>
    requires i < |c.items|
  {
    var d := c.items[i];
    var vis :- PromptValue(d.prompts, |d.prompts|, c, v);
    if vis == 0 then Some(0) else
      var hidden :- HiddenByChoice(d, vis, c, v);
      if hidden then Some(0) else Promote(i, vis, c, v)
  }

  /** Choice.tri_value, the mode. It is recomputed on every read. */
  function Mode(i: Id, c: Config, u: User, v: View): Option<Tri>
    requires i < |c.items| && c.items[i].Choice?
  {
    var floor: Tri := if c.items[i].optional then 0 else 1;
    var wanted := if UserTri(u).Some? then Max(floor, UserTri(u).value) else floor;
    var vis :- v.Vis(i);
    var val := Min(wanted, vis);
    if val != 1 then Some(val) else
      var t :- TypeOf(i, c, v);
      Some(if t.Bool? then 2 else 1)
  }

  // ---------------------------------------------------------------------
  // Choice selection
  // ---------------------------------------------------------------------

  /** The first default from index `k` on whose condition and symbol are visible. */
  function DefaultSelection(ds: seq<ChoiceDefault>, k: nat, c: Config, v: View): Option<Option<Id>>
    requires k <= |ds|
    decreases |ds| - k
  {
    if k == |ds| then Some(None) else
      var cond :- ExprValue(ds[k].cond, c, v);
      if cond == 0 then DefaultSelection(ds, k + 1, c, v) else
        var vis :- v.Vis(ds[k].sym);
        if vis == 0 then DefaultSelection(ds, k + 1, c, v) else Some(Some(ds[k].sym))
  }

  /** The first visible symbol from index `k` on. */
  function FirstVisible(syms: seq<Id>, k: nat, v: View): Option<Option<Id>>
    requires k <= |syms|
    decreases |syms| - k
  {
    if k == |syms| then Some(None) else
      var vis :- v.Vis(syms[k]);
      if vis == 0 then FirstVisible(syms, k + 1, v) else Some(Some(syms[k]))
  }

  /** _selection_from_defaults() */
  function SelectionFromDefaults(d: Def, c: Config, v: View): Option<Option<Id>>
    requires d.Choice?
  {
    var s :- DefaultSelection(d.choiceDefaults, 0, c, v);
    if s.Some? then Some(s) else FirstVisible(d.syms, 0, v)
  }

  /** Choice._selection() */
  function Selection(i: Id, c: Config, u: User, v: View): Option<Option<Id>>
    requires i < |c.items| && c.items[i].Choice?
  {
    var mode :- v.Tri(Item(i));
    if mode != 2 then Some(None)
    else if u.selection.Some? then
      var vis :- v.Vis(u.selection.value);
      if vis != 0 then Some(u.selection) else SelectionFromDefaults(c.items[i], c, v)
    else
      SelectionFromDefaults(c.items[i], c, v)
  }

  // ---------------------------------------------------------------------
  // Symbol values
  // ---------------------------------------------------------------------

  /** The first default from index `k` on whose condition is not n, with that condition's value. */
  function ActiveDefault(ds: seq<Default>, k: nat, c: Config, v: View): Option<Option<(Expr, Tri)>>
    requires k <= |ds|
    decreases |ds| - k
  {
    if k == |ds| then Some(None) else
      var cond :- ExprValue(ds[k].cond, c, v);
      if cond == 0 then ActiveDefault(ds, k + 1, c, v) else Some(Some((ds[k].value, cond)))
  }

  /** Value and write flag a bool or tristate symbol gets from its defaults. */
  function DefaultTri(d: Def, write: bool, c: Config, v: View): Option<(Tri, bool)>
    requires d.Symbol?
  {
    var active :- ActiveDefault(d.defaults, 0, c, v);
    if active.None? then Some((0, write)) else
      var x :- ExprValue(active.value.0, c, v);
      var val := Min(x, active.value.1);
      Some((val, write || val != 0))
  }

  /** Implies count only when the direct dependencies are met. */
  function WithImply(d: Def, base: (Tri, bool), c: Config, v: View): Option<(Tri, bool)>
    requires d.Symbol?
  {
    var weak :- ExprValue(d.weakRevDep, c, v);
    if weak == 0 then Some(base) else
      var direct :- ExprValue(d.directDep, c, v);
      Some(if direct == 0 then base else (Max(weak, base.0), true))
  }

  function WithSelect(d: Def, base: (Tri, bool), c: Config, v: View): Option<(Tri, bool)>
    requires d.Symbol?
  {
    var rev :- ExprValue(d.revDep, c, v);
    Some(if rev == 0 then base else (Max(rev, base.0), true))
  }

  /** m turns into y for bool symbols and for symbols implied to y. */
  function PromoteValue(i: Id, val: Tri, c: Config, v: View): Option<Tri>
    requires i < |c.items| && c.items[i].Symbol?
  {
    if val != 1 then Some(val) else
      var t :- TypeOf(i, c, v);
      if t.Bool? then Some(2) else
        var weak :- ExprValue(c.items[i].weakRevDep, c, v);
        Some(if weak == 2 then 2 else 1)
  }

  function BaseTri(d: Def, u: User, vis: Tri, c: Config, v: View): Option<(Tri, bool)>
    requires d.Symbol?
  {
    if vis != 0 && UserTri(u).Some? then
      Some((Min(UserTri(u).value, vis), true))
    else
      var base :- DefaultTri(d, vis != 0, c, v);
      WithImply(d, base, c, v)
  }

  /** Symbol.tri_value outside choices */
  function PlainTri(i: Id, c: Config, u: User, vis: Tri, v: View): Option<(Tri, bool)>
    requires i < |c.items| && c.items[i].Symbol?
  {
    var d := c.items[i];
    var base :- BaseTri(d, u, vis, c, v);
    var selected :- WithSelect(d, base, c, v);
    var val :- PromoteValue(i, selected.0, c, v);
    Some((val, selected.1))
  }

  /** Symbol.tri_value inside choices */
  function ChoiceSymbolTri(i: Id, choice: Id, u: User, vis: Tri, v: View): Option<(Tri, bool)> {
    if vis == 2 then
      var s :- v.Sel(choice);
      Some((if s == Some(i) then 2 else 0, true))
    else if vis != 0 && UserTri(u).Some? && UserTri(u).value != 0 then
      Some((1, true))
    else
      Some((0, vis != 0))
  }

  /** Symbol.tri_value and Choice.tri_value, with the write flag of bool and tristate symbols. */
  function TriValue(i: Id, c: Config, u: User, v: View): Option<(Tri, bool)>
    requires i < |c.items|
  {
    var d := c.items[i];
    if d.Choice? then
      var m :- Mode(i, c, u, v);
      Some((m, false))
    else if !IsBoolTri(d.typ) then
      Some((0, false))
    else
      var vis :- v.Vis(i);
      if d.choice.Some? then ChoiceSymbolTri(i, d.choice.value, u, vis, v)
      else PlainTri(i, c, u, vis, v)
  }

  /** The bounds of the first range from index `k` on whose condition is not n. */
  function ActiveRange(t: Type, rs: seq<Range>, k: nat, c: Config, v: View): Option<Option<(int, int)>>
    requires k <= |rs|
    decreases |rs| - k
  {
    if k == |rs| then Some(None) else
      var cond :- ExprValue(rs[k].cond, c, v);
      if cond == 0 then ActiveRange(t, rs, k + 1, c, v) else
        var low :- v.Str(rs[k].low);
        var high :- v.Str(rs[k].high);
        Some(Some((c.lib.parseInt(low, Base(t)).GetOr(0), c.lib.parseInt(high, Base(t)).GetOr(0))))
  }

  /** The string of the first active default; None when there is none. */
  function DefaultStr(d: Def, c: Config, v: View): Option<Option<string>>
    requires d.Symbol?
  {
    var active :- ActiveDefault(d.defaults, 0, c, v);
    if active.None? || !active.value.0.Val? then Some(None) else
      var s :- v.Str(active.value.0.operand);
      Some(Some(s))
  }

  predicate InRange(range: Option<(int, int)>, n: int) {
    range.Some? ==> range.value.0 <= n <= range.value.1
  }

  /** A number outside the range is replaced by the nearer bound; one inside keeps its spelling. */
  function Clamp(t: Type, range: Option<(int, int)>, s: string, lib: Lib): string {
    var n := if s == "" then 0 else lib.parseInt(s, Base(t)).GetOr(0);
    if range.None? then s
    else if n < range.value.0 then lib.render(range.value.0, Base(t))
    else if n > range.value.1 then lib.render(range.value.1, Base(t))
    else s
  }

  /** str_value of int and hex symbols */
  function NumberStr(d: Def, c: Config, u: User, vis: Tri, v: View): Option<(string, bool)>
    requires d.Symbol?
  {
    var range :- ActiveRange(d.typ, d.ranges, 0, c, v);
    var user := if vis != 0 then UserStr(u).GetOr("") else "";
    if user != "" && InRange(range, c.lib.parseInt(user, Base(d.typ)).GetOr(0)) then
      Some((user, true))
    else
      var default :- DefaultStr(d, c, v);
      Some((Clamp(d.typ, range, default.GetOr(""), c.lib), vis != 0 || default.Some?))
  }

  /** str_value of string symbols */
  function TextStr(d: Def, c: Config, u: User, vis: Tri, v: View): Option<(string, bool)>
    requires d.Symbol?
  {
    if vis != 0 && UserStr(u).Some? then
      Some((UserStr(u).value, true))
    else
      var default :- DefaultStr(d, c, v);
      Some((default.GetOr(""), vis != 0 || default.Some?))
  }

  /** Symbol.str_value, with the write flag of string, int and hex symbols. */
  function StrValue(i: Id, c: Config, u: User, v: View): Option<(string, bool)>
    requires i < |c.items|
  {
    var d := c.items[i];
    if d.Choice? || IsBoolTri(d.typ) then
      var t :- v.Tri(Item(i));
      Some((TriToStr(t), false))
    else if d.typ.Unknown? then
      Some((d.name, false))
    else
      var vis :- v.Vis(i);
      var s :- if d.typ.String? then TextStr(d, c, u, vis, v) else NumberStr(d, c, u, vis, v);
      Some((s.0, s.1 && !d.special))
  }

  // ---------------------------------------------------------------------
  // Assignable values
  // ---------------------------------------------------------------------

  /** Whether m is ruled out for a symbol that is not forced to y. */
  function NoM(i: Id, c: Config, v: View): Option<bool>
    requires i < |c.items| && c.items[i].Symbol?
  {
    var t :- TypeOf(i, c, v);
    if t.Bool? then Some(true) else
      var weak :- ExprValue(c.items[i].weakRevDep, c, v);
      Some(weak == 2)
  }

  function SymbolAssignable(i: Id, c: Config, v: View): Option<seq<Tri>>
    requires i < |c.items| && c.items[i].Symbol?
  {
    var d := c.items[i];
    if !IsBoolTri(d.typ) then Some([]) else
      var vis :- v.Vis(i);
      if vis == 0 then Some([]) else
        var rev :- ExprValue(d.revDep, c, v);
        if vis == 2 then
          if d.choice.Some? || rev == 2 then Some([2]) else
            var noM :- NoM(i, c, v);
            Some(if rev == 0 then (if noM then [0, 2] else [0, 1, 2])
                 else if noM then [2] else [1, 2])
        else if rev == 0 then
          var weak :- ExprValue(d.weakRevDep, c, v);
          Some(if weak != 2 then [0, 1] else [0, 2])
        else
          Some(if rev == 2 then [2] else [1])
  }

  function ChoiceAssignable(i: Id, c: Config, v: View): Option<seq<Tri>>
    requires i < |c.items| && c.items[i].Choice?
  {
    var optional := c.items[i].optional;
    var vis :- v.Vis(i);
    if vis == 0 then Some([])
    else if vis == 2 then
      var t :- TypeOf(i, c, v);
      Some(if !optional then (if t.Bool? then [2] else [1, 2])
           else if t.Bool? then [0, 2] else [0, 1, 2])
    else
      Some(if optional then [0, 1] else [1])
  }

  function Assignable(i: Id, c: Config, v: View): Option<seq<Tri>>
    requires i < |c.items|
  {
    if c.items[i].Symbol? then SymbolAssignable(i, c, v) else ChoiceAssignable(i, c, v)
  }

  // ---------------------------------------------------------------------
  // Dependencies
  // ---------------------------------------------------------------------

  function OperandItems(o: Operand): set<Id> {
    match o
    case Item(i) => {i}
    case Const(_, _, _) => {}
  }

  function ExprItems(e: Expr): set<Id> {
    match e
    case Val(o) => OperandItems(o)
    case And(l, r) => ExprItems(l) + ExprItems(r)
    case Or(l, r) => ExprItems(l) + ExprItems(r)
    case Not(x) => ExprItems(x)
    case Compare(_, a, b) => OperandItems(a) + OperandItems(b)
  }

  function ExprsItems(es: seq<Expr>): set<Id> {
    set k, i | 0 <= k < |es| && i in ExprItems(es[k]) :: i
  }

  function DefaultsItems(ds: seq<Default>): set<Id> {
    set k, i | 0 <= k < |ds| && i in ExprItems(ds[k].value) + ExprItems(ds[k].cond) :: i
  }

  function RangesItems(rs: seq<Range>): set<Id> {
    set k, i | 0 <= k < |rs| && i in OperandItems(rs[k].low) + OperandItems(rs[k].high) + ExprItems(rs[k].cond) :: i
  }

  function ChoiceDefaultsItems(ds: seq<ChoiceDefault>): set<Id> {
    set k, i | 0 <= k < |ds| && i in ExprItems(ds[k].cond) :: i
  }

  /** The items whose `_dependents` _build_dep() adds `d` to. */
  function PropertyItems(d: Def): set<Id> {
    match d
    case Symbol(_, _, prompts, defaults, ranges, rev, weak, direct, _, _, _) =>
      ExprsItems(prompts) + DefaultsItems(defaults) + RangesItems(ranges) +
      ExprItems(rev) + ExprItems(weak) + ExprItems(direct)
    case Choice(_, prompts, ds, _, _) =>
      ExprsItems(prompts) + ChoiceDefaultsItems(ds)
  }

  /** The same after _add_choice_deps(). */
  function Sources(d: Def): set<Id> {
    PropertyItems(d) + if d.Choice? then set s | s in d.syms else {}
  }

  /** Items _build_dep() visits: defined symbols and choices. */
  predicate Live(c: Config, i: Id) {
    i < |c.items| && (c.items[i].Symbol? ==> c.items[i].defined)
  }

  /** `_dependents` of item `i`. */
  function Dependents(c: Config, i: Id): set<Id> {
    set d | 0 <= d < |c.items| && Live(c, d) && i in Sources(c.items[d])
  }

  /** What the rules for item `i` may consult: itself, its sources, and MODULES. */
  function Readable(c: Config, i: Id): set<Id>
    requires i < |c.items|
  {
    {i, c.modules} + Sources(c.items[i])
  }
}
