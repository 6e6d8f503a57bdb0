/**
The three-valued logic of conditions: what negation, conjunction, disjunction and
comparisons mean, for every expression and whatever is known.
*/
module KconfigLogic {
  import opened Options
  import opened KconfigModel

  // ---------------------------------------------------------------------
  // Negation, conjunction, disjunction
  // ---------------------------------------------------------------------

  /** Negation swaps n and y and keeps m. */
  lemma NotMeans(e: Expr, c: Config, v: View)
    ensures ExprValue(Not(e), c, v).None? <==> ExprValue(e, c, v).None?
    ensures ExprValue(Not(e), c, v) == Some(2) <==> ExprValue(e, c, v) == Some(0)
    ensures ExprValue(Not(e), c, v) == Some(1) <==> ExprValue(e, c, v) == Some(1)
    ensures ExprValue(Not(e), c, v) == Some(0) <==> ExprValue(e, c, v) == Some(2)
    ensures ExprValue(Not(Not(e)), c, v) == ExprValue(e, c, v)
  {}

  /** A conjunction is y where both sides are, n as soon as one is, and m otherwise; a disjunction the other way round. */
  lemma AndOrMean(a: Expr, b: Expr, c: Config, v: View)
    requires ExprValue(a, c, v).Some? && ExprValue(b, c, v).Some?
    ensures var x, y := ExprValue(a, c, v).value, ExprValue(b, c, v).value;
      && ExprValue(And(a, b), c, v) == Some(if x == 0 || y == 0 then 0 else if x == 2 && y == 2 then 2 else 1)
      && ExprValue(Or(a, b), c, v) == Some(if x == 2 || y == 2 then 2 else if x == 0 && y == 0 then 0 else 1)
  {}

  /** De Morgan's laws, short-circuits included. */
  lemma DeMorgan(a: Expr, b: Expr, c: Config, v: View)
    ensures ExprValue(Not(And(a, b)), c, v) == ExprValue(Or(Not(a), Not(b)), c, v)
    ensures ExprValue(Not(Or(a, b)), c, v) == ExprValue(And(Not(a), Not(b)), c, v)
  {}

  /** The expression with negations pushed down to items and comparisons. */
  function Pushed(e: Expr, negated: bool): Expr {
    match e
    case And(l, r) => if negated then Or(Pushed(l, true), Pushed(r, true)) else And(Pushed(l, false), Pushed(r, false))
    case Or(l, r) => if negated then And(Pushed(l, true), Pushed(r, true)) else Or(Pushed(l, false), Pushed(r, false))
    case Not(x) => Pushed(x, !negated)
    case _ => if negated then Not(e) else e
  }

  predicate NegatesAtoms(e: Expr) {
    match e
    case And(l, r) => NegatesAtoms(l) && NegatesAtoms(r)
    case Or(l, r) => NegatesAtoms(l) && NegatesAtoms(r)
    case Not(x) => x.Val? || x.Compare?
    case _ => true
  }

  /** Every condition has a form with negations at its atoms only, with the same value. */
  lemma {:induction false} NegationNormal(e: Expr, negated: bool, c: Config, v: View)
    ensures NegatesAtoms(Pushed(e, negated))
    ensures ExprValue(Pushed(e, negated), c, v) == ExprValue(if negated then Not(e) else e, c, v)
  {
    match e
    case And(l, r) =>
      NegationNormal(l, negated, c, v);
      NegationNormal(r, negated, c, v);
    case Or(l, r) =>
      NegationNormal(l, negated, c, v);
      NegationNormal(r, negated, c, v);
    case Not(x) =>
      NegationNormal(x, !negated, c, v);
      NotMeans(x, c, v);
    case _ =>
  }

  // ---------------------------------------------------------------------
  // Comparisons
  // ---------------------------------------------------------------------

  function Compared(rel: Relation, a: Operand, b: Operand, c: Config, v: View): Option<Tri> {
    ExprValue(Compare(rel, a, b), c, v)
  }

  /** One comparison is known exactly if all are; of less, equal and greater exactly one holds; the others are their negations. */
  lemma Trichotomy(a: Operand, b: Operand, c: Config, v: View, rel: Relation)
    requires Compared(rel, a, b, c, v).Some?
    ensures var lt, eq, gt := Compared(Less, a, b, c, v), Compared(Equal, a, b, c, v), Compared(Greater, a, b, c, v);
      || (lt, eq, gt) == (Some(2), Some(0), Some(0))
      || (lt, eq, gt) == (Some(0), Some(2), Some(0))
      || (lt, eq, gt) == (Some(0), Some(0), Some(2))
    ensures Compared(LessEqual, a, b, c, v) == ExprValue(Not(Compare(Greater, a, b)), c, v)
    ensures Compared(GreaterEqual, a, b, c, v) == ExprValue(Not(Compare(Less, a, b)), c, v)
    ensures Compared(Unequal, a, b, c, v) == ExprValue(Not(Compare(Equal, a, b)), c, v)
  {}

  /** Two different strings never compare equal, and swapping them turns the comparison round. */
  ghost predicate OrdersStrings(lib: Lib) {
    && (forall s, t :: lib.strcmp(s, t) == 0 <==> s == t)
    && (forall s, t :: lib.strcmp(s, t) < 0 <==> lib.strcmp(t, s) > 0)
  }

  function Mirrored(rel: Relation): Relation {
    match rel
    case Less => Greater
    case LessEqual => GreaterEqual
    case Greater => Less
    case GreaterEqual => LessEqual
    case _ => rel
  }

  /** The two sides of a comparison can be swapped. */
  lemma Swapped(rel: Relation, a: Operand, b: Operand, c: Config, v: View)
    requires OrdersStrings(c.lib) && Compared(rel, a, b, c, v).Some? && Compared(rel, b, a, c, v).Some?
    ensures Compared(rel, a, b, c, v) == Compared(Mirrored(rel), b, a, c, v)
  {
    if v.Str(a).Some? && v.Str(b).Some? {
      StringsSwapped(c.lib, v.Str(a).value, v.Str(b).value);
    }
  }

  lemma StringsSwapped(lib: Lib, s: string, t: string)
    requires OrdersStrings(lib)
    ensures lib.strcmp(s, t) < 0 <==> lib.strcmp(t, s) > 0
    ensures lib.strcmp(s, t) > 0 <==> lib.strcmp(t, s) < 0
    ensures lib.strcmp(s, t) == 0 <==> s == t
  {}

  /** How numbers stand to each other. */
  predicate Stands(rel: Relation, x: int, y: int) {
    match rel
    case Equal => x == y
    case Unequal => x != y
    case Less => x < y
    case LessEqual => x <= y
    case Greater => x > y
    case GreaterEqual => x >= y
  }

  function Truth(b: bool): Tri {
    if b then 2 else 0
  }

  /** What an operand counts as: n, m and y are 0, 1 and 2, an int is decimal, a hex hexadecimal, the rest says itself what it is. */
  function Numeral(o: Operand, c: Config, v: View): Option<int> {
    match OrigType(c, o)
    case Bool => if v.Tri(o).Some? then Some(v.Tri(o).value) else None
    case Tristate => if v.Tri(o).Some? then Some(v.Tri(o).value) else None
    case Int => if v.Str(o).Some? then c.lib.parseInt(v.Str(o).value, 10) else None
    case Hex => if v.Str(o).Some? then c.lib.parseInt(v.Str(o).value, 16) else None
    case _ => if v.Str(o).Some? then c.lib.parseInt(v.Str(o).value, 0) else None
  }

  /** Unless both are string symbols, two numerals compare as their numbers. */
  lemma NumeralsCompare(rel: Relation, a: Operand, b: Operand, c: Config, v: View)
    requires !(OrigType(c, a).String? && OrigType(c, b).String?)
    requires Numeral(a, c, v).Some? && Numeral(b, c, v).Some?
    ensures Compared(rel, a, b, c, v) == Some(Truth(Stands(rel, Numeral(a, c, v).value, Numeral(b, c, v).value)))
  {}

  /** Everything else compares as text. */
  lemma TextsCompare(rel: Relation, a: Operand, b: Operand, c: Config, v: View)
    requires (OrigType(c, a).String? && OrigType(c, b).String?) || Numeral(a, c, v).None? || Numeral(b, c, v).None?
    requires OrdersStrings(c.lib) && Compared(rel, a, b, c, v).Some?
    ensures v.Str(a).Some? && v.Str(b).Some?
    ensures var s, t := v.Str(a).value, v.Str(b).value;
      && (rel.Equal? ==> Compared(rel, a, b, c, v) == Some(Truth(s == t)))
      && (rel.Unequal? ==> Compared(rel, a, b, c, v) == Some(Truth(s != t)))
      && Compared(rel, a, b, c, v) == Some(Truth(Stands(rel, c.lib.strcmp(s, t), 0)))
  {}

  /** "X = y" is X where X is never m, and in general y exactly where X is y. */
  lemma EqualsConstant(x: Operand, t: Tri, c: Config, v: View)
    requires IsBoolTri(OrigType(c, x)) && v.Tri(x).Some?
    ensures Compared(Equal, x, Operand.Const(Tristate, t, TriToStr(t)), c, v) == Some(Truth(v.Tri(x) == Some(t)))
    ensures Compared(Unequal, x, Operand.Const(Tristate, t, TriToStr(t)), c, v) == Some(Truth(v.Tri(x) != Some(t)))
  {}
}
