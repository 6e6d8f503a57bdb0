/**
Expressions as text: printing an expression and parsing it back. The text is a
sequence of tokens ending in `End`, as the tokenizer leaves it.
*/
module KconfigExprText {
  import opened Options
  import opened KconfigModel

  datatype Token = Sym(operand: Operand) | Rel(rel: Relation) | NotT | AndT | OrT | Open | Close | End

  /** The constant symbol m. */
  const M: Operand := Operand.Const(Tristate, 1, "m")

  // -- printing -----------------------------------------------------------

  /** expr_str() */
  function Print(e: Expr): seq<Token>
    decreases e, 0
  {
    match e
    case Val(o) => [Sym(o)]
    case And(l, r) => Parenthesize(l, l.Or?) + [AndT] + Parenthesize(r, r.Or?)
    case Or(l, r) => Parenthesize(l, l.And?) + [OrT] + Parenthesize(r, r.And?)
    case Not(x) => [NotT] + Parenthesize(x, !x.Val?)
    case Compare(rel, a, b) => [Sym(a), Rel(rel), Sym(b)]
  }

  function Parenthesize(e: Expr, needed: bool): seq<Token>
    decreases e, 1
  {
    if needed then [Open] + Print(e) + [Close] else Print(e)
  }

  // -- parsing ------------------------------------------------------------

  /** How a plain symbol is read: m becomes m && MODULES in conditions. */
  function Leaf(c: Config, transformM: bool, o: Operand): Expr {
    if transformM && o == M then And(Val(M), Val(Operand.Item(c.modules))) else Val(o)
  }

  /** The parsers return what they read and the tokens that follow; None is a syntax error. */
  function ParseExpr(c: Config, transformM: bool, ts: seq<Token>): (r: Option<(Expr, seq<Token>)>)
    ensures r.Some? ==> |r.value.1| < |ts| && r.value.1 == ts[|ts| - |r.value.1|..]
    decreases |ts|, 2
  {
    var (e, rest) :- ParseAnd(c, transformM, ts);
    if rest != [] && rest[0] == OrT then
      var (f, rest1) :- ParseExpr(c, transformM, rest[1..]);
      Some((Or(e, f), rest1))
    else Some((e, rest))
  }

  function ParseAnd(c: Config, transformM: bool, ts: seq<Token>): (r: Option<(Expr, seq<Token>)>)
    ensures r.Some? ==> |r.value.1| < |ts| && r.value.1 == ts[|ts| - |r.value.1|..]
    decreases |ts|, 1
  {
    var (e, rest) :- ParseFactor(c, transformM, ts);
    if rest != [] && rest[0] == AndT then
      var (f, rest1) :- ParseAnd(c, transformM, rest[1..]);
      Some((And(e, f), rest1))
    else Some((e, rest))
  }

  function ParseFactor(c: Config, transformM: bool, ts: seq<Token>): (r: Option<(Expr, seq<Token>)>)
    ensures r.Some? ==> |r.value.1| < |ts| && r.value.1 == ts[|ts| - |r.value.1|..]
    decreases |ts|, 0
  {
    if ts == [] then None
    else match ts[0]
      case Sym(o) =>
        if |ts| > 1 && ts[1].Rel? then
          if |ts| > 2 && ts[2].Sym? then Some((Compare(ts[1].rel, o, ts[2].operand), ts[3..])) else None
        else Some((Leaf(c, transformM, o), ts[1..]))
      case NotT =>
        var (e, rest) :- ParseFactor(c, transformM, ts[1..]);
        Some((Not(e), rest))
      case Open =>
        var (e, rest) :- ParseExpr(c, transformM, ts[1..]);
        if rest != [] && rest[0] == Close then Some((e, rest[1..])) else None
      case _ => None
  }

  /** The parser as it is written, over an index into the tokens of a line. */
  class Parser {
    const c: Config
    const tokens: seq<Token>
    var i: nat

    constructor (c: Config, tokens: seq<Token>)
      ensures this.c == c && this.tokens == tokens && i == 0
    {
      this.c, this.tokens, i := c, tokens, 0;
    }

    /** End stands at the end and the index has not passed it. */
    predicate Ready()
      reads this
    {
      i < |tokens| && tokens[|tokens| - 1] == End
    }

    /** The parse agrees with a function of the tokens that were left. */
    predicate Agrees(want: Option<(Expr, seq<Token>)>, got: Option<Expr>)
      reads this
    {
      if want.None? then got.None? else got == Some(want.value.0) && Ready() && tokens[i..] == want.value.1
    }

    method CheckToken(t: Token) returns (found: bool)
      requires Ready()
      modifies this
      ensures found == (old(tokens[i..])[0] == t)
      ensures i == if found then old(i) + 1 else old(i)
    {
      found := tokens[i] == t;
      if found {
        i := i + 1;
      }
    }

    method ParseExpression(transformM: bool) returns (r: Option<Expr>)
      requires Ready()
      modifies this
      ensures Agrees(ParseExpr(c, transformM, old(tokens[i..])), r)
      decreases |tokens| - i, 2
    {
      hide ParseExpr, ParseAnd, ParseFactor;
      ParseExprCases(c, transformM, tokens[i..]);
      var e := ParseAndExpr(transformM);
      if e.None? {
        return None;
      }
      var more := CheckToken(OrT);
      if !more {
        return e;
      }
      var f := ParseExpression(transformM);
      return if f.None? then None else Some(Or(e.value, f.value));
    }

    method ParseAndExpr(transformM: bool) returns (r: Option<Expr>)
      requires Ready()
      modifies this
      ensures Agrees(ParseAnd(c, transformM, old(tokens[i..])), r)
      decreases |tokens| - i, 1
    {
      hide ParseExpr, ParseAnd, ParseFactor;
      ParseAndCases(c, transformM, tokens[i..]);
      var e := ParseFactorExpr(transformM);
      if e.None? {
        return None;
      }
      var more := CheckToken(AndT);
      if !more {
        return e;
      }
      var f := ParseAndExpr(transformM);
      return if f.None? then None else Some(And(e.value, f.value));
    }

    /** The rest of a plain symbol or a relation, after its first symbol. */
    method ParseSymbol(transformM: bool, operand: Operand) returns (r: Option<Expr>)
      requires Ready()
      modifies this
      ensures Agrees(ParseFactor(c, transformM, [Sym(operand)] + old(tokens[i..])), r)
    {
      hide ParseExpr, ParseAnd;
      ghost var ts := [Sym(operand)] + tokens[i..];
      assert ts[1..] == tokens[i..];
      if !tokens[i].Rel? {
        if transformM && operand == M {
          return Some(And(Val(M), Val(Operand.Item(c.modules))));
        }
        return Some(Val(operand));
      }
      i := i + 1;
      var rel := tokens[i - 1].rel;
      if !tokens[i].Sym? {
        return None;
      }
      i := i + 1;
      assert ts[3..] == tokens[i..];
      return Some(Compare(rel, operand, tokens[i - 1].operand));
    }

    method ParseFactorExpr(transformM: bool) returns (r: Option<Expr>)
      requires Ready()
      modifies this
      ensures Agrees(ParseFactor(c, transformM, old(tokens[i..])), r)
      decreases |tokens| - i, 0
    {
      hide ParseExpr, ParseAnd, ParseFactor, Leaf;
      ghost var ts := tokens[i..];
      ParseFactorCases(c, transformM, ts);
      var token := tokens[i];
      i := i + 1;
      assert ts == [token] + tokens[i..];
      if token.Sym? {
        r := ParseSymbol(transformM, token.operand);
        return;
      }
      if token == NotT {
        var e := ParseFactorExpr(transformM);
        return if e.None? then None else Some(Not(e.value));
      }
      if token == Open {
        r := ParseParenthesis(transformM);
        return;
      }
      return None;
    }

    /** The rest of a parenthesis, after it has been opened. */
    method ParseParenthesis(transformM: bool) returns (r: Option<Expr>)
      requires Ready()
      modifies this
      ensures Agrees(ParseFactor(c, transformM, [Open] + old(tokens[i..])), r)
      decreases |tokens| - i, 3
    {
      hide ParseExpr, ParseFactor;
      ParenthesisCase(c, transformM, tokens[i..]);
      r := ParseExpression(transformM);
      if r.Some? {
        var closed := CheckToken(Close);
        if !closed {
          return None;
        }
      }
    }
  }

  lemma ParseExprCases(c: Config, t: bool, ts: seq<Token>)
    ensures ParseExpr(c, t, ts) ==
      match ParseAnd(c, t, ts)
      case None => None
      case Some(l) =>
        if l.1 != [] && l.1[0] == OrT then
          match ParseExpr(c, t, l.1[1..])
          case None => None
          case Some(r) => Some((Or(l.0, r.0), r.1))
        else Some(l)
  {
    hide ParseAnd;
  }

  lemma ParseAndCases(c: Config, t: bool, ts: seq<Token>)
    ensures ParseAnd(c, t, ts) ==
      match ParseFactor(c, t, ts)
      case None => None
      case Some(l) =>
        if l.1 != [] && l.1[0] == AndT then
          match ParseAnd(c, t, l.1[1..])
          case None => None
          case Some(r) => Some((And(l.0, r.0), r.1))
        else Some(l)
  {
    hide ParseFactor;
  }

  lemma ParenthesisCase(c: Config, t: bool, rest: seq<Token>)
    ensures ParseFactor(c, t, [Open] + rest) ==
      match ParseExpr(c, t, rest)
      case None => None
      case Some(r) => if r.1 != [] && r.1[0] == Close then Some((r.0, r.1[1..])) else None
  {
    hide ParseExpr;
    assert ([Open] + rest)[1..] == rest;
  }

  lemma ParseFactorCases(c: Config, t: bool, ts: seq<Token>)
    requires ts != []
    ensures ts[0] == NotT ==>
      ParseFactor(c, t, ts) ==
        match ParseFactor(c, t, ts[1..]) case None => None case Some(r) => Some((Not(r.0), r.1))
    ensures !ts[0].Sym? && ts[0] != NotT && ts[0] != Open ==> ParseFactor(c, t, ts) == None
  {
    hide ParseExpr;
  }

  // -- what parsing a printed expression gives -----------------------------

  /** The expression read back: operators of a kind lean to the right. */
  function Norm(c: Config, t: bool, e: Expr): Expr
    decreases e, 0
  {
    match e
    case Val(o) => Leaf(c, t, o)
    case And(l, r) => ChainAnd(c, t, l, Norm(c, t, r))
    case Or(l, r) => ChainOr(c, t, l, Norm(c, t, r))
    case Not(x) => Not(Norm(c, t, x))
    case Compare(_, _, _) => e
  }

  function ChainAnd(c: Config, t: bool, e: Expr, x: Expr): Expr
    decreases e, 1
  {
    if e.And? then ChainAnd(c, t, e.left, ChainAnd(c, t, e.right, x)) else And(Norm(c, t, e), x)
  }

  function ChainOr(c: Config, t: bool, e: Expr, x: Expr): Expr
    decreases e, 1
  {
    if e.Or? then ChainOr(c, t, e.left, ChainOr(c, t, e.right, x)) else Or(Norm(c, t, e), x)
  }

  /** Tokens after which neither a factor nor an AND goes on. */
  predicate EndsFactor(ts: seq<Token>) {
    ts != [] && !ts[0].Rel?
  }

  predicate EndsAnd(ts: seq<Token>) {
    EndsFactor(ts) && ts[0] != AndT
  }

  lemma AndLast(c: Config, t: bool, ts: seq<Token>, e: Expr, rest: seq<Token>)
    requires ParseFactor(c, t, ts) == Some((e, rest)) && EndsAnd(rest)
    ensures ParseAnd(c, t, ts) == Some((e, rest))
  {}

  lemma AndMore(c: Config, t: bool, ts: seq<Token>, e: Expr, us: seq<Token>, x: Expr, rest: seq<Token>)
    requires ParseFactor(c, t, ts) == Some((e, [AndT] + us)) && ParseAnd(c, t, us) == Some((x, rest))
    ensures ParseAnd(c, t, ts) == Some((And(e, x), rest))
  {
    assert ([AndT] + us)[1..] == us;
  }

  lemma OrLast(c: Config, t: bool, ts: seq<Token>, e: Expr, rest: seq<Token>)
    requires ParseAnd(c, t, ts) == Some((e, rest)) && EndsAnd(rest) && rest[0] != OrT
    ensures ParseExpr(c, t, ts) == Some((e, rest))
  {}

  lemma OrMore(c: Config, t: bool, ts: seq<Token>, e: Expr, us: seq<Token>, x: Expr, rest: seq<Token>)
    requires ParseAnd(c, t, ts) == Some((e, [OrT] + us)) && ParseExpr(c, t, us) == Some((x, rest))
    ensures ParseExpr(c, t, ts) == Some((Or(e, x), rest))
  {
    assert ([OrT] + us)[1..] == us;
  }

  lemma ParenRead(c: Config, t: bool, ts: seq<Token>, e: Expr, rest: seq<Token>)
    requires ParseExpr(c, t, ts) == Some((e, [Close] + rest))
    ensures ParseFactor(c, t, [Open] + ts) == Some((e, rest))
  {
    hide ParseExpr;
    assert ([Open] + ts)[1..] == ts;
    assert ([Close] + rest)[1..] == rest;
  }

  lemma NotRead(c: Config, t: bool, ts: seq<Token>, e: Expr, rest: seq<Token>)
    requires ParseFactor(c, t, ts) == Some((e, rest))
    ensures ParseFactor(c, t, [NotT] + ts) == Some((Not(e), rest))
  {
    assert ([NotT] + ts)[1..] == ts;
  }

  lemma SymRead(c: Config, t: bool, o: Operand, rest: seq<Token>)
    requires EndsFactor(rest)
    ensures ParseFactor(c, t, [Sym(o)] + rest) == Some((Leaf(c, t, o), rest))
  {
    assert ([Sym(o)] + rest)[1..] == rest;
  }

  lemma CompareRead(c: Config, t: bool, rel: Relation, a: Operand, b: Operand, rest: seq<Token>)
    ensures ParseFactor(c, t, [Sym(a), Rel(rel), Sym(b)] + rest) == Some((Compare(rel, a, b), rest))
  {
    assert ([Sym(a), Rel(rel), Sym(b)] + rest)[3..] == rest;
  }

  lemma AndSides(l: Expr, r: Expr, rest: seq<Token>)
    ensures Print(And(l, r)) + rest == Parenthesize(l, l.Or?) + [AndT] + (Parenthesize(r, r.Or?) + rest)
  {}

  lemma OrSides(l: Expr, r: Expr, rest: seq<Token>)
    ensures Print(Or(l, r)) + rest == Parenthesize(l, l.And?) + [OrT] + (Parenthesize(r, r.And?) + rest)
  {}

  /** Neither AND nor OR. */
  lemma {:induction false} PlainPrinted(c: Config, t: bool, e: Expr, rest: seq<Token>)
    requires EndsFactor(rest) && !e.And? && !e.Or?
    ensures ParseFactor(c, t, Print(e) + rest) == Some((Norm(c, t, e), rest))
    decreases e, 0
  {
    hide ParseFactor, Leaf;
    match e
    case Val(o) => SymRead(c, t, o, rest);
    case Compare(rel, a, b) => CompareRead(c, t, rel, a, b, rest);
    case Not(x) =>
      var ts := Parenthesize(x, !x.Val?) + rest;
      assert Print(e) + rest == [NotT] + ts by { hide Parenthesize; }
      FactorPrinted(c, t, x, !x.Val?, rest);
      NotRead(c, t, ts, Norm(c, t, x), rest);
  }

  lemma {:induction false} FactorPrinted(c: Config, t: bool, e: Expr, needed: bool, rest: seq<Token>)
    requires EndsFactor(rest) && (e.And? || e.Or? ==> needed)
    ensures ParseFactor(c, t, Parenthesize(e, needed) + rest) == Some((Norm(c, t, e), rest))
    decreases e, 2
  {
    hide ParseFactor, ParseExpr, Print, Norm;
    if needed {
      assert Parenthesize(e, needed) + rest == [Open] + (Print(e) + ([Close] + rest));
      ExprPrinted(c, t, e, [Close] + rest);
      ParenRead(c, t, Print(e) + ([Close] + rest), Norm(c, t, e), rest);
    } else {
      PlainPrinted(c, t, e, rest);
    }
  }

  lemma {:induction false} AndPrinted(c: Config, t: bool, e: Expr, rest: seq<Token>)
    requires EndsAnd(rest)
    ensures ParseAnd(c, t, Parenthesize(e, e.Or?) + rest) == Some((Norm(c, t, e), rest))
    decreases e, 3
  {
    if e.And? {
      AndBoth(c, t, e.left, e.right, rest);
    } else {
      hide ParseAnd, ParseFactor, Print, Norm, Parenthesize;
      FactorPrinted(c, t, e, e.Or?, rest);
      AndLast(c, t, Parenthesize(e, e.Or?) + rest, Norm(c, t, e), rest);
    }
  }

  lemma {:induction false} AndBoth(c: Config, t: bool, l: Expr, r: Expr, rest: seq<Token>)
    requires EndsAnd(rest)
    ensures ParseAnd(c, t, Print(And(l, r)) + rest) == Some((ChainAnd(c, t, l, Norm(c, t, r)), rest))
    decreases And(l, r), 0
  {
    hide ParseAnd, Print, Norm, ChainAnd, Parenthesize;
    AndSides(l, r, rest);
    AndPrinted(c, t, r, rest);
    AndChained(c, t, l, Parenthesize(r, r.Or?) + rest, Norm(c, t, r), rest);
  }

  lemma AndRegrouped(l: Expr, r: Expr, ts: seq<Token>)
    ensures Parenthesize(And(l, r), And(l, r).Or?) + [AndT] + ts ==
      Parenthesize(l, l.Or?) + [AndT] + (Parenthesize(r, r.Or?) + [AndT] + ts)
  {
    AndSides(l, r, [AndT] + ts);
    hide Print;
    var a, b := Print(And(l, r)), Parenthesize(r, r.Or?);
    assert a + [AndT] + ts == a + ([AndT] + ts) && b + [AndT] + ts == b + ([AndT] + ts);
  }

  lemma {:induction false} AndChained(c: Config, t: bool, e: Expr, ts: seq<Token>, x: Expr, rest: seq<Token>)
    requires ParseAnd(c, t, ts) == Some((x, rest))
    ensures ParseAnd(c, t, Parenthesize(e, e.Or?) + [AndT] + ts) == Some((ChainAnd(c, t, e, x), rest))
    decreases e, 3
  {
    hide ParseAnd, ParseFactor, Print, Norm;
    if e.And? {
      hide Parenthesize;
      var l, r := e.left, e.right;
      AndChained(c, t, r, ts, x, rest);
      AndChained(c, t, l, Parenthesize(r, r.Or?) + [AndT] + ts, ChainAnd(c, t, r, x), rest);
      AndRegrouped(l, r, ts);
    } else {
      FactorPrinted(c, t, e, e.Or?, [AndT] + ts);
      assert Parenthesize(e, e.Or?) + [AndT] + ts == Parenthesize(e, e.Or?) + ([AndT] + ts);
      AndMore(c, t, Parenthesize(e, e.Or?) + [AndT] + ts, Norm(c, t, e), ts, x, rest);
    }
  }

  lemma {:induction false} OrPrinted(c: Config, t: bool, e: Expr, rest: seq<Token>)
    requires EndsAnd(rest) && rest[0] != OrT
    ensures ParseExpr(c, t, Parenthesize(e, e.And?) + rest) == Some((Norm(c, t, e), rest))
    decreases e, 3
  {
    if e.Or? {
      OrBoth(c, t, e.left, e.right, rest);
    } else {
      hide ParseAnd, ParseFactor, ParseExpr, Print, Norm, Parenthesize;
      var ts := Parenthesize(e, e.And?) + rest;
      FactorPrinted(c, t, e, e.And?, rest);
      AndLast(c, t, ts, Norm(c, t, e), rest);
      OrLast(c, t, ts, Norm(c, t, e), rest);
    }
  }

  lemma {:induction false} OrBoth(c: Config, t: bool, l: Expr, r: Expr, rest: seq<Token>)
    requires EndsAnd(rest) && rest[0] != OrT
    ensures ParseExpr(c, t, Print(Or(l, r)) + rest) == Some((ChainOr(c, t, l, Norm(c, t, r)), rest))
    decreases Or(l, r), 0
  {
    hide ParseExpr, Print, Norm, ChainOr, Parenthesize;
    OrSides(l, r, rest);
    OrPrinted(c, t, r, rest);
    OrChained(c, t, l, Parenthesize(r, r.And?) + rest, Norm(c, t, r), rest);
  }

  lemma OrRegrouped(l: Expr, r: Expr, ts: seq<Token>)
    ensures Parenthesize(Or(l, r), Or(l, r).And?) + [OrT] + ts ==
      Parenthesize(l, l.And?) + [OrT] + (Parenthesize(r, r.And?) + [OrT] + ts)
  {
    OrSides(l, r, [OrT] + ts);
    hide Print;
    var a, b := Print(Or(l, r)), Parenthesize(r, r.And?);
    assert a + [OrT] + ts == a + ([OrT] + ts) && b + [OrT] + ts == b + ([OrT] + ts);
  }

  lemma {:induction false} OrChained(c: Config, t: bool, e: Expr, ts: seq<Token>, x: Expr, rest: seq<Token>)
    requires ParseExpr(c, t, ts) == Some((x, rest))
    ensures ParseExpr(c, t, Parenthesize(e, e.And?) + [OrT] + ts) == Some((ChainOr(c, t, e, x), rest))
    decreases e, 3
  {
    hide ParseAnd, ParseFactor, ParseExpr, Print, Norm;
    if e.Or? {
      hide Parenthesize;
      var l, r := e.left, e.right;
      OrChained(c, t, r, ts, x, rest);
      OrChained(c, t, l, Parenthesize(r, r.And?) + [OrT] + ts, ChainOr(c, t, r, x), rest);
      OrRegrouped(l, r, ts);
    } else {
      var us := Parenthesize(e, e.And?) + [OrT] + ts;
      FactorPrinted(c, t, e, e.And?, [OrT] + ts);
      assert us == Parenthesize(e, e.And?) + ([OrT] + ts);
      AndLast(c, t, us, Norm(c, t, e), [OrT] + ts);
      OrMore(c, t, us, Norm(c, t, e), ts, x, rest);
    }
  }

  lemma {:induction false} ExprPrinted(c: Config, t: bool, e: Expr, rest: seq<Token>)
    requires EndsAnd(rest) && rest[0] != OrT
    ensures ParseExpr(c, t, Print(e) + rest) == Some((Norm(c, t, e), rest))
    decreases e, 1
  {
    if e.Or? {
      OrBoth(c, t, e.left, e.right, rest);
    } else {
      if e.And? {
        AndBoth(c, t, e.left, e.right, rest);
      } else {
        hide ParseAnd, ParseFactor, ParseExpr, Print, Norm;
        PlainPrinted(c, t, e, rest);
        AndLast(c, t, Print(e) + rest, Norm(c, t, e), rest);
      }
      OrLast(c, t, Print(e) + rest, Norm(c, t, e), rest);
    }
  }

  // -- and what it means -----------------------------------------------------

  /** Every plain m read as m && MODULES. */
  function Conditional(c: Config, t: bool, e: Expr): Expr {
    match e
    case Val(o) => Leaf(c, t, o)
    case And(l, r) => And(Conditional(c, t, l), Conditional(c, t, r))
    case Or(l, r) => Or(Conditional(c, t, l), Conditional(c, t, r))
    case Not(x) => Not(Conditional(c, t, x))
    case Compare(_, _, _) => e
  }

  lemma {:induction false} NormValue(c: Config, t: bool, e: Expr, v: View)
    ensures ExprValue(Norm(c, t, e), c, v) == ExprValue(Conditional(c, t, e), c, v)
    decreases e, 0
  {
    match e
    case And(l, r) =>
      NormValue(c, t, r, v);
      ChainAndValue(c, t, l, Norm(c, t, r), v);
    case Or(l, r) =>
      NormValue(c, t, r, v);
      ChainOrValue(c, t, l, Norm(c, t, r), v);
    case Not(x) => NormValue(c, t, x, v);
    case Val(_) =>
    case Compare(_, _, _) =>
  }

  lemma {:induction false} ChainAndValue(c: Config, t: bool, e: Expr, x: Expr, v: View)
    ensures ExprValue(ChainAnd(c, t, e, x), c, v) == ExprValue(And(Conditional(c, t, e), x), c, v)
    decreases e, 1
  {
    if e.And? {
      ChainAndValue(c, t, e.right, x, v);
      ChainAndValue(c, t, e.left, ChainAnd(c, t, e.right, x), v);
    } else {
      NormValue(c, t, e, v);
    }
  }

  lemma {:induction false} ChainOrValue(c: Config, t: bool, e: Expr, x: Expr, v: View)
    ensures ExprValue(ChainOr(c, t, e, x), c, v) == ExprValue(Or(Conditional(c, t, e), x), c, v)
    decreases e, 1
  {
    if e.Or? {
      ChainOrValue(c, t, e.right, x, v);
      ChainOrValue(c, t, e.left, ChainOr(c, t, e.right, x), v);
    } else {
      NormValue(c, t, e, v);
    }
  }

  /**
  A printed expression parses as a whole, and has the value it had under every
  assignment, reading the same symbols; in conditions, that of the expression
  with m read as m && MODULES.
  */
  lemma PrintThenParse(c: Config, t: bool, e: Expr)
    ensures var r := ParseExpr(c, t, Print(e) + [End]);
      && r.Some? && r.value.1 == [End]
      && forall v :: ExprValue(r.value.0, c, v) == ExprValue(Conditional(c, t, e), c, v)
    ensures !t ==> Conditional(c, t, e) == e
  {
    ExprPrinted(c, t, e, [End]);
    forall v ensures ExprValue(Norm(c, t, e), c, v) == ExprValue(Conditional(c, t, e), c, v) {
      NormValue(c, t, e, v);
    }
    if !t {
      Unconditional(c, e);
    }
  }

  lemma {:induction false} Unconditional(c: Config, e: Expr)
    ensures Conditional(c, false, e) == e
  {
    match e
    case And(l, r) =>
      Unconditional(c, l);
      Unconditional(c, r);
    case Or(l, r) =>
      Unconditional(c, l);
      Unconditional(c, r);
    case Not(x) => Unconditional(c, x);
    case Val(_) =>
    case Compare(_, _, _) =>
  }

  /** Each m stands beside MODULES, as the parser leaves it in conditions. */
  predicate Guarded(c: Config, e: Expr) {
    match e
    case Val(o) => o != M
    case And(l, r) => (l == Val(M) && r == Val(Operand.Item(c.modules))) || (Guarded(c, l) && Guarded(c, r))
    case Or(l, r) => Guarded(c, l) && Guarded(c, r)
    case Not(x) => Guarded(c, x)
    case Compare(_, _, _) => true
  }

  lemma {:induction false} GuardedValue(c: Config, e: Expr, v: View)
    requires Guarded(c, e)
    ensures ExprValue(Conditional(c, true, e), c, v) == ExprValue(e, c, v)
  {
    match e
    case And(l, r) =>
      if l == Val(M) && r == Val(Operand.Item(c.modules)) {
        assert Conditional(c, true, e) == And(And(l, r), r);
      } else {
        GuardedValue(c, l, v);
        GuardedValue(c, r, v);
      }
    case Or(l, r) =>
      GuardedValue(c, l, v);
      GuardedValue(c, r, v);
    case Not(x) => GuardedValue(c, x, v);
    case Val(_) =>
    case Compare(_, _, _) =>
  }

  lemma {:induction false} ParsedGuarded(c: Config, ts: seq<Token>)
    requires ParseExpr(c, true, ts).Some?
    ensures Guarded(c, ParseExpr(c, true, ts).value.0)
    decreases |ts|, 2
  {
    AndGuarded(c, ts);
    var (_, rest) := ParseAnd(c, true, ts).value;
    hide ParseAnd;
    if rest != [] && rest[0] == OrT {
      ParsedGuarded(c, rest[1..]);
    }
  }

  lemma {:induction false} AndGuarded(c: Config, ts: seq<Token>)
    requires ParseAnd(c, true, ts).Some?
    ensures Guarded(c, ParseAnd(c, true, ts).value.0)
    decreases |ts|, 1
  {
    FactorGuarded(c, ts);
    var (_, rest) := ParseFactor(c, true, ts).value;
    hide ParseFactor;
    if rest != [] && rest[0] == AndT {
      AndGuarded(c, rest[1..]);
    }
  }

  lemma {:induction false} FactorGuarded(c: Config, ts: seq<Token>)
    requires ParseFactor(c, true, ts).Some?
    ensures Guarded(c, ParseFactor(c, true, ts).value.0)
    decreases |ts|, 0
  {
    hide ParseExpr;
    if ts[0] == NotT {
      FactorGuarded(c, ts[1..]);
    } else if ts[0] == Open {
      ParsedGuarded(c, ts[1..]);
    }
  }

  /** A condition the parser has read once can be printed and read again without changing its value. */
  lemma ConditionsReparse(c: Config, ts: seq<Token>)
    requires ParseExpr(c, true, ts).Some?
    ensures var e := ParseExpr(c, true, ts).value.0;
      var r := ParseExpr(c, true, Print(e) + [End]);
      && r.Some? && r.value.1 == [End]
      && forall v :: ExprValue(r.value.0, c, v) == ExprValue(e, c, v)
  {
    var e := ParseExpr(c, true, ts).value.0;
    ParsedGuarded(c, ts);
    PrintThenParse(c, true, e);
    forall v ensures ExprValue(Conditional(c, true, e), c, v) == ExprValue(e, c, v) {
      GuardedValue(c, e, v);
    }
  }

  /** The expression with every m read as n. */
  function MAsN(e: Expr): Expr {
    match e
    case Val(o) => if o == M then N else e
    case And(l, r) => And(MAsN(l), MAsN(r))
    case Or(l, r) => Or(MAsN(l), MAsN(r))
    case Not(x) => Not(MAsN(x))
    case Compare(_, _, _) => e
  }

  lemma {:induction false} ConditionalValue(c: Config, e: Expr, v: View)
    requires v.Tri(Operand.Item(c.modules)).Some?
    ensures ExprValue(Conditional(c, true, e), c, v) ==
      ExprValue(if v.Tri(Operand.Item(c.modules)) == Some(0) then MAsN(e) else e, c, v)
  {
    match e
    case Val(_) =>
    case And(l, r) =>
      ConditionalValue(c, l, v);
      ConditionalValue(c, r, v);
    case Or(l, r) =>
      ConditionalValue(c, l, v);
      ConditionalValue(c, r, v);
    case Not(x) => ConditionalValue(c, x, v);
    case Compare(_, _, _) =>
  }

  /**
  Any expression, printed and read as a condition, keeps its value where MODULES is
  not n, and where it is has that of the expression with every m read as n.
  */
  lemma RereadValue(c: Config, e: Expr, v: View)
    requires v.Tri(Operand.Item(c.modules)).Some?
    ensures var r := ParseExpr(c, true, Print(e) + [End]);
      && r.Some?
      && ExprValue(r.value.0, c, v) == ExprValue(if v.Tri(Operand.Item(c.modules)) == Some(0) then MAsN(e) else e, c, v)
  {
    PrintThenParse(c, true, e);
    ConditionalValue(c, e, v);
  }

  /** For other expressions it can: a plain m turns into n where MODULES is n. */
  lemma PlainMChanges(c: Config, v: View)
    requires v.Tri(Operand.Item(c.modules)) == Some(0)
    ensures var r := ParseExpr(c, true, Print(Val(M)) + [End]);
      r.Some? && ExprValue(Val(M), c, v) == Some(1) && ExprValue(r.value.0, c, v) == Some(0)
  {
    ExprPrinted(c, true, Val(M), [End]);
  }

  // -- precedence -----------------------------------------------------------

  lemma LeafParsed(c: Config, o: Operand, rest: seq<Token>)
    requires rest != [] && !rest[0].Rel?
    ensures ParseFactor(c, false, [Sym(o)] + rest) == Some((Val(o), rest))
  {
    assert ([Sym(o)] + rest)[1..] == rest;
  }

  /** A factor that is the whole conjunction. */
  lemma AndAlone(c: Config, ts: seq<Token>, e: Expr, rest: seq<Token>)
    requires ParseFactor(c, false, ts) == Some((e, rest)) && rest != [] && rest[0] != AndT
    ensures ParseAnd(c, false, ts) == Some((e, rest))
  {}

  lemma OrAlone(c: Config, ts: seq<Token>, e: Expr, rest: seq<Token>)
    requires ParseAnd(c, false, ts) == Some((e, rest)) && rest != [] && rest[0] != OrT
    ensures ParseExpr(c, false, ts) == Some((e, rest))
  {}

  /** A symbol that ends an expression. */
  lemma LastLeaf(c: Config, o: Operand, rest: seq<Token>)
    requires rest != [] && !rest[0].Rel? && rest[0] != AndT && rest[0] != OrT
    ensures ParseAnd(c, false, [Sym(o)] + rest) == Some((Val(o), rest)) && ParseExpr(c, false, [Sym(o)] + rest) == Some((Val(o), rest))
  {
    LeafParsed(c, o, rest);
    hide ParseExpr, ParseAnd, ParseFactor;
    AndAlone(c, [Sym(o)] + rest, Val(o), rest);
    OrAlone(c, [Sym(o)] + rest, Val(o), rest);
  }

  /** a AND b */
  lemma TwoAnded(c: Config, a: Operand, b: Operand, rest: seq<Token>)
    requires rest != [] && !rest[0].Rel? && rest[0] != AndT
    ensures ParseAnd(c, false, [Sym(a), AndT, Sym(b)] + rest) == Some((And(Val(a), Val(b)), rest))
  {
    hide ParseExpr, ParseAnd, ParseFactor;
    var more := [Sym(b)] + rest;
    assert [Sym(a), AndT, Sym(b)] + rest == [Sym(a)] + ([AndT] + more);
    LeafParsed(c, a, [AndT] + more);
    LeafParsed(c, b, rest);
    AndAlone(c, more, Val(b), rest);
    AndMore(c, false, [Sym(a)] + ([AndT] + more), Val(a), more, Val(b), rest);
  }

  /** Conjunction binds tighter than disjunction: a AND b OR d, and a OR b AND d. */
  lemma AndBinds(c: Config, a: Operand, b: Operand, d: Operand)
    ensures ParseExpr(c, false, [Sym(a), AndT, Sym(b), OrT, Sym(d), End]) == Some((Or(And(Val(a), Val(b)), Val(d)), [End]))
    ensures ParseExpr(c, false, [Sym(a), OrT, Sym(b), AndT, Sym(d), End]) == Some((Or(Val(a), And(Val(b), Val(d))), [End]))
  {
    hide ParseExpr, ParseAnd, ParseFactor;
    var last := [Sym(d)] + [End];
    assert [Sym(a), AndT, Sym(b), OrT, Sym(d), End] == [Sym(a), AndT, Sym(b)] + ([OrT] + last);
    LastLeaf(c, d, [End]);
    TwoAnded(c, a, b, [OrT] + last);
    OrMore(c, false, [Sym(a), AndT, Sym(b)] + ([OrT] + last), And(Val(a), Val(b)), last, Val(d), [End]);
    var both := [Sym(b), AndT, Sym(d)] + [End];
    assert [Sym(a), OrT, Sym(b), AndT, Sym(d), End] == [Sym(a)] + ([OrT] + both);
    TwoAnded(c, b, d, [End]);
    OrAlone(c, both, And(Val(b), Val(d)), [End]);
    LeafParsed(c, a, [OrT] + both);
    AndAlone(c, [Sym(a)] + ([OrT] + both), Val(a), [OrT] + both);
    OrMore(c, false, [Sym(a)] + ([OrT] + both), Val(a), both, And(Val(b), Val(d)), [End]);
  }

  /** Parentheses override that: (a OR b) AND d. */
  lemma ParenthesesBind(c: Config, a: Operand, b: Operand, d: Operand)
    ensures ParseExpr(c, false, [Open, Sym(a), OrT, Sym(b), Close, AndT, Sym(d), End]) == Some((And(Or(Val(a), Val(b)), Val(d)), [End]))
  {
    hide ParseExpr, ParseAnd, ParseFactor;
    var last := [Sym(d)] + [End];
    var after := [Close] + ([AndT] + last);
    var inner := [Sym(a)] + ([OrT] + ([Sym(b)] + after));
    var ts := [Open] + inner;
    assert [Open, Sym(a), OrT, Sym(b), Close, AndT, Sym(d), End] == ts;
    LastLeaf(c, d, [End]);
    LastLeaf(c, b, after);
    LeafParsed(c, a, [OrT] + ([Sym(b)] + after));
    AndAlone(c, inner, Val(a), [OrT] + ([Sym(b)] + after));
    OrMore(c, false, inner, Val(a), [Sym(b)] + after, Val(b), after);
    ParenRead(c, false, inner, Or(Val(a), Val(b)), [AndT] + last);
    AndMore(c, false, ts, Or(Val(a), Val(b)), last, Val(d), [End]);
    OrAlone(c, ts, And(Or(Val(a), Val(b)), Val(d)), [End]);
  }

  /** Negation takes the next factor only, but a comparison whole. */
  lemma NegationBinds(c: Config, a: Operand, b: Operand, rel: Relation)
    ensures ParseExpr(c, false, [NotT, Sym(a), AndT, Sym(b), End]) == Some((And(Not(Val(a)), Val(b)), [End]))
    ensures ParseExpr(c, false, [NotT, Sym(a), Rel(rel), Sym(b), End]) == Some((Not(Compare(rel, a, b)), [End]))
  {
    var last := [Sym(b)] + [End];
    var more := [AndT] + last;
    var ts := [NotT] + ([Sym(a)] + more);
    assert [NotT, Sym(a), AndT, Sym(b), End] == ts;
    LeafParsed(c, a, more);
    assert ts[1..] == [Sym(a)] + more;
    assert ParseFactor(c, false, ts) == Some((Not(Val(a)), more));
    var us := [NotT, Sym(a), Rel(rel), Sym(b), End];
    assert us[1..][3..] == [End];
    assert ParseFactor(c, false, us[1..]) == Some((Compare(rel, a, b), [End]));
    assert ParseFactor(c, false, us) == Some((Not(Compare(rel, a, b)), [End]));
    hide ParseExpr, ParseAnd, ParseFactor;
    LastLeaf(c, b, [End]);
    AndMore(c, false, ts, Not(Val(a)), last, Val(b), [End]);
    OrAlone(c, ts, And(Not(Val(a)), Val(b)), [End]);
    AndAlone(c, us, Not(Compare(rel, a, b)), [End]);
    OrAlone(c, us, Not(Compare(rel, a, b)), [End]);
  }
}
