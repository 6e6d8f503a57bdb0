/**
Which values the rule of a value looks at, and when there is an order in which all
of them can be computed: exactly when no chain of such looks leads back to its start.
*/
module KconfigReads {
  import opened Options
  import opened KconfigModel
  import opened KconfigSemantics
  import opened Cycles

  // ---------------------------------------------------------------------
  // Looking
  // ---------------------------------------------------------------------

  /** The visibility, the value or mode, the selection, the string and the assignable values of an item. */
  datatype Kind = OfVis | OfTri | OfSel | OfStr | OfAsg

  datatype Node = Node(id: Id, kind: Kind)

  predicate ReadsTri(o: Operand, r: Node) {
    o.Item? && r == Node(o.id, OfTri)
  }

  /** An operand that is compared counts as a number or as a string. */
  predicate ReadsStr(o: Operand, r: Node) {
    o.Item? && (r == Node(o.id, OfTri) || r == Node(o.id, OfStr))
  }

  predicate ExprReads(e: Expr, r: Node) {
    match e
    case Val(o) => ReadsTri(o, r)
    case And(a, b) => ExprReads(a, r) || ExprReads(b, r)
    case Or(a, b) => ExprReads(a, r) || ExprReads(b, r)
    case Not(x) => ExprReads(x, r)
    case Compare(_, a, b) => ReadsStr(a, r) || ReadsStr(b, r)
  }

  predicate ExprsRead(es: seq<Expr>, r: Node) {
    exists k :: 0 <= k < |es| && ExprReads(es[k], r)
  }

  /** The value of a default counts as a string for strings and numbers. */
  predicate DefaultReads(t: Type, d: Default, r: Node) {
    || ExprReads(d.cond, r) || ExprReads(d.value, r)
    || (!IsBoolTri(t) && d.value.Val? && ReadsStr(d.value.operand, r))
  }

  predicate DefaultsRead(d: Def, r: Node)
    requires d.Symbol?
  {
    exists k :: 0 <= k < |d.defaults| && DefaultReads(d.typ, d.defaults[k], r)
  }

  predicate RangeReads(x: Range, r: Node) {
    ReadsStr(x.low, r) || ReadsStr(x.high, r) || ExprReads(x.cond, r)
  }

  predicate RangesRead(d: Def, r: Node)
    requires d.Symbol?
  {
    exists k :: 0 <= k < |d.ranges| && RangeReads(d.ranges[k], r)
  }

  predicate ChoiceDefaultsRead(d: Def, r: Node)
    requires d.Choice?
  {
    exists k :: 0 <= k < |d.choiceDefaults| && ExprReads(d.choiceDefaults[k].cond, r)
  }

  /** The type of a tristate item looks at MODULES. */
  predicate TypeReads(c: Config, d: Def, r: Node) {
    d.typ.Tristate? && r == Node(c.modules, OfTri)
  }

  predicate VisReads(c: Config, i: Id, r: Node)
    requires i < |c.items|
  {
    var d := c.items[i];
    || ExprsRead(d.prompts, r)
    || (LooksAtMode(c, d) && r == Node(d.choice.value, OfTri))
    || TypeReads(c, d, r)
  }

  predicate TriReads(c: Config, i: Id, r: Node)
    requires i < |c.items|
  {
    var d := c.items[i];
    if d.Choice? then r == Node(i, OfVis) || TypeReads(c, d, r)
    else if !IsBoolTri(d.typ) then false
    else
      || r == Node(i, OfVis)
      || (if d.choice.Some? then r == Node(d.choice.value, OfSel)
          else
            || DefaultsRead(d, r) || ExprReads(d.revDep, r) || ExprReads(d.weakRevDep, r) || ExprReads(d.directDep, r)
            || TypeReads(c, d, r))
  }

  predicate SelReads(c: Config, i: Id, r: Node)
    requires i < |c.items|
  {
    var d := c.items[i];
    d.Choice? && (r == Node(i, OfTri) || ChoiceDefaultsRead(d, r) || (r.kind == OfVis && r.id in d.syms))
  }

  predicate StrReads(c: Config, i: Id, r: Node)
    requires i < |c.items|
  {
    var d := c.items[i];
    if d.Choice? || IsBoolTri(d.typ) then r == Node(i, OfTri)
    else if d.typ.Unknown? then false
    else r == Node(i, OfVis) || DefaultsRead(d, r) || (IsNumber(d) && RangesRead(d, r))
  }

  predicate AsgReads(c: Config, i: Id, r: Node)
    requires i < |c.items|
  {
    var d := c.items[i];
    if d.Symbol? && !IsBoolTri(d.typ) then false
    else r == Node(i, OfVis) || TypeReads(c, d, r) || (d.Symbol? && (ExprReads(d.revDep, r) || ExprReads(d.weakRevDep, r)))
  }

  /** The rule of `n` looks at `r`, for some values. */
  predicate Reads(c: Config, n: Node, r: Node) {
    && n.id < |c.items|
    && match n.kind
       case OfVis => VisReads(c, n.id, r)
       case OfTri => TriReads(c, n.id, r)
       case OfSel => SelReads(c, n.id, r)
       case OfStr => StrReads(c, n.id, r)
       case OfAsg => AsgReads(c, n.id, r)
  }

  // ---------------------------------------------------------------------
  // References
  // ---------------------------------------------------------------------

  predicate SymbolOperand(c: Config, o: Operand) {
    o.Item? ==> o.id < |c.items| && c.items[o.id].Symbol?
  }

  /** Items exist, and only symbols are compared. */
  predicate SoundExpr(c: Config, e: Expr) {
    match e
    case Val(o) => o.Item? ==> o.id < |c.items|
    case And(l, r) => SoundExpr(c, l) && SoundExpr(c, r)
    case Or(l, r) => SoundExpr(c, l) && SoundExpr(c, r)
    case Not(x) => SoundExpr(c, x)
    case Compare(_, a, b) => SymbolOperand(c, a) && SymbolOperand(c, b)
  }

  predicate ResolvedSymbol(c: Config, i: Id)
    requires i < |c.items| && c.items[i].Symbol?
  {
    var d := c.items[i];
    && (forall k :: 0 <= k < |d.prompts| ==> SoundExpr(c, d.prompts[k]))
    && (forall k :: 0 <= k < |d.defaults| ==>
          && SoundExpr(c, d.defaults[k].cond) && SoundExpr(c, d.defaults[k].value)
          && (!IsBoolTri(d.typ) && !d.typ.Unknown? ==>
                d.defaults[k].value.Val? && SymbolOperand(c, d.defaults[k].value.operand)))
    && (forall k :: 0 <= k < |d.ranges| ==>
          SymbolOperand(c, d.ranges[k].low) && SymbolOperand(c, d.ranges[k].high) && SoundExpr(c, d.ranges[k].cond))
    && SoundExpr(c, d.revDep) && SoundExpr(c, d.weakRevDep) && SoundExpr(c, d.directDep)
    && (d.choice.Some? ==>
          IsChoice(c, d.choice.value) && i in c.items[d.choice.value].syms && (NeverShown(d) || ModeReadable(d)))
    && (!d.defined ==> d.typ.Unknown? && d.prompts == [] && d.choice.None?)
  }

  predicate ResolvedChoice(c: Config, i: Id)
    requires i < |c.items| && c.items[i].Choice?
  {
    var d := c.items[i];
    && (forall k :: 0 <= k < |d.prompts| ==> SoundExpr(c, d.prompts[k]))
    && (forall k :: 0 <= k < |d.choiceDefaults| ==> SoundExpr(c, d.choiceDefaults[k].cond) && d.choiceDefaults[k].sym in d.syms)
    && (forall s :: s in d.syms ==> s < |c.items| && c.items[s].Symbol? && c.items[s].choice == Some(i))
  }

  /** Everything in WellFormed except that an order exists. */
  predicate Resolved(c: Config) {
    && c.modules < |c.items| && c.items[c.modules].Symbol?
    && forall i :: 0 <= i < |c.items| ==> if c.items[i].Symbol? then ResolvedSymbol(c, i) else ResolvedChoice(c, i)
  }

  // ---------------------------------------------------------------------
  // Levels
  // ---------------------------------------------------------------------

  function LevelOf(c: Config, n: Node): nat {
    match n.kind
    case OfVis => VisLevel(c, n.id)
    case OfTri => TriLevel(c, n.id)
    case OfSel => SelLevel(c, n.id)
    case OfStr => StrLevel(c, n.id)
    case OfAsg => AsgLevel(c, n.id)
  }

  /** Every value has a higher level than what its rule looks at. */
  ghost predicate Ordered(c: Config) {
    |c.levels| == |c.items| && forall n, r :: Reads(c, n, r) ==> LevelOf(c, r) < LevelOf(c, n)
  }

  lemma {:induction false} ExprLevels(c: Config, e: Expr, level: nat)
    requires SoundExpr(c, e)
    ensures ExprBelow(c, e, level) <==> forall r :: ExprReads(e, r) ==> LevelOf(c, r) < level
  {
    match e
    case Val(o) => OperandLevels(c, o, level);
    case And(a, b) =>
      ExprLevels(c, a, level);
      ExprLevels(c, b, level);
    case Or(a, b) =>
      ExprLevels(c, a, level);
      ExprLevels(c, b, level);
    case Not(x) => ExprLevels(c, x, level);
    case Compare(_, a, b) =>
      OperandLevels(c, a, level);
      OperandLevels(c, b, level);
  }

  lemma OperandLevels(c: Config, o: Operand, level: nat)
    requires o.Item? ==> o.id < |c.items|
    ensures TriBelow(c, o, level) <==> forall r :: ReadsTri(o, r) ==> LevelOf(c, r) < level
    ensures SymbolOperand(c, o) ==> (StrBelow(c, o, level) <==> forall r :: ReadsStr(o, r) ==> LevelOf(c, r) < level)
  {
    if o.Item? {
      assert ReadsTri(o, Node(o.id, OfTri)) && ReadsStr(o, Node(o.id, OfTri)) && ReadsStr(o, Node(o.id, OfStr));
    }
  }

  lemma DefaultLevels(c: Config, t: Type, d: Default, level: nat)
    requires SoundExpr(c, d.cond) && SoundExpr(c, d.value)
    requires !IsBoolTri(t) ==> d.value.Val? && SymbolOperand(c, d.value.operand)
    ensures DefaultBelow(c, t, d, level) <==> forall r :: DefaultReads(t, d, r) ==> LevelOf(c, r) < level
  {
    ExprLevels(c, d.cond, level);
    ExprLevels(c, d.value, level);
    if !IsBoolTri(t) {
      OperandLevels(c, d.value.operand, level);
    }
  }

  lemma RangeLevels(c: Config, x: Range, level: nat)
    requires SymbolOperand(c, x.low) && SymbolOperand(c, x.high) && SoundExpr(c, x.cond)
    ensures RangeBelow(c, x, level) <==> forall r :: RangeReads(x, r) ==> LevelOf(c, r) < level
  {
    OperandLevels(c, x.low, level);
    OperandLevels(c, x.high, level);
    ExprLevels(c, x.cond, level);
  }

  lemma PromptLevels(c: Config, es: seq<Expr>, level: nat)
    requires forall k :: 0 <= k < |es| ==> SoundExpr(c, es[k])
    ensures ExprsBelow(c, es, level) <==> forall r :: ExprsRead(es, r) ==> LevelOf(c, r) < level
  {
    hide ExprBelow, ExprReads, LevelOf, SoundExpr;
    forall k | 0 <= k < |es| ensures ExprBelow(c, es[k], level) <==> forall r :: ExprReads(es[k], r) ==> LevelOf(c, r) < level {
      ExprLevels(c, es[k], level);
    }
    if forall r :: ExprsRead(es, r) ==> LevelOf(c, r) < level {
      forall k, r | 0 <= k < |es| && ExprReads(es[k], r) ensures LevelOf(c, r) < level {
        assert ExprsRead(es, r);
      }
    }
  }

  lemma DefaultsLevels(c: Config, d: Def, level: nat)
    requires d.Symbol?
    requires forall k :: 0 <= k < |d.defaults| ==>
      && SoundExpr(c, d.defaults[k].cond) && SoundExpr(c, d.defaults[k].value)
      && (!IsBoolTri(d.typ) ==> d.defaults[k].value.Val? && SymbolOperand(c, d.defaults[k].value.operand))
    ensures DefaultsBelow(c, d, level) <==> forall r :: DefaultsRead(d, r) ==> LevelOf(c, r) < level
  {
    hide DefaultBelow, DefaultReads, LevelOf, SoundExpr, SymbolOperand;
    forall k | 0 <= k < |d.defaults|
      ensures DefaultBelow(c, d.typ, d.defaults[k], level) <==> forall r :: DefaultReads(d.typ, d.defaults[k], r) ==> LevelOf(c, r) < level
    {
      DefaultLevels(c, d.typ, d.defaults[k], level);
    }
    if forall r :: DefaultsRead(d, r) ==> LevelOf(c, r) < level {
      forall k, r | 0 <= k < |d.defaults| && DefaultReads(d.typ, d.defaults[k], r) ensures LevelOf(c, r) < level {
        assert DefaultsRead(d, r);
      }
    }
  }

  lemma RangesLevels(c: Config, d: Def, level: nat)
    requires d.Symbol?
    requires forall k :: 0 <= k < |d.ranges| ==>
      SymbolOperand(c, d.ranges[k].low) && SymbolOperand(c, d.ranges[k].high) && SoundExpr(c, d.ranges[k].cond)
    ensures (forall k :: 0 <= k < |d.ranges| ==> RangeBelow(c, d.ranges[k], level)) <==>
            forall r :: RangesRead(d, r) ==> LevelOf(c, r) < level
  {
    hide RangeBelow, RangeReads, LevelOf, SoundExpr, SymbolOperand;
    forall k | 0 <= k < |d.ranges|
      ensures RangeBelow(c, d.ranges[k], level) <==> forall r :: RangeReads(d.ranges[k], r) ==> LevelOf(c, r) < level
    {
      RangeLevels(c, d.ranges[k], level);
    }
    if forall r :: RangesRead(d, r) ==> LevelOf(c, r) < level {
      forall k, r | 0 <= k < |d.ranges| && RangeReads(d.ranges[k], r) ensures LevelOf(c, r) < level {
        assert RangesRead(d, r);
      }
    }
  }

  lemma ChoiceDefaultsLevels(c: Config, d: Def, level: nat)
    requires d.Choice? && forall k :: 0 <= k < |d.choiceDefaults| ==> SoundExpr(c, d.choiceDefaults[k].cond)
    ensures (forall k :: 0 <= k < |d.choiceDefaults| ==> ExprBelow(c, d.choiceDefaults[k].cond, level)) <==>
            forall r :: ChoiceDefaultsRead(d, r) ==> LevelOf(c, r) < level
  {
    hide ExprBelow, ExprReads, LevelOf, SoundExpr;
    var ds := d.choiceDefaults;
    forall k | 0 <= k < |ds| ensures ExprBelow(c, ds[k].cond, level) <==> forall r :: ExprReads(ds[k].cond, r) ==> LevelOf(c, r) < level {
      ExprLevels(c, ds[k].cond, level);
    }
    if forall r :: ChoiceDefaultsRead(d, r) ==> LevelOf(c, r) < level {
      forall k, r | 0 <= k < |ds| && ExprReads(ds[k].cond, r) ensures LevelOf(c, r) < level {
        assert ChoiceDefaultsRead(d, r);
      }
    }
  }

  // ---------------------------------------------------------------------
  // Well-formed means ordered
  // ---------------------------------------------------------------------

  /** The level of `n` is above what its rule looks at. */
  ghost predicate OrderedAt(c: Config, n: Node) {
    forall r :: Reads(c, n, r) ==> LevelOf(c, r) < LevelOf(c, n)
  }

  ghost predicate ItemOrdered(c: Config, i: Id) {
    && OrderedAt(c, Node(i, OfVis)) && OrderedAt(c, Node(i, OfTri)) && OrderedAt(c, Node(i, OfSel))
    && OrderedAt(c, Node(i, OfStr)) && OrderedAt(c, Node(i, OfAsg))
  }

  lemma VisOrdered(c: Config, i: Id)
    requires i < |c.items| && forall k :: 0 <= k < |c.items[i].prompts| ==> SoundExpr(c, c.items[i].prompts[k])
    ensures var d := c.items[i];
      OrderedAt(c, Node(i, OfVis)) <==>
        && ExprsBelow(c, d.prompts, VisLevel(c, i))
        && (LooksAtMode(c, d) ==> TriLevel(c, d.choice.value) < VisLevel(c, i))
        && (d.typ.Tristate? ==> TriLevel(c, c.modules) < VisLevel(c, i))
  {
    var d, n := c.items[i], Node(i, OfVis);
    PromptLevels(c, d.prompts, VisLevel(c, i));
    hide ExprsRead, ExprsBelow, SoundExpr;
    if OrderedAt(c, n) {
      forall r | ExprsRead(d.prompts, r) ensures LevelOf(c, r) < VisLevel(c, i) {
        assert Reads(c, n, r);
      }
      assert LooksAtMode(c, d) ==> Reads(c, n, Node(d.choice.value, OfTri));
      assert d.typ.Tristate? ==> Reads(c, n, Node(c.modules, OfTri));
    }
  }

  lemma {:induction false} ChoiceOrdered(c: Config, i: Id)
    requires Resolved(c) && IsChoice(c, i)
    ensures WellFormedItem(c, i) <==> ItemOrdered(c, i)
  {
    var d := c.items[i];
    assert ResolvedChoice(c, i);
    VisOrdered(c, i);
    ChoiceDefaultsLevels(c, d, SelLevel(c, i));
    hide SoundExpr, ExprsBelow, ExprBelow, ChoiceDefaultsRead, VisReads, VisLevel, TriLevel, SelLevel, StrLevel, AsgLevel, Resolved;
    if ItemOrdered(c, i) {
      assert Reads(c, Node(i, OfTri), Node(i, OfVis)) && Reads(c, Node(i, OfSel), Node(i, OfTri));
      assert Reads(c, Node(i, OfStr), Node(i, OfTri)) && Reads(c, Node(i, OfAsg), Node(i, OfVis));
      forall r | ChoiceDefaultsRead(d, r) ensures LevelOf(c, r) < SelLevel(c, i) {
        assert Reads(c, Node(i, OfSel), r);
      }
      forall s | s in d.syms ensures VisLevel(c, s) < SelLevel(c, i) {
        assert Reads(c, Node(i, OfSel), Node(s, OfVis));
      }
    }
  }

  lemma LogicalOrdered(c: Config, i: Id)
    requires Resolved(c) && i < |c.items| && c.items[i].Symbol? && IsBoolTri(c.items[i].typ)
    requires c.items[i].typ.Tristate? ==> TriLevel(c, c.modules) < VisLevel(c, i)
    ensures LogicalBelow(c, i) <==>
      OrderedAt(c, Node(i, OfTri)) && OrderedAt(c, Node(i, OfStr)) && OrderedAt(c, Node(i, OfAsg))
  {
    var d := c.items[i];
    assert ResolvedSymbol(c, i);
    DefaultsLevels(c, d, TriLevel(c, i));
    ExprLevels(c, d.revDep, TriLevel(c, i));
    ExprLevels(c, d.weakRevDep, TriLevel(c, i));
    ExprLevels(c, d.directDep, TriLevel(c, i));
    ExprLevels(c, d.revDep, AsgLevel(c, i));
    ExprLevels(c, d.weakRevDep, AsgLevel(c, i));
    hide SoundExpr, DefaultsBelow, ExprBelow, ExprReads, DefaultsRead, VisReads, VisLevel, TriLevel, SelLevel, StrLevel, AsgLevel, Resolved;
    if OrderedAt(c, Node(i, OfTri)) && OrderedAt(c, Node(i, OfStr)) && OrderedAt(c, Node(i, OfAsg)) {
      assert Reads(c, Node(i, OfTri), Node(i, OfVis)) && Reads(c, Node(i, OfStr), Node(i, OfTri)) && Reads(c, Node(i, OfAsg), Node(i, OfVis));
      forall r | ExprReads(d.revDep, r) || ExprReads(d.weakRevDep, r) ensures LevelOf(c, r) < AsgLevel(c, i) {
        assert Reads(c, Node(i, OfAsg), r);
      }
      if d.choice.Some? {
        assert Reads(c, Node(i, OfTri), Node(d.choice.value, OfSel));
      } else {
        forall r | DefaultsRead(d, r) || ExprReads(d.revDep, r) || ExprReads(d.weakRevDep, r) || ExprReads(d.directDep, r)
          ensures LevelOf(c, r) < TriLevel(c, i)
        {
          assert Reads(c, Node(i, OfTri), r);
        }
      }
    }
  }

  lemma TextOrdered(c: Config, i: Id)
    requires Resolved(c) && i < |c.items| && c.items[i].Symbol? && !IsBoolTri(c.items[i].typ) && !c.items[i].typ.Unknown?
    ensures TextBelow(c, i) <==> OrderedAt(c, Node(i, OfStr))
  {
    var d := c.items[i];
    assert ResolvedSymbol(c, i);
    DefaultsLevels(c, d, StrLevel(c, i));
    RangesLevels(c, d, StrLevel(c, i));
    hide SoundExpr, DefaultsBelow, DefaultsRead, RangesRead, RangeBelow, VisReads, VisLevel, TriLevel, SelLevel, StrLevel, AsgLevel, Resolved;
    if OrderedAt(c, Node(i, OfStr)) {
      assert Reads(c, Node(i, OfStr), Node(i, OfVis));
      forall r | DefaultsRead(d, r) || (IsNumber(d) && RangesRead(d, r)) ensures LevelOf(c, r) < StrLevel(c, i) {
        assert Reads(c, Node(i, OfStr), r);
      }
    }
  }

  lemma SymbolOrdered(c: Config, i: Id)
    requires Resolved(c) && i < |c.items| && c.items[i].Symbol?
    ensures WellFormedItem(c, i) <==> ItemOrdered(c, i)
  {
    var d := c.items[i];
    assert ResolvedSymbol(c, i);
    VisOrdered(c, i);
    if IsBoolTri(d.typ) {
      if d.typ.Tristate? ==> TriLevel(c, c.modules) < VisLevel(c, i) {
        LogicalOrdered(c, i);
      }
    } else if !d.typ.Unknown? {
      TextOrdered(c, i);
    }
    hide SoundExpr, ExprsBelow, LogicalBelow, TextBelow, VisReads, StrReads, Resolved, VisLevel, TriLevel, SelLevel, StrLevel, AsgLevel;
    assert OrderedAt(c, Node(i, OfSel));
    if !IsBoolTri(d.typ) {
      assert OrderedAt(c, Node(i, OfTri)) && OrderedAt(c, Node(i, OfAsg));
      if d.typ.Unknown? {
        UnknownStr(c, i);
      }
    }
  }

  lemma UnknownStr(c: Config, i: Id)
    requires i < |c.items| && c.items[i].Symbol? && c.items[i].typ.Unknown?
    ensures OrderedAt(c, Node(i, OfStr))
  {}

  /** A configuration is well-formed exactly if its levels rise from whatever a rule looks at. */
  lemma OrderedIsWellFormed(c: Config)
    requires Resolved(c) && |c.levels| == |c.items|
    ensures WellFormed(c) <==> Ordered(c)
  {
    forall i | 0 <= i < |c.items| ensures WellFormedItem(c, i) <==> ItemOrdered(c, i) {
      if c.items[i].Symbol? {
        SymbolOrdered(c, i);
      } else {
        ChoiceOrdered(c, i);
      }
    }
    hide WellFormedItem, Reads, Resolved, LevelOf;
    if WellFormed(c) {
      forall n, r | Reads(c, n, r) ensures LevelOf(c, r) < LevelOf(c, n) {
        ReaderExists(c, n, r);
        assert WellFormedItem(c, n.id) && ItemOrdered(c, n.id) && OrderedAt(c, n);
      }
    }
    if Ordered(c) {
      forall i | 0 <= i < |c.items| ensures WellFormedItem(c, i) {
        assert ItemOrdered(c, i);
      }
      ModulesIsSymbol(c);
      ModulesNotTristate(c);
    }
  }

  lemma ReaderExists(c: Config, n: Node, r: Node)
    requires Reads(c, n, r)
    ensures n.id < |c.items|
  {}

  lemma ModulesIsSymbol(c: Config)
    requires Resolved(c)
    ensures c.modules < |c.items| && c.items[c.modules].Symbol?
  {}

  lemma ModulesNotTristate(c: Config)
    requires Resolved(c) && Ordered(c)
    ensures !c.items[c.modules].typ.Tristate?
  {
    if c.items[c.modules].typ.Tristate? {
      assert Reads(c, Node(c.modules, OfVis), Node(c.modules, OfTri));
      assert Reads(c, Node(c.modules, OfTri), Node(c.modules, OfVis));
      assert false;
    }
  }

  // ---------------------------------------------------------------------
  // When an order exists
  // ---------------------------------------------------------------------

  const Kinds: set<Kind> := {OfVis, OfTri, OfSel, OfStr, OfAsg}

  function Nodes(c: Config): set<Node> {
    set i: Id, k: Kind | 0 <= i < |c.items| && k in Kinds :: Node(i, k)
  }

  /** From what is looked at to what looks at it. */
  function Flow(c: Config): set<(Node, Node)> {
    set r, n | r in Nodes(c) && n in Nodes(c) && Reads(c, n, r) :: (r, n)
  }

  lemma {:induction false} ExprReadsInRange(c: Config, e: Expr, r: Node)
    requires SoundExpr(c, e) && ExprReads(e, r)
    ensures r.id < |c.items|
  {
    match e
    case Val(o) =>
    case And(a, b) =>
      if ExprReads(a, r) { ExprReadsInRange(c, a, r); } else { ExprReadsInRange(c, b, r); }
    case Or(a, b) =>
      if ExprReads(a, r) { ExprReadsInRange(c, a, r); } else { ExprReadsInRange(c, b, r); }
    case Not(x) => ExprReadsInRange(c, x, r);
    case Compare(_, a, b) =>
  }

  lemma DefaultReadsInRange(c: Config, t: Type, d: Default, r: Node)
    requires SoundExpr(c, d.cond) && SoundExpr(c, d.value) && DefaultReads(t, d, r)
    requires !IsBoolTri(t) ==> d.value.Val? && SymbolOperand(c, d.value.operand)
    ensures r.id < |c.items|
  {
    if ExprReads(d.cond, r) {
      ExprReadsInRange(c, d.cond, r);
    } else if ExprReads(d.value, r) {
      ExprReadsInRange(c, d.value, r);
    }
  }

  lemma SymbolReadsInRange(c: Config, n: Node, r: Node)
    requires Resolved(c) && Reads(c, n, r) && c.items[n.id].Symbol?
    ensures r.id < |c.items|
  {
    var d := c.items[n.id];
    assert ResolvedSymbol(c, n.id);
    hide SoundExpr, ExprReads, DefaultReads, LooksAtMode, NeverShown, ModeReadable, Resolved;
    if k :| 0 <= k < |d.prompts| && ExprReads(d.prompts[k], r) {
      ExprReadsInRange(c, d.prompts[k], r);
    }
    if k :| 0 <= k < |d.defaults| && DefaultReads(d.typ, d.defaults[k], r) && !d.typ.Unknown? {
      DefaultReadsInRange(c, d.typ, d.defaults[k], r);
    }
    if k :| 0 <= k < |d.ranges| && RangeReads(d.ranges[k], r) {
      if ExprReads(d.ranges[k].cond, r) {
        ExprReadsInRange(c, d.ranges[k].cond, r);
      }
    }
    if ExprReads(d.revDep, r) {
      ExprReadsInRange(c, d.revDep, r);
    }
    if ExprReads(d.weakRevDep, r) {
      ExprReadsInRange(c, d.weakRevDep, r);
    }
    if ExprReads(d.directDep, r) {
      ExprReadsInRange(c, d.directDep, r);
    }
    assert LooksAtMode(c, d) ==> d.choice.Some? by { ModeOfChoice(c, d); }
    ModulesIsSymbol(c);
  }

  lemma ModeOfChoice(c: Config, d: Def)
    ensures LooksAtMode(c, d) ==> d.Symbol? && d.choice.Some?
  {}

  lemma ChoiceReadsInRange(c: Config, n: Node, r: Node)
    requires Resolved(c) && Reads(c, n, r) && c.items[n.id].Choice?
    ensures r.id < |c.items|
  {
    var d := c.items[n.id];
    assert ResolvedChoice(c, n.id);
    hide SoundExpr, ExprReads, Resolved;
    if k :| 0 <= k < |d.prompts| && ExprReads(d.prompts[k], r) {
      ExprReadsInRange(c, d.prompts[k], r);
    }
    if k :| 0 <= k < |d.choiceDefaults| && ExprReads(d.choiceDefaults[k].cond, r) {
      ExprReadsInRange(c, d.choiceDefaults[k].cond, r);
    }
    ModulesIsSymbol(c);
  }

  lemma FlowIsReads(c: Config, n: Node, r: Node)
    requires Resolved(c)
    ensures (r, n) in Flow(c) <==> Reads(c, n, r)
  {
    if Reads(c, n, r) {
      hide Resolved, VisReads, TriReads, SelReads, StrReads, AsgReads;
      if c.items[n.id].Symbol? {
        SymbolReadsInRange(c, n, r);
      } else {
        ChoiceReadsInRange(c, n, r);
      }
      ReaderExists(c, n, r);
      InNodes(c, n);
      InNodes(c, r);
    }
  }

  lemma InNodes(c: Config, n: Node)
    requires n.id < |c.items|
    ensures n in Nodes(c)
  {
    assert n.kind == OfVis || n.kind == OfTri || n.kind == OfSel || n.kind == OfStr || n.kind == OfAsg;
    assert n == Node(n.id, n.kind) && n.kind in Kinds;
  }

  function NumberOf(number: map<Node, nat>, i: Id, k: Kind): nat {
    if Node(i, k) in number then number[Node(i, k)] else 0
  }

  function LevelsFrom(c: Config, number: map<Node, nat>): seq<Levels> {
    seq(|c.items|, i requires 0 <= i < |c.items| =>
      Levels(NumberOf(number, i, OfVis), NumberOf(number, i, OfTri), NumberOf(number, i, OfSel), NumberOf(number, i, OfStr), NumberOf(number, i, OfAsg)))
  }

  lemma SameReads(c: Config, d: Config, n: Node, r: Node)
    requires d == c.(levels := d.levels)
    ensures Reads(d, n, r) == Reads(c, n, r) && Flow(d) == Flow(c) && Resolved(d) == Resolved(c)
  {
    SameSound(c, d);
    forall n, r ensures Reads(d, n, r) == Reads(c, n, r) {}
  }

  lemma {:induction false} SameSoundExpr(c: Config, d: Config, e: Expr)
    requires d == c.(levels := d.levels)
    ensures SoundExpr(d, e) == SoundExpr(c, e)
  {
    match e
    case Val(o) =>
    case And(l, r) =>
      SameSoundExpr(c, d, l);
      SameSoundExpr(c, d, r);
    case Or(l, r) =>
      SameSoundExpr(c, d, l);
      SameSoundExpr(c, d, r);
    case Not(x) => SameSoundExpr(c, d, x);
    case Compare(_, a, b) =>
  }

  lemma SameSound(c: Config, d: Config)
    requires d == c.(levels := d.levels)
    ensures Resolved(d) == Resolved(c)
  {
    forall e ensures SoundExpr(d, e) == SoundExpr(c, e) {
      SameSoundExpr(c, d, e);
    }
    hide SoundExpr, NeverShown, ModeReadable;
    forall i | 0 <= i < |c.items|
      ensures (if d.items[i].Symbol? then ResolvedSymbol(d, i) else ResolvedChoice(d, i)) ==
              (if c.items[i].Symbol? then ResolvedSymbol(c, i) else ResolvedChoice(c, i))
    {}
  }

  lemma NumberedOrder(c: Config, number: map<Node, nat>)
    requires Resolved(c) && Numbered(Flow(c), number)
    ensures Ordered(c.(levels := LevelsFrom(c, number)))
  {
    var d := c.(levels := LevelsFrom(c, number));
    forall n, r | Reads(d, n, r) ensures LevelOf(d, r) < LevelOf(d, n) {
      SameReads(c, d, n, r);
      FlowIsReads(c, n, r);
      assert (r, n) in Flow(c);
    }
  }

  lemma OrderNumbered(c: Config) returns (number: map<Node, nat>)
    requires Resolved(c) && Ordered(c)
    ensures Numbered(Flow(c), number)
  {
    number := map n | n in Nodes(c) :: LevelOf(c, n);
    forall e | e in Flow(c) ensures e.0 in number && e.1 in number && number[e.0] < number[e.1] {
      FlowIsReads(c, e.1, e.0);
    }
  }

  /** An evaluation order exists if and only if no chain of looks comes back to its start. */
  lemma OrderExists(c: Config)
    requires Resolved(c)
    ensures (exists levels :: WellFormed(c.(levels := levels))) <==> !exists l :: Cycle(Flow(c), l)
  {
    hide Resolved, Reads, Flow, WellFormed, Ordered, LevelsFrom;
    NumberingExists(Flow(c));
    if levels :| WellFormed(c.(levels := levels)) {
      var d := c.(levels := levels);
      SameReads(c, d, Node(0, OfVis), Node(0, OfVis));
      WellFormedLength(d);
      OrderedIsWellFormed(d);
      var number := OrderNumbered(d);
    }
    if number :| Numbered(Flow(c), number) {
      var d := c.(levels := LevelsFrom(c, number));
      SameReads(c, d, Node(0, OfVis), Node(0, OfVis));
      NumberedOrder(c, number);
      assert |d.levels| == |d.items| by { LevelsLength(c, number); }
      OrderedIsWellFormed(d);
    }
  }

  lemma WellFormedLength(c: Config)
    requires WellFormed(c)
    ensures |c.levels| == |c.items|
  {}

  lemma LevelsLength(c: Config, number: map<Node, nat>)
    ensures |LevelsFrom(c, number)| == |c.items|
  {}
}
