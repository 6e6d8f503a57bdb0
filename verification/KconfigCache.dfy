/**
The caching evaluator: symbols and choices with `_cached_*` fields, filled on
demand and cleared by an invalidation walk that stops at items without a cached
visibility. Reads return the cache-free values of KconfigValues after any
sequence of reads, assignments and resets.
*/
module KconfigCache {
  import opened Options
  import opened KconfigModel
  import opened KconfigSemantics
  import opened KconfigSettings
  import opened KconfigValues
  import opened ConfigText
  import opened KconfigFile
  import opened KconfigGrowth
  import opened KconfigInvalidation

  // ---------------------------------------------------------------------
  // The objects
  // ---------------------------------------------------------------------

  /** A symbol or choice: what the user set and what has been computed. */
  class Item {
    var cachedVis: Option<Tri>
    var cachedTri: Option<Tri>
    var cachedStr: Option<string>
    var cachedSelection: Option<Option<Id>>
    var cachedAssignable: Option<seq<Tri>>
    var writeToConf: bool
    var userValue: Option<UserValue>
    var userSelection: Option<Id>
    var wasSet: bool

    constructor ()
      ensures Blank(this)
    {
      cachedVis, cachedTri, cachedStr, cachedSelection, cachedAssignable := None, None, None, None, None;
      writeToConf, userValue, userSelection, wasSet := false, None, None, false;
    }
  }

  predicate Blank(item: Item)
    reads item
  {
    && item.cachedVis == None && item.cachedTri == None && item.cachedStr == None
    && item.cachedSelection == None && item.cachedAssignable == None
    && item.userValue == None && item.userSelection == None && !item.wasSet
  }

  class Kconfig {
    const c: Config
    const items: seq<Item>
    const dependents: seq<set<Id>>
    const syms: Names

    // The modes of choices computed since their visibility was cached. The source
    // recomputes a mode on every read; its visibility is what is cached.
    ghost var modes: map<Id, Tri>

    ghost predicate Distinct() {
      forall i, j :: 0 <= i < j < |items| ==> items[i] != items[j]
    }

    ghost predicate Shape() {
      && WellFormed(c)
      && |items| == |c.items| && |dependents| == |c.items|
      && Distinct()
      && (forall i :: 0 <= i < |dependents| ==> dependents[i] == Dependents(c, i))
    }

    ghost function FirstSettings(k: nat): (us: Users)
      requires k <= |items|
      reads items`userValue, items`userSelection
      ensures |us| == k
      ensures forall i :: 0 <= i < k ==> us[i] == User(items[i].userValue, items[i].userSelection)
    {
      if k == 0 then [] else FirstSettings(k - 1) + [User(items[k - 1].userValue, items[k - 1].userSelection)]
    }

    ghost function Settings(): Users
      reads items`userValue, items`userSelection
    {
      FirstSettings(|items|)
    }

    /** The items whose `_was_set` flag is on. */
    ghost function Touched(): set<Id>
      reads items`wasSet
    {
      set i: Id | 0 <= i < |items| && items[i].wasSet
    }

    ghost function State(): UserState
      reads items
    {
      UserState(Settings(), Touched())
    }

    ghost function VisCache(): map<Id, Tri>
      reads items`cachedVis
    {
      map i: Id | 0 <= i < |items| && items[i].cachedVis.Some? :: items[i].cachedVis.value
    }

    ghost function TriCache(): map<Id, (Tri, bool)>
      requires |items| == |c.items|
      reads `modes, items`cachedTri, items`writeToConf
    {
      map i: Id | 0 <= i < |items| && (if c.items[i].Choice? then i in modes else items[i].cachedTri.Some?) ::
        if c.items[i].Choice? then (modes[i], false)
        else (items[i].cachedTri.value, IsBoolTri(c.items[i].typ) && items[i].writeToConf)
    }

    ghost function StrCache(): map<Id, (string, bool)>
      requires |items| == |c.items|
      reads items`cachedStr, items`writeToConf
    {
      map i: Id | 0 <= i < |items| && c.items[i].Symbol? && items[i].cachedStr.Some? ::
        (items[i].cachedStr.value, !IsBoolTri(c.items[i].typ) && !c.items[i].typ.Unknown? && items[i].writeToConf)
    }

    ghost function SelCache(): map<Id, Option<Id>>
      reads items`cachedSelection
    {
      map i: Id | 0 <= i < |items| && items[i].cachedSelection.Some? :: items[i].cachedSelection.value
    }

    ghost function AsgCache(): map<Id, seq<Tri>>
      reads items`cachedAssignable
    {
      map i: Id | 0 <= i < |items| && items[i].cachedAssignable.Some? :: items[i].cachedAssignable.value
    }

    /** The cached values, with the write flag each of them left behind. */
    ghost function Caches(): Env
      requires |items| == |c.items|
      reads `modes, items`cachedVis, items`cachedTri, items`cachedStr, items`writeToConf
      reads items`cachedSelection, items`cachedAssignable
    {
      Env(VisCache(), TriCache(), StrCache(), SelCache(), AsgCache())
    }

    ghost predicate Valid()
      reads `modes, items
    {
      && Shape()
      && Sound(c, Settings(), Caches())
    }

    /** The state after a read: caches may have grown, nothing else changed. */
    twostate predicate ReadOnly()
      reads this, items
    {
      && old(Valid()) && Valid()
      && unchanged(items`userValue) && unchanged(items`userSelection) && unchanged(items`wasSet)
      && Settings() == old(Settings())
      && Within(old(Caches()), Caches())
    }

    // -------------------------------------------------------------------
    // Filling one cache field
    // -------------------------------------------------------------------

    method SetVis(i: Id, v: Tri)
      requires |items| == |c.items| && Distinct() && i < |items|
      modifies items`cachedVis
      ensures Caches() == old(Caches()).(vis := old(Caches().vis)[i := v])
    {
      items[i].cachedVis := Some(v);
    }

    method StoreVis(i: Id, v: Tri)
      requires Valid() && i < |items|
      requires Visibility(i, c, View(Caches(), Readable(c, i))) == Some(v)
      modifies items`cachedVis
      ensures ReadOnly() && i in Caches().vis && Caches().vis[i] == v
    {
      hide Visibility, Readable, WellFormed, Sound, Within, Caches, Distinct;
      VisStored(c, Settings(), Caches(), i, v);
      SetVis(i, v);
    }

    method SetTri(i: Id, v: Tri, write: bool)
      requires |items| == |c.items| && Distinct() && i < |items| && c.items[i].Symbol? && IsBoolTri(c.items[i].typ)
      modifies items`cachedTri, items`writeToConf
      ensures TriCache() == old(TriCache())[i := (v, write)] && StrCache() == old(StrCache())
    {
      items[i].writeToConf := write;
      items[i].cachedTri := Some(v);
      assert TriCache() == old(TriCache())[i := (v, write)] by { hide StrCache; }
      hide TriCache;
    }

    method StoreTri(i: Id, v: Tri, write: bool)
      requires Valid() && i < |items| && c.items[i].Symbol? && IsBoolTri(c.items[i].typ) && i in Caches().vis
      requires TriValue(i, c, Settings()[i], View(Caches(), Readable(c, i))) == Some((v, write))
      modifies items`cachedTri, items`writeToConf
      ensures ReadOnly() && i in Caches().tri && Caches().tri[i].0 == v
    {
      hide TriValue, Readable, WellFormed, Sound, Within, TriCache, StrCache;
      TriStored(c, Settings(), Caches(), i, (v, write));
      SetTri(i, v, write);
    }

    method SetConstantTri(i: Id)
      requires |items| == |c.items| && Distinct() && i < |items| && ConstantTri(c, i)
      modifies items`cachedTri
      ensures TriCache() == old(TriCache())[i := (0, false)]
    {
      items[i].cachedTri := Some(0);
    }

    method StoreConstantTri(i: Id)
      requires Valid() && i < |items| && ConstantTri(c, i)
      modifies items`cachedTri
      ensures ReadOnly() && i in Caches().tri && Caches().tri[i].0 == 0
    {
      hide TriValue, Readable, WellFormed, Sound, Within, TriCache;
      ConstantValues(c, Settings()[i], View(Caches(), Readable(c, i)), i);
      TriStored(c, Settings(), Caches(), i, (0, false));
      SetConstantTri(i);
    }

    ghost method SetMode(i: Id, v: Tri)
      requires |items| == |c.items| && IsChoice(c, i)
      modifies `modes
      ensures TriCache() == old(TriCache())[i := (v, false)]
    {
      modes := modes[i := v];
    }

    ghost method StoreMode(i: Id, v: Tri)
      requires Valid() && IsChoice(c, i)
      requires i in Caches().vis
      requires Mode(i, c, Settings()[i], View(Caches(), Readable(c, i))) == Some(v)
      modifies `modes
      ensures ReadOnly() && i in Caches().tri && Caches().tri[i].0 == v
    {
      hide Mode, Readable, WellFormed, Sound, Within, TriCache;
      TriStored(c, Settings(), Caches(), i, (v, false));
      SetMode(i, v);
    }

    /** The fields of an item and what they contribute to the caches. */
    lemma CachedFields(i: Id)
      requires |items| == |c.items| && i < |items|
      ensures items[i].cachedVis.Some? <==> i in Caches().vis
      ensures items[i].cachedVis.Some? ==> Caches().vis[i] == items[i].cachedVis.value
      ensures c.items[i].Symbol? ==> (items[i].cachedTri.Some? <==> i in Caches().tri)
      ensures c.items[i].Symbol? && items[i].cachedTri.Some? ==> Caches().tri[i].0 == items[i].cachedTri.value
      ensures c.items[i].Symbol? ==> (items[i].cachedStr.Some? <==> i in Caches().str)
      ensures c.items[i].Symbol? && items[i].cachedStr.Some? ==> Caches().str[i].0 == items[i].cachedStr.value
      ensures items[i].cachedSelection.Some? <==> i in Caches().sel
      ensures items[i].cachedSelection.Some? ==> Caches().sel[i] == items[i].cachedSelection.value
      ensures items[i].cachedAssignable.Some? <==> i in Caches().asg
      ensures items[i].cachedAssignable.Some? ==> Caches().asg[i] == items[i].cachedAssignable.value
    {}

    /** What is cached for an item is its value. */
    lemma ValueIs(i: Id)
      requires Valid()
      ensures WithinAt(Caches(), Values(c, Settings()), i)
    {
      hide Justified, Marked, Caches, WellFormed, Values, Total;
      ValuesExistUniquely(c, Settings());
    }

    lemma ReadCached(i: Id)
      requires Valid() && i < |items|
      ensures JustifiedAt(c, Settings()[i], Caches(), i) && MarkedAt(c, Caches(), i)
    {
      hide JustifiedAt, MarkedAt, WellFormed;
      assert JustifiedAt(c, UserOf(Settings(), i), Caches(), i);
    }

    method SetStr(i: Id, v: string, write: bool)
      requires |items| == |c.items| && Distinct() && i < |items| && c.items[i].Symbol?
      requires !IsBoolTri(c.items[i].typ) && !c.items[i].typ.Unknown?
      modifies items`cachedStr, items`writeToConf
      ensures StrCache() == old(StrCache())[i := (v, write)] && TriCache() == old(TriCache())
    {
      hide StrCache, TriCache;
      SetWrite(i, write);
      SetFlaggedStr(i, v);
    }

    /** The flag of a symbol that is neither bool nor tristate. */
    method SetWrite(i: Id, write: bool)
      requires |items| == |c.items| && Distinct() && i < |items| && c.items[i].Symbol?
      requires !IsBoolTri(c.items[i].typ) && !c.items[i].typ.Unknown?
      modifies items`writeToConf
      ensures TriCache() == old(TriCache()) && StrCache() - {i} == old(StrCache()) - {i}
      ensures items[i].writeToConf == write
    {
      items[i].writeToConf := write;
    }

    method SetFlaggedStr(i: Id, v: string)
      requires |items| == |c.items| && Distinct() && i < |items| && c.items[i].Symbol?
      requires !IsBoolTri(c.items[i].typ) && !c.items[i].typ.Unknown?
      modifies items`cachedStr
      ensures StrCache() == (old(StrCache()) - {i})[i := (v, items[i].writeToConf)]
    {
      items[i].cachedStr := Some(v);
    }

    method StoreStr(i: Id, v: string, write: bool)
      requires Valid() && i < |items| && c.items[i].Symbol? && i in Caches().vis
      requires !IsBoolTri(c.items[i].typ) && !c.items[i].typ.Unknown?
      requires StrValue(i, c, Settings()[i], View(Caches(), Readable(c, i))) == Some((v, write))
      modifies items`cachedStr, items`writeToConf
      ensures ReadOnly() && i in Caches().str && Caches().str[i].0 == v
    {
      hide StrValue, Readable, WellFormed, Sound, Within, StrCache, TriCache;
      StrStored(c, Settings(), Caches(), i, (v, write));
      SetStr(i, v, write);
    }

    method SetPlainStr(i: Id, v: string)
      requires |items| == |c.items| && Distinct() && i < |items| && c.items[i].Symbol?
      requires IsBoolTri(c.items[i].typ) || c.items[i].typ.Unknown?
      modifies items`cachedStr
      ensures Caches() == old(Caches()).(str := old(Caches().str)[i := (v, false)])
    {
      items[i].cachedStr := Some(v);
    }

    /** The string of a bool, tristate or untyped symbol; `_write_to_conf` is not touched. */
    method StorePlainStr(i: Id, v: string)
      requires Valid() && i < |items| && c.items[i].Symbol? && (i in Caches().vis || ConstantStr(c, i))
      requires IsBoolTri(c.items[i].typ) || c.items[i].typ.Unknown?
      requires StrValue(i, c, Settings()[i], View(Caches(), Readable(c, i))) == Some((v, false))
      modifies items`cachedStr
      ensures ReadOnly() && i in Caches().str && Caches().str[i].0 == v
    {
      hide StrValue, Readable, WellFormed, Sound, Within, Caches, Distinct;
      StrStored(c, Settings(), Caches(), i, (v, false));
      SetPlainStr(i, v);
    }

    method SetSel(i: Id, v: Option<Id>)
      requires |items| == |c.items| && Distinct() && i < |items|
      modifies items`cachedSelection
      ensures Caches() == old(Caches()).(sel := old(Caches().sel)[i := v])
    {
      hide VisCache, TriCache, StrCache, AsgCache;
      items[i].cachedSelection := Some(v);
      assert SelCache() == old(SelCache())[i := v];
      hide SelCache;
    }

    method StoreSelection(i: Id, v: Option<Id>)
      requires Valid() && IsChoice(c, i) && i in Caches().vis
      requires Selection(i, c, Settings()[i], View(Caches(), Readable(c, i))) == Some(v)
      modifies items`cachedSelection
      ensures ReadOnly() && i in Caches().sel && Caches().sel[i] == v
    {
      hide Selection, Readable, WellFormed, Sound, Within, Caches, Distinct;
      SelStored(c, Settings(), Caches(), i, v);
      SetSel(i, v);
    }

    method SetAsg(i: Id, v: seq<Tri>)
      requires |items| == |c.items| && Distinct() && i < |items|
      modifies items`cachedAssignable
      ensures Caches() == old(Caches()).(asg := old(Caches().asg)[i := v])
    {
      hide VisCache, TriCache, StrCache, SelCache;
      items[i].cachedAssignable := Some(v);
      assert AsgCache() == old(AsgCache())[i := v];
      hide AsgCache;
    }

    method StoreAssignable(i: Id, v: seq<Tri>)
      requires Valid() && i < |items| && (i in Caches().vis || ConstantTri(c, i))
      requires Assignable(i, c, View(Caches(), Readable(c, i))) == Some(v)
      modifies items`cachedAssignable
      ensures ReadOnly() && i in Caches().asg && Caches().asg[i] == v
    {
      hide Assignable, Readable, WellFormed, Sound, Within, Caches, Distinct;
      AsgStored(c, Settings(), Caches(), i, v);
      SetAsg(i, v);
    }

    // -------------------------------------------------------------------
    // Expressions
    // -------------------------------------------------------------------

    /** expr_value() on behalf of item `i`. */
    method ExprVal(x: Expr, ghost i: Id, ghost level: nat) returns (r: Tri)
      requires Valid() && i < |items| && MayRead(c, i, x, level)
      modifies `modes, items
      ensures ReadOnly() && ExprValue(x, c, View(Caches(), Readable(c, i))) == Some(r)
      decreases level, 3, x
    {
      hide WellFormed, Sound, Readable, Within, Caches, Distinct;
      ghost var e0 := Caches();
      match x
      case Val(o) =>
        r := OperandTri(o, i, level);
      case And(a, b) =>
        var v1 := ExprVal(a, i, level);
        ghost var e := Caches();
        if v1 == 0 {
          r := 0;
        } else {
          var v2 := ExprVal(b, i, level);
          WithinTrans(e0, e, Caches());
          KeepExpr(a, c, i, e, Caches(), level);
          r := Min(v1, v2);
        }
      case Or(a, b) =>
        var v1 := ExprVal(a, i, level);
        ghost var e := Caches();
        if v1 == 2 {
          r := 2;
        } else {
          var v2 := ExprVal(b, i, level);
          WithinTrans(e0, e, Caches());
          KeepExpr(a, c, i, e, Caches(), level);
          r := Max(v1, v2);
        }
      case Not(a) =>
        var v1 := ExprVal(a, i, level);
        r := 2 - v1;
      case Compare(rel, a, b) =>
        var comp := CompareOperands(a, b, i, level);
        r := if Holds(rel, comp) then 2 else 0;
    }

    method OperandTri(o: Operand, ghost i: Id, ghost level: nat) returns (r: Tri)
      requires Valid() && i < |items| && TriBelow(c, o, level) && OperandItems(o) <= Readable(c, i)
      modifies `modes, items
      ensures ReadOnly() && View(Caches(), Readable(c, i)).Tri(o) == Some(r)
      decreases level, 0
    {
      hide WellFormed, Sound, Readable, Within, Caches, Distinct;
      WithinSelf(Caches());
      match o
      case Const(_, t, _) => r := t;
      case Item(j) =>
        assert j in OperandItems(o);
        r := TriVal(j);
    }

    method OperandStr(o: Operand, ghost i: Id, ghost level: nat) returns (r: string)
      requires Valid() && i < |items| && StrBelow(c, o, level) && OperandItems(o) <= Readable(c, i)
      modifies `modes, items
      ensures ReadOnly() && View(Caches(), Readable(c, i)).Str(o) == Some(r)
      decreases level, 0
    {
      hide WellFormed, Sound, Readable, Within, Caches, Distinct;
      WithinSelf(Caches());
      match o
      case Const(_, _, s) => r := s;
      case Item(j) =>
        assert j in OperandItems(o);
        r := StrVal(j);
    }

    method OperandNum(o: Operand, ghost i: Id, ghost level: nat) returns (r: Option<int>)
      requires Valid() && i < |items| && StrBelow(c, o, level) && OperandItems(o) <= Readable(c, i)
      modifies `modes, items
      ensures ReadOnly() && SymToNum(o, c, View(Caches(), Readable(c, i))) == Some(r)
      decreases level, 1
    {
      hide WellFormed, Sound, Readable, Within, Caches, Distinct;
      if IsBoolTri(OrigType(c, o)) {
        var t := OperandTri(o, i, level);
        r := Some(t);
      } else {
        var s := OperandStr(o, i, level);
        r := c.lib.parseInt(s, Base(OrigType(c, o)));
      }
    }

    method CompareStrings(a: Operand, b: Operand, ghost i: Id, ghost level: nat) returns (r: int)
      requires Valid() && i < |items| && StrBelow(c, a, level) && StrBelow(c, b, level)
      requires OperandItems(a) <= Readable(c, i) && OperandItems(b) <= Readable(c, i)
      modifies `modes, items
      ensures ReadOnly() && CompareAsStrings(a, b, c, View(Caches(), Readable(c, i))) == Some(r)
      decreases level, 1
    {
      hide WellFormed, Sound, Readable, Within, Caches, Distinct;
      ghost var e0 := Caches();
      var s1 := OperandStr(a, i, level);
      ghost var e := Caches();
      var s2 := OperandStr(b, i, level);
      WithinTrans(e0, e, Caches());
      KeepOperand(a, c, i, e, Caches(), level);
      r := c.lib.strcmp(s1, s2);
    }

    method CompareOperands(a: Operand, b: Operand, ghost i: Id, ghost level: nat) returns (r: int)
      requires Valid() && i < |items| && StrBelow(c, a, level) && StrBelow(c, b, level)
      requires OperandItems(a) <= Readable(c, i) && OperandItems(b) <= Readable(c, i)
      modifies `modes, items
      ensures ReadOnly() && Comparison(a, b, c, View(Caches(), Readable(c, i))) == Some(r)
      decreases level, 2
    {
      hide SymToNum, CompareAsStrings, StrBelow, WellFormed, Sound, Readable, Within, Caches, Distinct;
      if OrigType(c, a).String? && OrigType(c, b).String? {
        r := CompareStrings(a, b, i, level);
      } else {
        ghost var e0 := Caches();
        var n1 := OperandNum(a, i, level);
        ghost var e := Caches();
        if n1.None? {
          r := CompareStrings(a, b, i, level);
          WithinTrans(e0, e, Caches());
          KeepOperand(a, c, i, e, Caches(), level);
        } else {
          var n2 := OperandNum(b, i, level);
          ghost var f := Caches();
          WithinTrans(e0, e, f);
          KeepOperand(a, c, i, e, f, level);
          if n2.None? {
            r := CompareStrings(a, b, i, level);
            WithinTrans(e0, f, Caches());
            KeepOperand(a, c, i, f, Caches(), level);
            KeepOperand(b, c, i, f, Caches(), level);
          } else {
            r := n1.value - n2.value;
          }
        }
      }
    }

    // -------------------------------------------------------------------
    // Visibility and mode
    // -------------------------------------------------------------------

    /** The `type` property */
    method TypeOfItem(i: Id) returns (t: Type)
      requires Valid() && i < |items| && ModeReadable(c.items[i])
      modifies `modes, items
      ensures ReadOnly() && TypeOf(i, c, View(Caches(), Readable(c, i))) == Some(t)
      decreases VisLevel(c, i), 4
    {
      hide WellFormed, Readable, Sound, Within, Caches, Distinct;
      hide VisLevel, TriLevel;
      ghost var e0 := Caches();
      WithinSelf(e0);
      ModeFacts(c, i);
      var d := c.items[i];
      t := d.typ;
      if d.typ.Tristate? {
        var inYChoice := false;
        if d.Symbol? && d.choice.Some? {
          var mode := TriVal(d.choice.value);
          inYChoice := mode == 2;
        }
        ghost var e1 := Caches();
        if inYChoice {
          t := Bool;
        } else {
          var m := TriVal(c.modules);
          WithinTrans(e0, e1, Caches());
          WithinItem(e1, Caches(), if d.Symbol? && d.choice.Some? then d.choice.value else i);
          t := if m == 0 then Bool else Tristate;
        }
      }
    }

    /** _visibility() */
    method ComputeVis(i: Id) returns (vis: Tri)
      requires Valid() && i < |items|
      modifies `modes, items
      ensures ReadOnly() && Visibility(i, c, View(Caches(), Readable(c, i))) == Some(vis)
      decreases VisLevel(c, i), 5
    {
      hide WellFormed, Sound, Within, Caches, Distinct, Readable;
      var d := c.items[i];
      ghost var e0 := Caches();
      WithinSelf(e0);
      vis := 0;
      var k := 0;
      while k < |d.prompts|
        invariant 0 <= k <= |d.prompts|
        invariant ReadOnly()
        invariant PromptValue(d.prompts, k, c, View(Caches(), Readable(c, i))) == Some(vis)
      {
        PromptReadable(c, i, k);
        ghost var e := Caches();
        var p := ExprVal(d.prompts[k], i, VisLevel(c, i));
        KeepPrompts(c, i, k, e, Caches());
        WithinTrans(e0, e, Caches());
        vis := Max(vis, p);
        k := k + 1;
      }
      ghost var e := Caches();
      VisibleReadsMode(c, i, View(e, Readable(c, i)), vis);
      var hidden := HiddenNow(i, vis);
      ghost var f := Caches();
      WithinTrans(e0, e, f);
      KeepPrompts(c, i, |d.prompts|, e, f);
      if hidden {
        vis := 0;
      } else if vis == 1 {
        var t := TypeOfItem(i);
        WithinTrans(e0, f, Caches());
        KeepPrompts(c, i, |d.prompts|, f, Caches());
        KeepHidden(c, i, 1, f, Caches());
        vis := if t.Tristate? then 1 else 2;
      }
    }

    /** The part of _visibility() that looks at the mode of the choice. */
    method HiddenNow(i: Id, vis: Tri) returns (hidden: bool)
      requires Valid() && i < |items| && (vis != 0 ==> ModeReadable(c.items[i]))
      modifies `modes, items
      ensures ReadOnly() && (vis != 0 ==> HiddenByChoice(c.items[i], vis, c, View(Caches(), Readable(c, i))) == Some(hidden))
      decreases VisLevel(c, i), 4
    {
      hide WellFormed, Readable, Sound, Within, Caches, Distinct;
      hide VisLevel, TriLevel;
      WithinSelf(Caches());
      ModeFacts(c, i);
      var d := c.items[i];
      hidden := false;
      if d.Symbol? && d.choice.Some? {
        var typ := c.items[d.choice.value].typ;
        if typ.Tristate? && !d.typ.Tristate? {
          var mode := TriVal(d.choice.value);
          hidden := mode != 2;
        } else if d.typ.Tristate? && vis == 1 {
          var mode := TriVal(d.choice.value);
          hidden := mode == 2;
        }
      }
    }

    /** The `visibility` property */
    method Vis(i: Id) returns (vis: Tri)
      requires Valid() && i < |items|
      modifies `modes, items
      ensures ReadOnly() && i in Caches().vis && Caches().vis[i] == vis
      decreases VisLevel(c, i), 6
    {
      hide WellFormed, Sound, Within, Caches, Distinct, Readable, Visibility, VisLevel;
      WithinSelf(Caches());
      CachedFields(i);
      if items[i].cachedVis.Some? {
        vis := items[i].cachedVis.value;
      } else {
        ghost var e0 := Caches();
        vis := ComputeVis(i);
        ghost var e := Caches();
        StoreVis(i, vis);
        WithinTrans(e0, e, Caches());
      }
    }

    /** Choice.tri_value */
    method ModeVal(i: Id) returns (v: Tri)
      requires Valid() && IsChoice(c, i)
      modifies `modes, items
      ensures ReadOnly() && i in Caches().tri && Caches().tri[i].0 == v
      decreases TriLevel(c, i), 3
    {
      hide WellFormed, Sound, Within, Caches, Distinct, Readable;
      ghost var e0 := Caches();
      LogicalFacts(c, i);
      v := if c.items[i].optional then 0 else 1;
      if items[i].userValue.Some? && items[i].userValue.value.UTri? {
        v := Max(v, items[i].userValue.value.tri);
      }
      var vis := Vis(i);
      ghost var e := Caches();
      v := Min(v, vis);
      OwnReadable(c, i);
      if v == 1 {
        var t := TypeOfItem(i);
        WithinItem(e, Caches(), i);
        WithinTrans(e0, e, Caches());
        if t.Bool? {
          v := 2;
        }
      }
      ghost var f := Caches();
      StoreMode(i, v);
      WithinTrans(e0, f, Caches());
    }

    // -------------------------------------------------------------------
    // Symbol values
    // -------------------------------------------------------------------

    /** The first default whose condition is not n, with the value of the condition. */
    method FindDefault(i: Id) returns (r: Option<(Expr, Tri)>)
      requires Valid() && i < |items| && UsesDefaults(c.items[i])
      modifies `modes, items
      ensures ReadOnly() && ActiveDefault(c.items[i].defaults, 0, c, View(Caches(), Readable(c, i))) == Some(r)
      decreases ValueLevel(c, i), 5
    {
      hide WellFormed, Sound, Within, Caches, Distinct, Readable;
      var ds := c.items[i].defaults;
      ghost var e0 := Caches();
      WithinSelf(e0);
      var k := 0;
      while k < |ds|
        invariant 0 <= k <= |ds|
        invariant ReadOnly()
        invariant Inactive(ds, k, c, View(Caches(), Readable(c, i)))
      {
        DefaultReadable(c, i, k);
        ghost var e := Caches();
        var cond := ExprVal(ds[k].cond, i, ValueLevel(c, i));
        WithinTrans(e0, e, Caches());
        KeepInactive(c, i, k, e, Caches());
        if cond != 0 {
          SkipInactive(ds, k, c, View(Caches(), Readable(c, i)));
          return Some((ds[k].value, cond));
        }
        k := k + 1;
      }
      SkipInactive(ds, k, c, View(Caches(), Readable(c, i)));
      r := None;
    }

    /** Value and write flag from the defaults and implies of a bool or tristate symbol. */
    method DefaultsVal(i: Id, vis: Tri) returns (r: (Tri, bool))
      requires Valid() && i < |items| && UsesDefaults(c.items[i]) && IsBoolTri(c.items[i].typ)
      modifies `modes, items
      ensures ReadOnly() && DefaultTri(c.items[i], vis != 0, c, View(Caches(), Readable(c, i))) == Some(r)
      decreases TriLevel(c, i), 6
    {
      hide WellFormed, Sound, Within, Caches, Distinct, Readable;
      ghost var e0 := Caches();
      r := (0, vis != 0);
      var active := FindDefault(i);
      if active.Some? {
        ghost var e := Caches();
        ActiveReadable(c, i, View(e, Readable(c, i)));
        var x := ExprVal(active.value.0, i, TriLevel(c, i));
        WithinTrans(e0, e, Caches());
        KeepActive(c, i, e, Caches());
        var val := Min(x, active.value.1);
        r := (val, vis != 0 || val != 0);
      }
    }

    method BaseVal(i: Id, vis: Tri) returns (r: (Tri, bool))
      requires Valid() && i < |items| && UsesDefaults(c.items[i]) && IsBoolTri(c.items[i].typ)
      modifies `modes, items
      ensures ReadOnly() && BaseTri(c.items[i], Settings()[i], vis, c, View(Caches(), Readable(c, i))) == Some(r)
      decreases TriLevel(c, i), 7
    {
      hide WellFormed, Sound, Within, Caches, Distinct, Readable;
      ghost var e0 := Caches();
      WithinSelf(e0);
      var d := c.items[i];
      var u := items[i].userValue;
      if vis != 0 && u.Some? && u.value.UTri? {
        r := (Min(u.value.tri, vis), true);
      } else {
        r := DefaultsVal(i, vis);
        ghost var e1 := Caches();
        PlainReadable(c, i);
        var weak := ExprVal(d.weakRevDep, i, TriLevel(c, i));
        ghost var e2 := Caches();
        WithinTrans(e0, e1, e2);
        KeepDefaultTri(c, i, vis != 0, e1, e2);
        if weak != 0 {
          var direct := ExprVal(d.directDep, i, TriLevel(c, i));
          WithinTrans(e0, e2, Caches());
          KeepDefaultTri(c, i, vis != 0, e2, Caches());
          KeepExpr(d.weakRevDep, c, i, e2, Caches(), TriLevel(c, i));
          if direct != 0 {
            r := (Max(weak, r.0), true);
          }
        }
      }
    }

    method PromotedVal(i: Id, val: Tri) returns (r: Tri)
      requires Valid() && i < |items| && UsesDefaults(c.items[i]) && IsBoolTri(c.items[i].typ)
      modifies `modes, items
      ensures ReadOnly() && PromoteValue(i, val, c, View(Caches(), Readable(c, i))) == Some(r)
      decreases TriLevel(c, i), 7
    {
      hide WellFormed, Sound, Within, Caches, Distinct, Readable, TypeOf;
      ghost var e0 := Caches();
      WithinSelf(e0);
      r := val;
      if val == 1 {
        PlainReadable(c, i);
        var t := TypeOfItem(i);
        ghost var e1 := Caches();
        if t.Bool? {
          r := 2;
        } else {
          var weak := ExprVal(c.items[i].weakRevDep, i, TriLevel(c, i));
          WithinTrans(e0, e1, Caches());
          KeepType(c, i, e1, Caches());
          if weak == 2 {
            r := 2;
          }
        }
      }
    }

    /** tri_value of a bool or tristate symbol outside choices */
    method PlainVal(i: Id, vis: Tri) returns (v: Tri, write: bool)
      requires Valid() && i < |items| && UsesDefaults(c.items[i]) && IsBoolTri(c.items[i].typ)
      modifies `modes, items
      ensures ReadOnly() && PlainTri(i, c, Settings()[i], vis, View(Caches(), Readable(c, i))) == Some((v, write))
      decreases TriLevel(c, i), 8
    {
      hide WellFormed, Sound, Within, Caches, Distinct, Readable;
      hide BaseTri, PromoteValue, ExprValue;
      ghost var e0 := Caches();
      var d := c.items[i];
      var base := BaseVal(i, vis);
      v, write := base.0, base.1;
      ghost var e1 := Caches();
      PlainReadable(c, i);
      var rev := ExprVal(d.revDep, i, TriLevel(c, i));
      ghost var e2 := Caches();
      WithinTrans(e0, e1, e2);
      KeepBaseTri(c, i, Settings()[i], vis, e1, e2);
      ghost var e3 := e2;
      if rev != 0 {
        // the warning about unsatisfied direct dependencies
        var direct := ExprVal(d.directDep, i, TriLevel(c, i));
        e3 := Caches();
        WithinTrans(e0, e2, e3);
        KeepBaseTri(c, i, Settings()[i], vis, e2, e3);
        KeepExpr(d.revDep, c, i, e2, e3, TriLevel(c, i));
        v, write := Max(rev, v), true;
      }
      v := PromotedVal(i, v);
      WithinTrans(e0, e3, Caches());
      KeepBaseTri(c, i, Settings()[i], vis, e3, Caches());
      KeepExpr(d.revDep, c, i, e3, Caches(), TriLevel(c, i));
    }

    /** tri_value of a bool or tristate symbol in a choice */
    method ChoiceSymbolVal(i: Id, vis: Tri) returns (v: Tri, write: bool)
      requires Valid() && i < |items| && c.items[i].Symbol? && c.items[i].choice.Some? && IsBoolTri(c.items[i].typ)
      requires vis != 0 ==> ModeReadable(c.items[i])
      modifies `modes, items
      ensures ReadOnly()
      ensures ChoiceSymbolTri(i, c.items[i].choice.value, Settings()[i], vis, View(Caches(), Readable(c, i))) == Some((v, write))
      decreases TriLevel(c, i), 3
    {
      hide WellFormed, Sound, Within, Caches, Distinct, Readable;
      WithinSelf(Caches());
      v, write := 0, vis != 0;
      var u := items[i].userValue;
      if vis == 2 {
        MemberFacts(c, i);
        ModeFacts(c, i);
        var s := SelectionVal(c.items[i].choice.value);
        if s == Some(i) {
          v := 2;
        }
      } else if vis != 0 && u.Some? && u.value.UTri? && u.value.tri != 0 {
        v := 1;
      }
    }

    /** A symbol seen to be visible reads the mode of its choice. */
    lemma SeenReadsMode(i: Id)
      requires Valid() && i < |items| && i in Caches().vis
      ensures Caches().vis[i] != 0 ==> ModeReadable(c.items[i])
    {
      hide WellFormed, Caches, NeverShown, ModeReadable;
      ReadCached(i);
      JustifiedNotSeen(c, Settings()[i], Caches(), i);
      if !NeverShown(c.items[i]) {
        ShownReadsMode(c, i);
      }
    }

    /** The `tri_value` property of symbols and choices */
    method TriVal(i: Id) returns (v: Tri)
      requires Valid() && i < |items|
      modifies `modes, items
      ensures ReadOnly() && i in Caches().tri && Caches().tri[i].0 == v
      decreases TriLevel(c, i), 9
    {
      hide WellFormed, Sound, Within, Caches, Distinct, Readable, PlainTri, ChoiceSymbolTri;
      CachedFields(i);
      ghost var e0 := Caches();
      WithinSelf(e0);
      var d := c.items[i];
      if d.Choice? {
        v := ModeVal(i);
      } else if items[i].cachedTri.Some? {
        v := items[i].cachedTri.value;
      } else if !IsBoolTri(d.typ) {
        StoreConstantTri(i);
        v := 0;
      } else {
        LogicalFacts(c, i);
        var vis := Vis(i);
        ghost var e1 := Caches();
        SeenReadsMode(i);
        var write;
        if d.choice.None? {
          v, write := PlainVal(i, vis);
        } else {
          v, write := ChoiceSymbolVal(i, vis);
        }
        ghost var e2 := Caches();
        WithinItem(e1, e2, i);
        OwnReadable(c, i);
        WithinTrans(e0, e1, e2);
        StoreTri(i, v, write);
        WithinTrans(e0, e2, Caches());
      }
    }

    // -------------------------------------------------------------------
    // Choice selection
    // -------------------------------------------------------------------

    /** Whether the k-th default of a choice has its condition met and its symbol visible. */
    method DefaultApplies(i: Id, k: nat) returns (hit: bool)
      requires Valid() && IsChoice(c, i) && k < |c.items[i].choiceDefaults|
      requires Unselected(c.items[i].choiceDefaults, k, c, View(Caches(), Readable(c, i)))
      modifies `modes, items
      ensures ReadOnly() && Unselected(c.items[i].choiceDefaults, k, c, View(Caches(), Readable(c, i)))
      ensures hit ==>
        DefaultSelection(c.items[i].choiceDefaults, k, c, View(Caches(), Readable(c, i))) == Some(Some(c.items[i].choiceDefaults[k].sym))
      ensures !hit ==> UnselectedAt(c.items[i].choiceDefaults[k], c, View(Caches(), Readable(c, i)))
      decreases SelLevel(c, i), 4
    {
      hide WellFormed, Sound, Within, Caches, Distinct, Readable;
      hide ExprValue, ExprBelow, ExprItems, Unselected;
      var d := c.items[i].choiceDefaults[k];
      ChoiceDefaultFacts(c, i, k);
      ghost var e1 := Caches();
      var cond := ExprVal(d.cond, i, SelLevel(c, i));
      ghost var e2 := Caches();
      KeepUnselected(c, i, k, e1, e2);
      if cond == 0 {
        return false;
      }
      var vis := Vis(d.sym);
      ghost var e3 := Caches();
      WithinTrans(e1, e2, e3);
      KeepUnselected(c, i, k, e2, e3);
      KeepExpr(d.cond, c, i, e2, e3, SelLevel(c, i));
      hit := vis != 0;
    }

    /** The first default whose condition and symbol are visible. */
    method DefaultSelectionVal(i: Id) returns (r: Option<Id>)
      requires Valid() && IsChoice(c, i)
      modifies `modes, items
      ensures ReadOnly() && DefaultSelection(c.items[i].choiceDefaults, 0, c, View(Caches(), Readable(c, i))) == Some(r)
      decreases SelLevel(c, i), 5
    {
      hide WellFormed, Sound, Within, Caches, Distinct, Readable;
      hide ExprValue, ExprBelow, ExprItems, Unselected, UnselectedAt, DefaultSelection;
      var ds := c.items[i].choiceDefaults;
      ghost var e0 := Caches();
      WithinSelf(e0);
      NothingUnselected(ds, c, View(e0, Readable(c, i)));
      var k := 0;
      while k < |ds|
        invariant 0 <= k <= |ds|
        invariant ReadOnly()
        invariant Unselected(ds, k, c, View(Caches(), Readable(c, i)))
      {
        ghost var e := Caches();
        var hit := DefaultApplies(i, k);
        WithinTrans(e0, e, Caches());
        if hit {
          SkipUnselected(ds, k, c, View(Caches(), Readable(c, i)));
          return Some(ds[k].sym);
        }
        OneMoreUnselected(ds, k, c, View(Caches(), Readable(c, i)));
        k := k + 1;
      }
      SkipUnselected(ds, |ds|, c, View(Caches(), Readable(c, i)));
      NoDefaultLeft(ds, View(Caches(), Readable(c, i)));
      r := None;
    }

    lemma NoDefaultLeft(ds: seq<ChoiceDefault>, v: View)
      ensures DefaultSelection(ds, |ds|, c, v) == Some(None)
    {}

    method FirstVisibleVal(i: Id) returns (r: Option<Id>)
      requires Valid() && IsChoice(c, i)
      modifies `modes, items
      ensures ReadOnly() && FirstVisible(c.items[i].syms, 0, View(Caches(), Readable(c, i))) == Some(r)
      decreases SelLevel(c, i), 5
    {
      hide WellFormed, Sound, Within, Caches, Distinct, Readable;
      var syms := c.items[i].syms;
      ghost var e0 := Caches();
      WithinSelf(e0);
      var k := 0;
      while k < |syms|
        invariant 0 <= k <= |syms|
        invariant ReadOnly()
        invariant Invisible(syms, k, View(Caches(), Readable(c, i)))
      {
        ChoiceSymFacts(c, i, k);
        ghost var e1 := Caches();
        var vis := Vis(syms[k]);
        WithinTrans(e0, e1, Caches());
        KeepInvisible(syms, k, Readable(c, i), e1, Caches());
        if vis != 0 {
          SkipInvisible(syms, k, View(Caches(), Readable(c, i)));
          return Some(syms[k]);
        }
        k := k + 1;
      }
      SkipInvisible(syms, k, View(Caches(), Readable(c, i)));
      r := None;
    }

    /** _selection_from_defaults() */
    method SelectionFromDefaultsVal(i: Id) returns (r: Option<Id>)
      requires Valid() && IsChoice(c, i)
      modifies `modes, items
      ensures ReadOnly() && SelectionFromDefaults(c.items[i], c, View(Caches(), Readable(c, i))) == Some(r)
      decreases SelLevel(c, i), 6
    {
      hide WellFormed, Sound, Within, Caches, Distinct, Readable;
      ghost var e0 := Caches();
      r := DefaultSelectionVal(i);
      if r.None? {
        ghost var e1 := Caches();
        r := FirstVisibleVal(i);
        WithinTrans(e0, e1, Caches());
        KeepDefaultSelection(c, i, e1, Caches());
      }
    }

    /** Choice._selection() */
    method ComputeSelection(i: Id) returns (r: Option<Id>)
      requires Valid() && IsChoice(c, i)
      modifies `modes, items
      ensures ReadOnly() && Selection(i, c, Settings()[i], View(Caches(), Readable(c, i))) == Some(r)
      ensures i in Caches().tri
      decreases SelLevel(c, i), 8
    {
      hide WellFormed, Sound, Within, Caches, Distinct, Readable, Selection;
      ghost var e0 := Caches();
      OwnReadable(c, i);
      LogicalFacts(c, i);
      var mode := TriVal(i);
      ghost var e1 := Caches();
      if mode != 2 {
        SelectionCases(i, c, Settings()[i], View(e1, Readable(c, i)));
        r := None;
      } else {
        r := YModeSelection(i);
        WithinTrans(e0, e1, Caches());
        WithinItem(e1, Caches(), i);
      }
    }

    /** The selection of a choice in y mode. */
    method YModeSelection(i: Id) returns (r: Option<Id>)
      requires Valid() && IsChoice(c, i) && View(Caches(), Readable(c, i)).Tri(Item(i)) == Some(2)
      modifies `modes, items
      ensures ReadOnly() && Selection(i, c, Settings()[i], View(Caches(), Readable(c, i))) == Some(r)
      decreases SelLevel(c, i), 7
    {
      hide WellFormed, Sound, Within, Caches, Distinct, Readable, Selection;
      SelectionIsMember(i);
      var u := items[i].userSelection;
      ghost var e1, e2 := Caches(), Caches();
      WithinSelf(e1);
      if u.Some? {
        ChoiceMemberFacts(c, i, u.value);
        var vis := Vis(u.value);
        e2 := Caches();
        WithinItem(e1, e2, i);
        if vis != 0 {
          SelectionCases(i, c, Settings()[i], View(e2, Readable(c, i)));
          return u;
        }
      }
      r := SelectionFromDefaultsVal(i);
      WithinTrans(e1, e2, Caches());
      WithinItem(e2, Caches(), i);
      if u.Some? {
        WithinItem(e2, Caches(), u.value);
      }
      SelectionCases(i, c, Settings()[i], View(Caches(), Readable(c, i)));
    }

    lemma VisIsCached(i: Id)
      requires Valid() && i < |items| && i in Caches().tri && !ConstantTri(c, i)
      ensures i in Caches().vis
    {
      hide Justified, WellFormed;
      assert MarkedAt(c, Caches(), i);
    }

    lemma SelectionIsMember(i: Id)
      requires Valid() && IsChoice(c, i)
      ensures items[i].userSelection.Some? ==> items[i].userSelection.value in c.items[i].syms
    {
      hide WellFormed, Justified, Marked;
      assert ValidSelection(c, i, Settings()[i]);
    }

    /** The `selection` property */
    method SelectionVal(i: Id) returns (r: Option<Id>)
      requires Valid() && IsChoice(c, i)
      modifies `modes, items
      ensures ReadOnly() && i in Caches().sel && Caches().sel[i] == r
      decreases SelLevel(c, i), 10
    {
      hide WellFormed, Sound, Within, Caches, Distinct, Readable, Selection;
      CachedFields(i);
      WithinSelf(Caches());
      if items[i].cachedSelection.Some? {
        r := items[i].cachedSelection.value;
      } else {
        r := NewSelection(i);
      }
    }

    method NewSelection(i: Id) returns (r: Option<Id>)
      requires Valid() && IsChoice(c, i)
      modifies `modes, items
      ensures ReadOnly() && i in Caches().sel && Caches().sel[i] == r
      decreases SelLevel(c, i), 9
    {
      hide WellFormed, Sound, Within, Caches, Distinct, Readable, Selection;
      ghost var e0 := Caches();
      r := ComputeSelection(i);
      ghost var e1 := Caches();
      ModeMarksVis(i);
      StoreSelection(i, r);
      WithinTrans(e0, e1, Caches());
    }

    lemma ModeMarksVis(i: Id)
      requires Valid() && IsChoice(c, i) && i in Caches().tri
      ensures i in Caches().vis
    {
      hide WellFormed, Sound, Caches;
      ReadCached(i);
    }

    // -------------------------------------------------------------------
    // Strings and assignable values
    // -------------------------------------------------------------------

    method RangeVal(i: Id) returns (r: Option<(int, int)>)
      requires Valid() && i < |items| && IsNumber(c.items[i])
      modifies `modes, items
      ensures ReadOnly() && ActiveRange(c.items[i].typ, c.items[i].ranges, 0, c, View(Caches(), Readable(c, i))) == Some(r)
      decreases StrLevel(c, i), 5
    {
      hide WellFormed, Sound, Within, Caches, Distinct, Readable;
      var t, rs := c.items[i].typ, c.items[i].ranges;
      ghost var e0 := Caches();
      WithinSelf(e0);
      var k := 0;
      while k < |rs|
        invariant 0 <= k <= |rs|
        invariant ReadOnly()
        invariant NoRange(rs, k, c, View(Caches(), Readable(c, i)))
      {
        RangeReadable(c, i, k);
        ghost var e1 := Caches();
        var cond := ExprVal(rs[k].cond, i, StrLevel(c, i));
        ghost var e2 := Caches();
        WithinTrans(e0, e1, e2);
        KeepNoRange(c, i, k, e1, e2);
        if cond != 0 {
          var low := OperandStr(rs[k].low, i, StrLevel(c, i));
          ghost var e3 := Caches();
          var high := OperandStr(rs[k].high, i, StrLevel(c, i));
          ghost var e4 := Caches();
          WithinTrans(e0, e2, e3);
          WithinTrans(e0, e3, e4);
          WithinTrans(e2, e3, e4);
          KeepNoRange(c, i, k, e2, e4);
          KeepExpr(rs[k].cond, c, i, e2, e4, StrLevel(c, i));
          KeepOperand(rs[k].low, c, i, e3, e4, StrLevel(c, i));
          SkipNoRange(t, rs, k, c, View(e4, Readable(c, i)));
          return Some((c.lib.parseInt(low, Base(t)).GetOr(0), c.lib.parseInt(high, Base(t)).GetOr(0)));
        }
        k := k + 1;
      }
      SkipNoRange(t, rs, k, c, View(Caches(), Readable(c, i)));
      r := None;
    }

    method DefaultStrVal(i: Id) returns (r: Option<string>)
      requires Valid() && i < |items| && UsesDefaults(c.items[i]) && !IsBoolTri(c.items[i].typ)
      modifies `modes, items
      ensures ReadOnly() && DefaultStr(c.items[i], c, View(Caches(), Readable(c, i))) == Some(r)
      decreases StrLevel(c, i), 6
    {
      hide WellFormed, Sound, Within, Caches, Distinct, Readable;
      ghost var e0 := Caches();
      r := None;
      var active := FindDefault(i);
      if active.Some? {
        ghost var e := Caches();
        ActiveReadable(c, i, View(e, Readable(c, i)));
        var s := OperandStr(active.value.0.operand, i, StrLevel(c, i));
        WithinTrans(e0, e, Caches());
        KeepActive(c, i, e, Caches());
        r := Some(s);
      }
    }

    /** str_value of int and hex symbols */
    method NumberVal(i: Id, vis: Tri) returns (s: string, write: bool)
      requires Valid() && i < |items| && IsNumber(c.items[i])
      modifies `modes, items
      ensures ReadOnly() && NumberStr(c.items[i], c, Settings()[i], vis, View(Caches(), Readable(c, i))) == Some((s, write))
      decreases StrLevel(c, i), 7
    {
      hide WellFormed, Sound, Within, Caches, Distinct, Readable, ActiveRange, DefaultStr;
      ghost var e0 := Caches();
      var d := c.items[i];
      var u := items[i].userValue;
      var range := RangeVal(i);
      ghost var e1 := Caches();
      s := if vis != 0 && u.Some? && u.value.UStr? then u.value.str else "";
      write := vis != 0;
      if s == "" || !InRange(range, c.lib.parseInt(s, Base(d.typ)).GetOr(0)) {
        var default := DefaultStrVal(i);
        WithinTrans(e0, e1, Caches());
        KeepRange(c, i, e1, Caches());
        s := Clamp(d.typ, range, default.GetOr(""), c.lib);
        write := vis != 0 || default.Some?;
      }
    }

    /** str_value of string symbols */
    method TextVal(i: Id, vis: Tri) returns (s: string, write: bool)
      requires Valid() && i < |items| && UsesDefaults(c.items[i]) && !IsBoolTri(c.items[i].typ)
      modifies `modes, items
      ensures ReadOnly() && TextStr(c.items[i], c, Settings()[i], vis, View(Caches(), Readable(c, i))) == Some((s, write))
      decreases StrLevel(c, i), 7
    {
      hide WellFormed, Sound, Within, Caches, Distinct, Readable, DefaultStr;
      WithinSelf(Caches());
      var u := items[i].userValue;
      write := vis != 0;
      if vis != 0 && u.Some? && u.value.UStr? {
        s := u.value.str;
      } else {
        var default := DefaultStrVal(i);
        s := default.GetOr("");
        write := vis != 0 || default.Some?;
      }
    }

    /** str_value of string, int and hex symbols */
    method ComputeStr(i: Id) returns (s: string, write: bool)
      requires Valid() && i < |items| && c.items[i].Symbol? && !IsBoolTri(c.items[i].typ) && !c.items[i].typ.Unknown?
      modifies `modes, items
      ensures ReadOnly() && StrValue(i, c, Settings()[i], View(Caches(), Readable(c, i))) == Some((s, write))
      ensures i in Caches().vis
      decreases StrLevel(c, i), 8
    {
      hide WellFormed, Sound, Within, Caches, Distinct, Readable, NumberStr, TextStr;
      ghost var e0 := Caches();
      var d := c.items[i];
      OwnReadable(c, i);
      TextFacts(c, i);
      var vis := Vis(i);
      ghost var e1 := Caches();
      if d.typ.String? {
        s, write := TextVal(i, vis);
      } else {
        s, write := NumberVal(i, vis);
      }
      WithinItem(e1, Caches(), i);
      WithinTrans(e0, e1, Caches());
      if d.special {
        write := false;
      }
    }

    /** Symbol.str_value */
    method StrVal(i: Id) returns (s: string)
      requires Valid() && i < |items| && c.items[i].Symbol?
      modifies `modes, items
      ensures ReadOnly() && i in Caches().str && Caches().str[i].0 == s
      decreases StrLevel(c, i), 9
    {
      hide WellFormed, Sound, Within, Caches, Distinct, Readable, StrValue;
      ghost var e0 := Caches();
      if items[i].cachedStr.Some? {
        CachedFields(i);
        WithinSelf(e0);
        s := items[i].cachedStr.value;
      } else if IsBoolTri(c.items[i].typ) {
        s := BoolStrVal(i);
      } else if c.items[i].typ.Unknown? {
        s := c.items[i].name;
        ConstantValues(c, Settings()[i], View(e0, Readable(c, i)), i);
        StorePlainStr(i, s);
      } else {
        var write;
        s, write := ComputeStr(i);
        ghost var e1 := Caches();
        StoreStr(i, s, write);
        WithinTrans(e0, e1, Caches());
      }
    }

    method BoolStrVal(i: Id) returns (s: string)
      requires Valid() && i < |items| && c.items[i].Symbol? && IsBoolTri(c.items[i].typ)
      modifies `modes, items
      ensures ReadOnly() && i in Caches().str && Caches().str[i].0 == s
      decreases StrLevel(c, i), 4
    {
      hide WellFormed, Sound, Within, Caches, Distinct, Readable, StrValue;
      ghost var e0 := Caches();
      OwnReadable(c, i);
      LogicalFacts(c, i);
      var t := TriVal(i);
      ghost var e1 := Caches();
      VisIsCached(i);
      BoolStr(c, Settings()[i], View(e1, Readable(c, i)), i);
      s := TriToStr(t);
      StorePlainStr(i, s);
      WithinTrans(e0, e1, Caches());
    }

    method NoMVal(i: Id) returns (noM: bool)
      requires Valid() && i < |items| && c.items[i].Symbol? && IsBoolTri(c.items[i].typ) && c.items[i].choice.None?
      modifies `modes, items
      ensures ReadOnly() && NoM(i, c, View(Caches(), Readable(c, i))) == Some(noM)
      decreases AsgLevel(c, i), 4
    {
      hide WellFormed, Sound, Within, Caches, Distinct, Readable, TypeOf, ExprValue;
      ghost var e0 := Caches();
      var t := TypeOfItem(i);
      noM := t.Bool?;
      if !noM {
        ghost var e1 := Caches();
        SelectsReadable(c, i);
        var weak := ExprVal(c.items[i].weakRevDep, i, AsgLevel(c, i));
        WithinTrans(e0, e1, Caches());
        KeepType(c, i, e1, Caches());
        noM := weak == 2;
      }
    }

    method ComputeSymbolAssignable(i: Id) returns (a: seq<Tri>)
      requires Valid() && i < |items| && c.items[i].Symbol? && IsBoolTri(c.items[i].typ)
      modifies `modes, items
      ensures ReadOnly() && SymbolAssignable(i, c, View(Caches(), Readable(c, i))) == Some(a)
      ensures i in Caches().vis
      decreases AsgLevel(c, i), 6
    {
      hide WellFormed, Sound, Within, Caches, Distinct, Readable, NoM, ExprValue, MayRead, SymbolAssignable;
      ghost var e0 := Caches();
      var d := c.items[i];
      OwnReadable(c, i);
      SelectsReadable(c, i);
      var vis := Vis(i);
      if vis == 0 {
        AssignableCases(i, c, View(Caches(), Readable(c, i)), vis);
        return [];
      }
      ghost var e1 := Caches();
      var rev := ExprVal(d.revDep, i, AsgLevel(c, i));
      ghost var e2 := Caches();
      WithinTrans(e0, e1, e2);
      WithinItem(e1, e2, i);
      a := VisibleAssignable(i, vis, rev);
      WithinTrans(e0, e2, Caches());
      WithinItem(e2, Caches(), i);
    }

    /** The cases of a visible symbol whose reverse dependencies have been evaluated. */
    method VisibleAssignable(i: Id, vis: Tri, rev: Tri) returns (a: seq<Tri>)
      requires Valid() && i < |items| && c.items[i].Symbol? && IsBoolTri(c.items[i].typ)
      requires View(Caches(), Readable(c, i)).Vis(i) == Some(vis) && vis != 0
      requires ExprValue(c.items[i].revDep, c, View(Caches(), Readable(c, i))) == Some(rev)
      modifies `modes, items
      ensures ReadOnly() && SymbolAssignable(i, c, View(Caches(), Readable(c, i))) == Some(a)
      decreases AsgLevel(c, i), 5
    {
      hide WellFormed, Sound, Within, Caches, Distinct, Readable, NoM, ExprValue, MayRead, SymbolAssignable;
      var d := c.items[i];
      ghost var e := Caches();
      WithinSelf(e);
      SelectsReadable(c, i);
      if vis == 2 && (d.choice.Some? || rev == 2) {
        a := [2];
      } else if vis == 2 {
        var noM := NoMVal(i);
        a := if rev == 0 then (if noM then [0, 2] else [0, 1, 2]) else if noM then [2] else [1, 2];
      } else if rev == 0 {
        var weak := ExprVal(d.weakRevDep, i, AsgLevel(c, i));
        a := if weak != 2 then [0, 1] else [0, 2];
      } else {
        a := if rev == 2 then [2] else [1];
      }
      WithinItem(e, Caches(), i);
      KeepExpr(d.revDep, c, i, e, Caches(), AsgLevel(c, i));
      AssignableCases(i, c, View(Caches(), Readable(c, i)), vis);
    }

    method ComputeChoiceAssignable(i: Id) returns (a: seq<Tri>)
      requires Valid() && IsChoice(c, i)
      modifies `modes, items
      ensures ReadOnly() && ChoiceAssignable(i, c, View(Caches(), Readable(c, i))) == Some(a)
      ensures i in Caches().vis
      decreases AsgLevel(c, i), 6
    {
      hide WellFormed, Sound, Within, Caches, Distinct, Readable, TypeOf;
      ghost var e0 := Caches();
      OwnReadable(c, i);
      var optional := c.items[i].optional;
      var vis := Vis(i);
      if vis == 0 {
        a := [];
      } else if vis == 2 {
        ghost var e1 := Caches();
        var t := TypeOfItem(i);
        WithinTrans(e0, e1, Caches());
        WithinItem(e1, Caches(), i);
        a := if !optional then (if t.Bool? then [2] else [1, 2]) else if t.Bool? then [0, 2] else [0, 1, 2];
      } else {
        a := if optional then [0, 1] else [1];
      }
    }

    /** The `assignable` property */
    method AssignableVal(i: Id) returns (a: seq<Tri>)
      requires Valid() && i < |items|
      modifies `modes, items
      ensures ReadOnly() && i in Caches().asg && Caches().asg[i] == a
      decreases AsgLevel(c, i), 8
    {
      hide WellFormed, Sound, Within, Caches, Distinct, Readable;
      CachedFields(i);
      WithinSelf(Caches());
      if items[i].cachedAssignable.Some? {
        a := items[i].cachedAssignable.value;
      } else {
        a := NewAssignable(i);
      }
    }

    method NewAssignable(i: Id) returns (a: seq<Tri>)
      requires Valid() && i < |items|
      modifies `modes, items
      ensures ReadOnly() && i in Caches().asg && Caches().asg[i] == a
      decreases AsgLevel(c, i), 7
    {
      hide WellFormed, Sound, Within, Caches, Distinct, Readable, SymbolAssignable, ChoiceAssignable;
      ghost var e0 := Caches();
      WithinSelf(e0);
      if ConstantTri(c, i) {
        a := [];
        ConstantValues(c, Settings()[i], View(Caches(), Readable(c, i)), i);
      } else if c.items[i].Symbol? {
        a := ComputeSymbolAssignable(i);
      } else {
        a := ComputeChoiceAssignable(i);
      }
      ghost var e1 := Caches();
      StoreAssignable(i, a);
      WithinTrans(e0, e1, Caches());
    }

    // -------------------------------------------------------------------
    // Invalidation
    // -------------------------------------------------------------------

    /** The state while caches are being cleared: only cache fields have changed. */
    twostate predicate Clearing()
      reads this, items
    {
      && Shape()
      && unchanged(items`userValue) && unchanged(items`userSelection) && unchanged(items`wasSet)
      && Settings() == old(Settings())
    }

    /** _invalidate() */
    method Invalidate(i: Id)
      requires Shape() && i < |items|
      modifies `modes, items
      ensures Clearing() && Caches() == Dropped(old(Caches()), {i})
      ensures Caches().vis.Keys == old(Caches()).vis.Keys - {i}
    {
      hide WellFormed, VisCache, AsgCache, SelCache, TriCache, StrCache;
      ClearView(i);
      ClearValues(i);
    }

    method ClearView(i: Id)
      requires |items| == |c.items| && Distinct() && i < |items|
      modifies items`cachedVis, items`cachedAssignable, items`cachedSelection
      ensures VisCache() == old(VisCache()) - {i}
      ensures AsgCache() == old(AsgCache()) - {i}
      ensures SelCache() == old(SelCache()) - {i}
    {
      items[i].cachedVis := None;
      items[i].cachedAssignable := None;
      items[i].cachedSelection := None;
    }

    method ClearValues(i: Id)
      requires |items| == |c.items| && Distinct() && i < |items|
      modifies `modes, items`cachedTri, items`cachedStr
      ensures TriCache() == old(TriCache()) - {i} && StrCache() == old(StrCache()) - {i}
    {
      hide TriCache, StrCache;
      if c.items[i].Symbol? {
        ClearTri(i);
        ClearStr(i);
      } else {
        NoStrings(i);
      }
      ClearMode(i);
    }

    method ClearTri(i: Id)
      requires |items| == |c.items| && Distinct() && i < |items| && c.items[i].Symbol?
      modifies items`cachedTri
      ensures TriCache() == old(TriCache()) - {i}
    {
      items[i].cachedTri := None;
    }

    method ClearStr(i: Id)
      requires |items| == |c.items| && Distinct() && i < |items| && c.items[i].Symbol?
      modifies items`cachedStr
      ensures StrCache() == old(StrCache()) - {i}
    {
      items[i].cachedStr := None;
    }

    method ClearMode(i: Id)
      requires |items| == |c.items| && i < |items| && (c.items[i].Symbol? ==> i !in TriCache())
      modifies `modes
      ensures TriCache() == old(TriCache()) - {i}
    {
      modes := modes - {i};
    }

    lemma NoStrings(i: Id)
      requires |items| == |c.items| && i < |items| && c.items[i].Choice?
      ensures StrCache() - {i} == StrCache()
    {}

    /** _invalidate_all() */
    method InvalidateAll()
      requires Shape()
      modifies `modes, items
      ensures Clearing() && Caches() == Dropped(old(Caches()), LiveBelow(c, |items|))
    {
      hide WellFormed, Caches, Distinct;
      ghost var e := Caches();
      DroppedNothing(e);
      var k := 0;
      while k < |items|
        invariant 0 <= k <= |items|
        invariant Clearing()
        invariant Caches() == Dropped(e, LiveBelow(c, k))
      {
        if Live(c, k) {
          Invalidate(k);
          DroppedMore(e, LiveBelow(c, k), k);
          assert LiveBelow(c, k + 1) == LiveBelow(c, k) + {k};
        } else {
          assert LiveBelow(c, k + 1) == LiveBelow(c, k);
        }
        k := k + 1;
      }
    }

    /**
    _rec_invalidate(): clears the item and, through `_dependents`, every item
    that still has a visibility cached.
    */
    method RecInvalidate(i: Id)
      requires Shape() && Live(c, i)
      modifies `modes, items
      ensures Clearing() && Invalidated(c, old(Caches()), Caches())
      ensures DroppedAt(Caches(), i) && Unread(c, Caches(), i)
      decreases |Caches().vis.Keys - {i}|, 1
    {
      hide WellFormed, Invalidated, Unread, Readable, Partial, Dependents, Caches, Distinct;
      hide InRangeKeys, Dropped, DroppedAt, LiveBelow;
      ghost var e := Caches();
      CachedInRange();
      if i == c.modules {
        InvalidateAll();
        AllInvalidated(c, e, i);
      } else {
        Invalidate(i);
        StartPartial(c, e, i);
        InvalidateDependents(i, e);
      }
    }

    /** Its loop over `_dependents`. */
    method InvalidateDependents(i: Id, ghost e: Env)
      requires Shape() && Live(c, i) && i != c.modules && InRangeKeys(c, e)
      requires Partial(c, e, Caches(), i, dependents[i]) && Caches().vis.Keys <= e.vis.Keys - {i}
      modifies `modes, items
      ensures Clearing() && Invalidated(c, e, Caches())
      ensures DroppedAt(Caches(), i) && Unread(c, Caches(), i)
      decreases |e.vis.Keys - {i}|, 0
    {
      hide WellFormed, Invalidated, Unread, Readable, Partial, Dependents, Caches, Distinct;
      hide InRangeKeys, Dropped, DroppedAt, LiveBelow;
      var todo := dependents[i];
      while todo != {}
        invariant Clearing() && Partial(c, e, Caches(), i, todo)
        invariant todo <= dependents[i]
        invariant Caches().vis.Keys <= e.vis.Keys - {i}
        decreases todo
      {
        ghost var f, was := Caches(), todo;
        var d :| d in todo;
        DependentLive(c, i, d);
        CachedFields(d);
        todo := todo - {d};
        if items[d].cachedVis.Some? {
          ShrinkingKeys(f.vis.Keys, e.vis.Keys, i, d);
          RecInvalidate(d);
          KeysShrink(c, f, Caches());
          StepPartial(c, e, f, Caches(), i, was, d);
        } else {
          SkipPartial(c, e, f, i, was, d);
        }
      }
      FinishPartial(c, e, Caches(), i);
    }

    lemma CachedInRange()
      requires |items| == |c.items|
      ensures InRangeKeys(c, Caches())
    {}

    // -------------------------------------------------------------------
    // User changes
    // -------------------------------------------------------------------

    /** After clearing what depends on the changed items, the remaining caches are sound. */
    lemma SoundAgain(us: Users, e: Env)
      requires Shape() && Sound(c, us, e) && ValidUsers(c, Settings()) && Invalidated(c, e, Caches())
      requires |us| == |items|
      requires forall j: Id :: j < |us| && Settings()[j] != us[j] ==> !Live(c, j) || j !in Caches().vis
      ensures Valid()
    {
      hide Justified, Marked, Invalidated, WellFormed, Live;
      SurvivorsJustified(c, us, Settings(), e, Caches());
    }

    method PutUserValue(i: Id, v: Option<UserValue>)
      requires |items| == |c.items| && Distinct() && i < |items|
      modifies items`userValue
      ensures Settings() == PutValue(old(Settings()), i, v)
    {
      items[i].userValue := v;
    }

    method PutUserSelection(i: Id, s: Option<Id>)
      requires |items| == |c.items| && Distinct() && i < |items|
      modifies items`userSelection
      ensures Settings() == PutSelection(old(Settings()), i, s)
    {
      items[i].userSelection := s;
    }

    method Touch(i: Id)
      requires |items| == |c.items| && Distinct() && i < |items|
      modifies items`wasSet
      ensures Touched() == old(Touched()) + {i}
    {
      items[i].wasSet := true;
    }

    /** _rec_invalidate_if_has_prompt() after the user value of `i` changed */
    method InvalidateIfHasPrompt(i: Id, ghost us: Users)
      requires Shape() && Live(c, i) && c.items[i].Symbol? && |us| == |items|
      requires Sound(c, us, Caches()) && ValidUsers(c, Settings())
      requires forall j: Id :: j < |us| && j != i ==> Settings()[j] == us[j]
      modifies `modes, items
      ensures Clearing() && Valid() && Touched() == old(Touched())
    {
      hide WellFormed, Justified, Marked, Invalidated, Caches, Unread;
      ghost var e := Caches();
      if c.items[i].prompts != [] {
        RecInvalidate(i);
        SoundAgain(us, e);
      } else {
        PromptlessIgnoresUser(c, us, Settings(), e);
      }
    }

    /** A valid value for a symbol, other than y inside a choice. */
    method StoreUserValue(i: Id, v: Option<UserValue>)
      requires Valid() && Live(c, i) && c.items[i].Symbol?
      requires ValidUsers(c, PutValue(Settings(), i, v))
      modifies `modes, items
      ensures Valid() && Settings() == PutValue(old(Settings()), i, v)
      ensures Touched() == old(Touched()) + if v.Some? then {i} else {}
    {
      hide WellFormed, Justified, Marked, Caches, ValidUsers;
      ghost var us := Settings();
      PutUserValue(i, v);
      if v.Some? {
        Touch(i);
      }
      InvalidateIfHasPrompt(i, us);
    }

    /** The value y for a choice symbol also makes it the user's selection. */
    method SelectInChoice(i: Id, v: UserValue)
      requires Valid() && Live(c, i) && c.items[i].Symbol? && c.items[i].choice.Some?
      requires var ch := c.items[i].choice.value;
               IsChoice(c, ch) && ch != i && (NeverShown(c.items[i]) || ch in Readable(c, i)) && Live(c, ch) &&
               ValidUsers(c, PutSelection(PutValue(Settings(), i, Some(v)), ch, Some(i)))
      modifies `modes, items
      ensures Valid()
      ensures Settings() == PutSelection(PutValue(old(Settings()), i, Some(v)), c.items[i].choice.value, Some(i))
      ensures Touched() == old(Touched()) + {i, c.items[i].choice.value}
    {
      hide WellFormed, Justified, Marked, Caches, ValidUsers, Invalidated, Readable, NeverShown;
      ghost var e, us := Caches(), Settings();
      PutChosen(i, c.items[i].choice.value, v);
      RecInvalidate(c.items[i].choice.value);
      if NeverShown(c.items[i]) {
        ValueAlone(us, i, v);
        PromptlessIgnoresUser(c, us, PutValue(us, i, Some(v)), e);
        SoundAgain(PutValue(us, i, Some(v)), e);
      } else {
        SoundAgain(us, e);
      }
    }

    lemma ValueAlone(us: Users, i: Id, v: UserValue)
      requires ValidUsers(c, us) && i < |us| && c.items[i].Symbol? && c.items[i].choice.Some? && c.items[i].choice.value < |us|
      requires ValidUsers(c, PutSelection(PutValue(us, i, Some(v)), c.items[i].choice.value, Some(i)))
      requires c.items[i].choice.value != i
      ensures ValidUsers(c, PutValue(us, i, Some(v)))
    {
      var ws := PutSelection(PutValue(us, i, Some(v)), c.items[i].choice.value, Some(i));
      assert ValidValue(c, i, ws[i]);
      forall j: Id | j < |us| && j != i ensures ValidValue(c, j, us[j]) {}
    }

    method PutChosen(i: Id, ch: Id, v: UserValue)
      requires |items| == |c.items| && Distinct() && i < |items| && ch < |items| && ch != i
      modifies items`userValue, items`userSelection, items`wasSet
      ensures Settings() == PutSelection(PutValue(old(Settings()), i, Some(v)), ch, Some(i))
      ensures Touched() == old(Touched()) + {i, ch}
    {
      PutUserValue(i, Some(v));
      Touch(i);
      PutUserSelection(ch, Some(i));
      Touch(ch);
    }

    /** Symbol.set_value() */
    method SetValue(i: Id, value: UserValue) returns (ok: bool)
      requires Valid() && i < |items| && c.items[i].Symbol?
      modifies `modes, items
      ensures Valid() && (State(), ok) == SetSymbol(c, old(State()), i, value)
    {
      hide WellFormed, Justified, Marked, Caches, ValidUsers;
      ChangesKeepValid(c, State(), i, value);
      var d := c.items[i];
      var v := Offered(d, value);
      if items[i].userValue == Some(v) && d.choice.None? {
        Touch(i);
        ok := true;
      } else if !ValidFor(c.lib, d.typ, v) {
        ok := false;
      } else {
        ValidIsLive(c, i, v);
        if d.choice.Some? && v == UTri(2) {
          ChoiceFacts(c, i);
          SelectInChoice(i, v);
        } else {
          StoreUserValue(i, Some(v));
        }
        ok := true;
      }
    }

    /** Symbol.unset_value() */
    method UnsetValue(i: Id)
      requires Valid() && i < |items| && c.items[i].Symbol?
      modifies `modes, items
      ensures Valid() && State() == UnsetSymbol(old(State()), i)
    {
      hide WellFormed, Justified, Marked, Caches, ValidUsers;
      ChangesKeepValid(c, State(), i, UTri(0));
      if items[i].userValue.Some? {
        StoredIsLive(c, Settings(), i);
        StoreUserValue(i, None);
      }
    }

    /** Clears what depends on choice `i` after its settings changed. */
    method InvalidateChoice(i: Id, ghost us: Users)
      requires Shape() && IsChoice(c, i) && |us| == |items|
      requires Sound(c, us, Caches()) && ValidUsers(c, Settings())
      requires forall j: Id :: j < |us| && j != i ==> Settings()[j] == us[j]
      modifies `modes, items
      ensures Clearing() && Valid() && Touched() == old(Touched())
    {
      hide WellFormed, Justified, Marked, Invalidated, Caches, Unread;
      ghost var e := Caches();
      RecInvalidate(i);
      SoundAgain(us, e);
    }

    /** Choice.set_value() */
    method SetModeValue(i: Id, value: UserValue) returns (ok: bool)
      requires Valid() && IsChoice(c, i)
      modifies `modes, items
      ensures Valid() && (State(), ok) == SetChoice(c, old(State()), i, value)
    {
      hide WellFormed, Justified, Marked, Caches, ValidUsers;
      ChangesKeepValid(c, State(), i, value);
      var v := Normalised(value);
      if items[i].userValue == Some(v) {
        Touch(i);
        ok := true;
      } else if !(IsBoolTri(c.items[i].typ) && ValidFor(c.lib, c.items[i].typ, v)) {
        ok := false;
      } else {
        NewMode(i, v);
        ok := true;
      }
    }

    method NewMode(i: Id, v: UserValue)
      requires Valid() && IsChoice(c, i) && ValidUsers(c, PutValue(Settings(), i, Some(v)))
      modifies `modes, items
      ensures Valid() && State() == UserState(PutValue(old(Settings()), i, Some(v)), old(Touched()) + {i})
    {
      hide WellFormed, Justified, Marked, Caches, ValidUsers;
      ghost var us := Settings();
      PutUserValue(i, Some(v));
      Touch(i);
      InvalidateChoice(i, us);
    }

    method ClearUser(i: Id)
      requires |items| == |c.items| && Distinct() && i < |items|
      modifies items`userValue, items`userSelection
      ensures Settings() == old(Settings())[i := User(None, None)]
    {
      items[i].userValue := None;
      items[i].userSelection := None;
    }

    /** Choice.unset_value() */
    method UnsetMode(i: Id)
      requires Valid() && IsChoice(c, i)
      modifies `modes, items
      ensures Valid() && State() == UnsetChoice(old(State()), i)
    {
      hide WellFormed, Justified, Marked, Caches, ValidUsers;
      ChangesKeepValid(c, State(), i, UTri(0));
      if items[i].userValue.Some? || items[i].userSelection.Some? {
        ghost var us := Settings();
        ClearUser(i);
        InvalidateChoice(i, us);
      }
    }

    // -------------------------------------------------------------------
    // Coherence
    // -------------------------------------------------------------------

    /** Every cached value is the cache-free value under the current settings. */
    lemma CacheCoherent()
      requires Valid()
      ensures Within(Caches(), Values(c, Settings()))
    {
      hide Justified, Marked, Caches, WellFormed, Within, Values, ValidUsers, Total;
      ValuesExistUniquely(c, Settings());
    }

    // -------------------------------------------------------------------
    // .config files
    // -------------------------------------------------------------------

    /** The write flag left behind with a cached value. */
    lemma WriteFlag(i: Id)
      requires Valid() && i < |items| && c.items[i].Symbol? && i in Caches().str
      ensures IsBoolTri(c.items[i].typ) ==> i in Caches().tri && Caches().tri[i].1 == items[i].writeToConf
      ensures !IsBoolTri(c.items[i].typ) && !c.items[i].typ.Unknown? ==> Caches().str[i].1 == items[i].writeToConf
    {
      hide WellFormed, Sound;
      ReadCached(i);
    }

    /** Symbol.config_string, without its newline */
    method ConfigString(i: Id) returns (line: Option<string>)
      requires Valid() && i < |items| && c.items[i].Symbol?
      modifies `modes, items
      ensures ReadOnly() && line == SymbolLine(c, Values(c, Settings()), i)
    {
      hide WellFormed, Sound, Within, Caches, Distinct, Values, Escape;
      var d := c.items[i];
      var val := StrVal(i);
      WriteFlag(i);
      ValueIs(i);
      if d.typ.Unknown? || !items[i].writeToConf {
        line := None;
      } else if IsBoolTri(d.typ) {
        line := Some(if val != "n" then SetLine(d.name, val) else UnsetLine(d.name));
      } else if d.typ.String? {
        line := Some(SetLine(d.name, "\"" + Escape(val) + "\""));
      } else {
        line := Some(SetLine(d.name, val));
      }
      TotalKnown(i);
    }

    lemma TotalKnown(i: Id)
      requires Valid() && i < |items|
      ensures i in Values(c, Settings()).tri && i in Values(c, Settings()).str
    {
      hide WellFormed, Justified, Marked, Values, ValidUsers, Within;
      ValuesExistUniquely(c, Settings());
      assert TotalAt(c, Values(c, Settings()), i);
    }

    /** _config_contents(), given what the walk over the menu tree visits */
    method ConfigContents(layout: seq<Entry>) returns (text: string)
      requires Valid() && forall k :: 0 <= k < |layout| && layout[k].Sym? ==> layout[k].id < |items| && c.items[layout[k].id].Symbol?
      modifies `modes, items
      ensures ReadOnly() && text == Join(SaveLines(c, Values(c, Settings()), layout, {}))
    {
      hide WellFormed, Sound, Within, Values, SymbolLine, Caches, Join;
      ghost var v, e0 := Values(c, Settings()), Caches();
      WithinSelf(e0);
      text := "";
      var visited: set<Id> := {};
      var k := 0;
      while k < |layout|
        invariant 0 <= k <= |layout|
        invariant ReadOnly()
        invariant text + Join(SaveLines(c, v, layout[k..], visited)) == Join(SaveLines(c, v, layout, {}))
      {
        assert layout[k..][0] == layout[k] && layout[k..][1..] == layout[k + 1..];
        match layout[k] {
          case Text(ls) =>
            JoinConcat(ls, SaveLines(c, v, layout[k + 1..], visited));
            text := text + Join(ls);
          case Sym(i) =>
            if i !in visited {
              ghost var e := Caches();
              var line := ConfigString(i);
              WithinTrans(e0, e, Caches());
              JoinConcat(SymbolLines(c, v, i), SaveLines(c, v, layout[k + 1..], visited + {i}));
              JoinOne(line.GetOr(""));
              if line.Some? {
                text := text + line.value + "\n";
              } else {
                JoinNone();
              }
              visited := visited + {i};
            }
        }
        k := k + 1;
      }
      JoinNone();
    }

    /** Handles one line of a .config file */
    method LoadLine(line: string)
      requires Valid()
      modifies `modes, items
      ensures Valid() && State() == ApplyLine(c, syms, old(State()), line)
    {
      hide WellFormed, Sound, Caches, SetSymbol, SetChoice, ValidUsers;
      StateIsValid();
      var l := RStrip(line);
      var set_match := SetMatch(l);
      if set_match.Some? {
        var (name, val) := set_match.value;
        var sym := Lookup(c, syms, name);
        if sym.Some? {
          var i := sym.value;
          if IsBoolTri(c.items[i].typ) {
            if BoolText(c.items[i].typ, val) {
              LoadBool(i, val[..1]);
            }
          } else if c.items[i].typ.String? {
            var q := QuotedContents(val);
            if q.Some? {
              var _ := SetValue(i, UStr(Unescape(q.value)));
            }
          } else {
            var _ := SetValue(i, UStr(val));
          }
        }
      } else {
        var unset_match := UnsetMatch(l);
        if unset_match.Some? {
          var sym := Lookup(c, syms, unset_match.value);
          if sym.Some? && IsBoolTri(c.items[sym.value].typ) {
            var _ := SetValue(sym.value, UStr("n"));
          }
        }
      }
    }

    method LoadBool(i: Id, val: string)
      requires Valid() && ValidState(c, State()) && i < |items| && c.items[i].Symbol?
      modifies `modes, items
      ensures Valid() && State() == AssignBool(c, old(State()), i, val)
    {
      hide WellFormed, Sound, Caches, SetSymbol, SetChoice, ValidUsers;
      var d := c.items[i];
      if d.choice.Some? && val != "n" {
        ChoiceFacts(c, i);
        var _ := SetModeValue(d.choice.value, UStr(val));
        StateIsValid();
      }
      var _ := SetValue(i, UStr(val));
    }

    lemma StateIsValid()
      requires Valid()
      ensures ValidState(c, State())
    {
      hide WellFormed, Justified, Marked, ValidUsers;
    }

    /** Clears `_was_set` on all defined symbols and choices. */
    method Untouch()
      requires Shape()
      modifies items`wasSet
      ensures Touched() == set i | i in old(Touched()) && !Live(c, i)
    {
      hide WellFormed;
      var k := 0;
      while k < |items|
        invariant 0 <= k <= |items|
        invariant forall j :: 0 <= j < |items| ==> items[j].wasSet == if j < k && Live(c, j) then false else old(items[j].wasSet)
      {
        if Live(c, k) {
          items[k].wasSet := false;
        }
        k := k + 1;
      }
    }

    /** Unsets one item that the file did not assign. */
    method UnsetUntouched(i: Id, ghost s: UserState, ghost done: set<Id>)
      requires Valid() && i < |items| && i !in done && |s.us| == |items|
      requires State() == ResetSome(c, s, done)
      modifies `modes, items
      ensures Valid() && State() == ResetSome(c, s, done + {i})
    {
      hide WellFormed, Sound, Caches, ResetSome;
      ResetStep(c, s, done, i);
      if Live(c, i) && !items[i].wasSet {
        if c.items[i].Symbol? {
          UnsetValue(i);
        } else {
          UnsetMode(i);
        }
      }
    }

    /** Unsets the symbols that the file did not assign. */
    method UnsetSymbols(ghost s: UserState) returns (ghost done: set<Id>)
      requires Valid() && |s.us| == |items| && State() == ResetSome(c, s, {})
      modifies `modes, items
      ensures Valid() && State() == ResetSome(c, s, done)
      ensures forall j :: j in done <==> 0 <= j < |items| && c.items[j].Symbol?
    {
      hide WellFormed, Sound, Caches, ResetSome, ValidUsers;
      done := {};
      var k := 0;
      while k < |items|
        invariant 0 <= k <= |items|
        invariant Valid() && State() == ResetSome(c, s, done)
        invariant forall j :: j in done <==> 0 <= j < k && c.items[j].Symbol?
      {
        if c.items[k].Symbol? {
          UnsetUntouched(k, s, done);
          done := done + {k};
        }
        k := k + 1;
      }
    }

    /** And the choices. */
    method UnsetChoices(ghost s: UserState, ghost symbols: set<Id>) returns (ghost done: set<Id>)
      requires Valid() && |s.us| == |items| && State() == ResetSome(c, s, symbols)
      requires forall j :: j in symbols <==> 0 <= j < |items| && c.items[j].Symbol?
      modifies `modes, items
      ensures Valid() && State() == ResetSome(c, s, done)
      ensures forall j :: j in done <==> 0 <= j < |items|
    {
      hide WellFormed, Sound, Caches, ResetSome, ValidUsers;
      done := symbols;
      var k := 0;
      while k < |items|
        invariant 0 <= k <= |items|
        invariant Valid() && State() == ResetSome(c, s, done)
        invariant forall j :: j in done <==> 0 <= j < |items| && (c.items[j].Choice? ==> j < k)
      {
        if c.items[k].Choice? {
          UnsetUntouched(k, s, done);
          done := done + {k};
        }
        k := k + 1;
      }
    }

    /** Unsets the symbols, then the choices, that the file did not assign. */
    method UnsetRest()
      requires Valid()
      modifies `modes, items
      ensures Valid() && State() == Reset(c, old(State()))
    {
      hide WellFormed, Sound, Caches, ResetSome, ValidUsers;
      StateIsValid();
      ghost var s := State();
      ResetNone(c, s);
      ghost var done := UnsetSymbols(s);
      done := UnsetChoices(s, done);
      ResetAll(c, s, done);
    }

    /** _load_config(): `text` is the contents of the file. */
    method LoadConfig(text: string, replace: bool)
      requires Valid()
      modifies `modes, items
      ensures Valid() && State() == Load(c, syms, old(State()), text, replace)
    {
      hide WellFormed, Sound, Caches, ApplyLine, ValidUsers, Reset;
      if replace {
        Untouch();
      }
      StateIsValid();
      ghost var s := State();
      var lines := Lines(text);
      var k := 0;
      while k < |lines|
        invariant 0 <= k <= |lines|
        invariant Valid() && ValidState(c, State())
        invariant LoadLines(c, syms, State(), lines[k..]) == LoadLines(c, syms, s, lines)
      {
        assert lines[k..][0] == lines[k] && lines[k..][1..] == lines[k + 1..];
        LoadLine(lines[k]);
        StateIsValid();
        k := k + 1;
      }
      if replace {
        UnsetRest();
      }
    }

    /** A configuration as the parser leaves it: nothing cached, nothing set. */
    constructor (config: Config, names: Names)
      requires WellFormed(config)
      ensures c == config && syms == names && Valid() && fresh(items)
      ensures Settings() == seq(|config.items|, i => User(None, None)) && Touched() == {}
    {
      c := config;
      syms := names;
      modes := map[];
      dependents := seq(|config.items|, i requires 0 <= i < |config.items| => Dependents(config, i));
      var all: seq<Item> := [];
      while |all| < |config.items|
        invariant |all| <= |config.items| && fresh(all)
        invariant forall j, k :: 0 <= j < k < |all| ==> all[j] != all[k]
        invariant forall j :: 0 <= j < |all| ==> Blank(all[j])
      {
        var item := new Item();
        all := all + [item];
      }
      items := all;
      new;
      BlankIsSound();
    }

    lemma BlankIsSound()
      requires Shape() && modes == map[] && forall j :: 0 <= j < |items| ==> Blank(items[j])
      ensures Valid()
      ensures Settings() == seq(|items|, i => User(None, None)) && Touched() == {}
    {
      hide WellFormed;
      assert Caches() == Env(map[], map[], map[], map[], map[]);
    }
  }
}
