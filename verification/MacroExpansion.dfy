/**
The preprocessor's macro expansion: $(name,arg,...) replaced in a string, from
inside out, with a budget that bounds how often variables may refer to
themselves.
*/
module MacroExpansion {
  import opened Options

  datatype Variable = Variable(name: string, value: string)

  /** A built-in or user function: bounds on its number of arguments, and what it returns. */
  datatype Function = Function(minArgs: nat, maxArgs: Option<nat>, call: seq<string> -> Option<string>)

  /** `parseInt` is int(); the environment holds what os.environ does. */
  datatype Env = Env(variables: seq<Variable>, functions: map<string, Function>, environ: map<string, string>,
                     parseInt: string -> Option<int>)

  /** How often each variable is being expanded: Variable._n_expansions. */
  type Depths = seq<nat>

  const MaxDepth: nat := 100

  /** How many more expansions could be begun. */
  function Budget(n: Depths): nat {
    if n == [] then 0 else (if n[0] <= MaxDepth then MaxDepth + 1 - n[0] else 0) + Budget(n[1..])
  }

  lemma {:induction false} BudgetSpent(n: Depths, k: nat)
    requires k < |n| && n[k] <= MaxDepth
    ensures Budget(n[k := n[k] + 1]) == Budget(n) - 1
  {
    if k > 0 {
      BudgetSpent(n[1..], k - 1);
      assert n[k := n[k] + 1][1..] == n[1..][k - 1 := n[k] + 1];
    } else {
      assert n[k := n[k] + 1][1..] == n[1..];
    }
  }

  function Lookup(vs: seq<Variable>, name: string): (r: Option<nat>)
    ensures r.Some? ==> r.value < |vs| && vs[r.value].name == name
  {
    if vs == [] then None
    else if vs[0].name == name then Some(0)
    else
      var k :- Lookup(vs[1..], name);
      Some(k + 1)
  }

  /** Whether "$(" stands at k. */
  predicate MacroAt(s: string, k: nat) {
    k + 1 < |s| && s[k] == '$' && s[k + 1] == '('
  }

  predicate SpecialAt(s: string, k: nat) {
    k < |s| && (s[k] == '(' || s[k] == ')' || s[k] == ',' || MacroAt(s, k))
  }

  /** s.find("$(", i) */
  function FindMacro(s: string, i: nat): (r: Option<nat>)
    ensures r.Some? ==> i <= r.value && MacroAt(s, r.value)
    decreases |s| - i
  {
    if i >= |s| then None else if MacroAt(s, i) then Some(i) else FindMacro(s, i + 1)
  }

  /** _macro_special_search() */
  function FindSpecial(s: string, i: nat): (r: Option<nat>)
    ensures r.Some? ==> i <= r.value && SpecialAt(s, r.value)
    decreases |s| - i
  {
    if i >= |s| then None else if SpecialAt(s, i) then Some(i) else FindSpecial(s, i + 1)
  }

  /** args[int(name)], with Python's negative indices. */
  function Argument(env: Env, args: seq<string>, name: string): Option<string> {
    var k :- env.parseInt(name);
    if 0 <= k < |args| then Some(args[k])
    else if k < 0 && -k <= |args| then Some(args[|args| + k])
    else None
  }

  /** A string and the position after the expanded part. */
  type Place = (string, nat)

  /** What expanding at i leaves alone: the text before `start`, and what follows the macro. */
  predicate Kept(s: string, i: nat, start: nat, r: Place) {
    && start <= r.1 <= |r.0| && start <= |s| && r.0[..start] == s[..start]
    && i <= |s| && |r.0| - r.1 < |s| - i && r.0[r.1..] == s[|s| - (|r.0| - r.1)..]
  }

  /** _expand_whole() from position i on; None is an error. */
  function ExpandWhole(env: Env, n: Depths, s: string, i: nat, args: seq<string>): (r: Option<string>)
    requires |n| == |env.variables|
    ensures r.Some? && i <= |s| ==> i <= |r.value| && r.value[..i] == s[..i]
    decreases Budget(n), |s| - i, 3
  {
    match FindMacro(s, i)
    case None => Some(s)
    case Some(k) =>
      var p :- ExpandMacro(env, n, s, k, args);
      ExpandWhole(env, n, p.0, p.1, args)
  }

  /** _expand_macro() */
  function ExpandMacro(env: Env, n: Depths, s: string, i: nat, args: seq<string>): (r: Option<Place>)
    requires |n| == |env.variables| && MacroAt(s, i)
    ensures r.Some? ==> Kept(s, i, i, r.value)
    decreases Budget(n), |s| - i, 1
  {
    Scan(env, n, s, i, i + 2, i + 2, [], 0, args)
  }

  /**
  The loop of _expand_macro() for a macro that begins at `start`: position i,
  the start of the current argument, the arguments so far, the nesting level.
  */
  function Scan(env: Env, n: Depths, s: string, start: nat, i: nat, argStart: nat, newArgs: seq<string>, nesting: nat,
                args: seq<string>): (r: Option<Place>)
    requires |n| == |env.variables| && start <= argStart <= i <= |s|
    ensures r.Some? ==> Kept(s, i, start, r.value)
    decreases Budget(n), |s| - i, 2
  {
    match FindSpecial(s, i)
    case None => None
    case Some(k) =>
      if s[k] == '(' then Scan(env, n, s, start, k + 1, argStart, newArgs, nesting + 1, args)
      else if s[k] == ')' then
        if nesting > 0 then Scan(env, n, s, start, k + 1, argStart, newArgs, nesting - 1, args)
        else
          var all := newArgs + [s[argStart..k]];
          var value :- MacroValue(env, n, all, args);
          Some((s[..start] + value + s[k + 1..], start + |value|))
      else if s[k] == ',' then
        if nesting > 0 then Scan(env, n, s, start, k + 1, argStart, newArgs, nesting, args)
        else Scan(env, n, s, start, k + 1, k + 1, newArgs + [s[argStart..k]], nesting, args)
      else
        var p :- ExpandMacro(env, n, s, k, args);
        assert p.0[..start] == p.0[..k][..start];
        Scan(env, n, p.0, start, p.1, argStart, newArgs, nesting, args)
  }

  /** An argument of the macro being expanded, or the value of a function or variable. */
  function MacroValue(env: Env, n: Depths, newArgs: seq<string>, args: seq<string>): Option<string>
    requires |n| == |env.variables| && newArgs != []
    decreases Budget(n), 0, 1
  {
    var a := Argument(env, args, newArgs[0]);
    if a.Some? then a else FnVal(env, n, newArgs)
  }

  /** Whether variable k may be expanded once more. */
  predicate Allowed(n: Depths, k: nat, args: seq<string>)
    requires k < |n|
  {
    if |args| == 1 then n[k] == 0 else n[k] <= MaxDepth
  }

  /** _fn_val() */
  function FnVal(env: Env, n: Depths, args: seq<string>): Option<string>
    requires |n| == |env.variables| && args != []
    decreases Budget(n), 0, 0
  {
    var fn := args[0];
    match Lookup(env.variables, fn)
    case Some(k) =>
      if !Allowed(n, k, args) then None
      else
        BudgetSpent(n, k);
        ExpandWhole(env, n[k := n[k] + 1], env.variables[k].value, 0, args)
    case None =>
      if fn in env.functions then
        var f := env.functions[fn];
        if |args| - 1 < f.minArgs || (f.maxArgs.Some? && |args| - 1 > f.maxArgs.value) then None
        else f.call(args)
      else if fn in env.environ then Some(env.environ[fn])
      else Some("")
  }

  // -- where a macro ends ----------------------------------------------------------

  /** The text after the parenthesis that closes d open ones. */
  function AfterClosing(t: string, d: nat): Option<string>
    requires d > 0
  {
    if t == "" then None
    else if t[0] == '(' then AfterClosing(t[1..], d + 1)
    else if t[0] == ')' then if d == 1 then Some(t[1..]) else AfterClosing(t[1..], d - 1)
    else AfterClosing(t[1..], d)
  }

  lemma {:induction false} ClosingInTwo(t: string, d: nat, e: nat)
    requires d > 0 && e > 0 && AfterClosing(t, d).Some?
    ensures AfterClosing(t, d + e) == AfterClosing(AfterClosing(t, d).value, e)
  {
    if t[0] == '(' {
      ClosingInTwo(t[1..], d + 1, e);
    } else if t[0] == ')' {
      if d > 1 {
        ClosingInTwo(t[1..], d - 1, e);
      }
    } else {
      ClosingInTwo(t[1..], d, e);
    }
  }

  /** Up to the next special character nothing is opened or closed. */
  lemma {:induction false} SkipOrdinary(s: string, i: nat, d: nat)
    requires d > 0 && i <= |s| && FindSpecial(s, i).Some?
    ensures AfterClosing(s[i..], d) == AfterClosing(s[FindSpecial(s, i).value..], d)
    decreases |s| - i
  {
    if !SpecialAt(s, i) {
      assert s[i..][1..] == s[i + 1..];
      SkipOrdinary(s, i + 1, d);
    }
  }

  lemma ClosingStep(s: string, k: nat, d: nat)
    requires d > 0 && SpecialAt(s, k)
    ensures s[k] == '(' ==> AfterClosing(s[k..], d) == AfterClosing(s[k + 1..], d + 1)
    ensures s[k] == ')' && d > 1 ==> AfterClosing(s[k..], d) == AfterClosing(s[k + 1..], d - 1)
    ensures s[k] == ')' && d == 1 ==> AfterClosing(s[k..], d) == Some(s[k + 1..])
    ensures s[k] == ',' ==> AfterClosing(s[k..], d) == AfterClosing(s[k + 1..], d)
    ensures MacroAt(s, k) ==> AfterClosing(s[k..], d) == AfterClosing(s[k + 2..], d + 1)
  {
    assert s[k..][1..] == s[k + 1..];
    if MacroAt(s, k) {
      assert s[k + 1..][1..] == s[k + 2..];
    }
  }

  /** One round of the loop. */
  lemma ScanUnfolds(env: Env, n: Depths, s: string, start: nat, i: nat, argStart: nat, newArgs: seq<string>,
                    nesting: nat, args: seq<string>, k: nat)
    requires |n| == |env.variables| && start <= argStart <= i <= |s| && FindSpecial(s, i) == Some(k)
    ensures var r := Scan(env, n, s, start, i, argStart, newArgs, nesting, args);
      && (s[k] == '(' ==> r == Scan(env, n, s, start, k + 1, argStart, newArgs, nesting + 1, args))
      && (s[k] == ')' && nesting > 0 ==> r == Scan(env, n, s, start, k + 1, argStart, newArgs, nesting - 1, args))
      && (s[k] == ')' && nesting == 0 ==> r == Finished(s, start, k, MacroValue(env, n, newArgs + [s[argStart..k]], args)))
      && (s[k] == ',' && nesting > 0 ==> r == Scan(env, n, s, start, k + 1, argStart, newArgs, nesting, args))
      && (s[k] == ',' && nesting == 0 ==>
            r == Scan(env, n, s, start, k + 1, k + 1, newArgs + [s[argStart..k]], nesting, args))
    ensures MacroAt(s, k) ==>
      var p := ExpandMacro(env, n, s, k, args);
      var r := Scan(env, n, s, start, i, argStart, newArgs, nesting, args);
      && (p.None? ==> r.None?)
      && (p.Some? ==> r == Scan(env, n, p.value.0, start, p.value.1, argStart, newArgs, nesting, args))
  {
    hide MacroValue, FindSpecial, ExpandMacro;
  }

  function Finished(s: string, start: nat, k: nat, value: Option<string>): Option<Place>
    requires start <= k < |s|
  {
    match value
    case None => None
    case Some(v) => Some((s[..start] + v + s[k + 1..], start + |v|))
  }

  /** A scan that succeeds ends after the parenthesis closing its macro. */
  predicate EndsAt(env: Env, n: Depths, s: string, start: nat, i: nat, argStart: nat, newArgs: seq<string>,
                   nesting: nat, args: seq<string>)
    requires |n| == |env.variables| && start <= argStart <= i <= |s|
  {
    match Scan(env, n, s, start, i, argStart, newArgs, nesting, args)
    case None => true
    case Some(p) => p.1 <= |p.0| && AfterClosing(s[i..], nesting + 1) == Some(p.0[p.1..])
  }

  lemma {:induction false} ScanEnds(env: Env, n: Depths, s: string, start: nat, i: nat, argStart: nat, newArgs: seq<string>,
                                    nesting: nat, args: seq<string>)
    requires |n| == |env.variables| && start <= argStart <= i <= |s|
    ensures EndsAt(env, n, s, start, i, argStart, newArgs, nesting, args)
    decreases |s| - i, 1
  {
    hide MacroValue, AfterClosing, FindSpecial, Scan, ExpandMacro;
    if FindSpecial(s, i).None? {
      ScanNone(env, n, s, start, i, argStart, newArgs, nesting, args);
    } else {
      var k := FindSpecial(s, i).value;
      SkipOrdinary(s, i, nesting + 1);
      ScanUnfolds(env, n, s, start, i, argStart, newArgs, nesting, args, k);
      ClosingStep(s, k, nesting + 1);
      RoundEnds(env, n, s, start, k, argStart, newArgs, nesting, args);
      assert s[k] != '(' && s[k] != ')' && s[k] != ',' ==> MacroAt(s, k);
    }
  }

  /** The recursive calls of one round. */
  lemma {:induction false} RoundEnds(env: Env, n: Depths, s: string, start: nat, k: nat, argStart: nat, newArgs: seq<string>,
                                     nesting: nat, args: seq<string>)
    requires |n| == |env.variables| && start <= argStart <= k < |s| && SpecialAt(s, k)
    ensures s[k] == '(' ==> EndsAt(env, n, s, start, k + 1, argStart, newArgs, nesting + 1, args)
    ensures s[k] == ')' && nesting > 0 ==> EndsAt(env, n, s, start, k + 1, argStart, newArgs, nesting - 1, args)
    ensures s[k] == ')' && nesting == 0 ==>
      var p := Finished(s, start, k, MacroValue(env, n, newArgs + [s[argStart..k]], args));
      p.Some? ==> p.value.1 <= |p.value.0| && p.value.0[p.value.1..] == s[k + 1..]
    ensures s[k] == ',' && nesting > 0 ==> EndsAt(env, n, s, start, k + 1, argStart, newArgs, nesting, args)
    ensures s[k] == ',' && nesting == 0 ==> EndsAt(env, n, s, start, k + 1, k + 1, newArgs + [s[argStart..k]], nesting, args)
    ensures MacroAt(s, k) && ExpandMacro(env, n, s, k, args).Some? ==>
      var p := ExpandMacro(env, n, s, k, args).value;
      && EndsAt(env, n, p.0, start, p.1, argStart, newArgs, nesting, args)
      && AfterClosing(s[k + 2..], nesting + 2) == AfterClosing(p.0[p.1..], nesting + 1)
    decreases |s| - k, 0
  {
    hide MacroValue, AfterClosing, FindSpecial, Scan, EndsAt, ExpandMacro;
    if s[k] == '(' {
      ScanEnds(env, n, s, start, k + 1, argStart, newArgs, nesting + 1, args);
    } else if s[k] == ')' {
      if nesting > 0 {
        ScanEnds(env, n, s, start, k + 1, argStart, newArgs, nesting - 1, args);
      }
    } else if s[k] == ',' {
      if nesting > 0 {
        ScanEnds(env, n, s, start, k + 1, argStart, newArgs, nesting, args);
      } else {
        ScanEnds(env, n, s, start, k + 1, k + 1, newArgs + [s[argStart..k]], nesting, args);
      }
    } else {
      ScanEnds(env, n, s, k, k + 2, k + 2, [], 0, args);
      NestedEnds(env, n, s, k, nesting, args);
      var p := ExpandMacro(env, n, s, k, args);
      if p.Some? {
        ScanEnds(env, n, p.value.0, start, p.value.1, argStart, newArgs, nesting, args);
      }
    }
  }

  lemma NestedEnds(env: Env, n: Depths, s: string, k: nat, nesting: nat, args: seq<string>)
    requires |n| == |env.variables| && MacroAt(s, k) && EndsAt(env, n, s, k, k + 2, k + 2, [], 0, args)
    ensures ExpandMacro(env, n, s, k, args).Some? ==>
      var p := ExpandMacro(env, n, s, k, args).value;
      p.1 <= |p.0| && AfterClosing(s[k + 2..], nesting + 2) == AfterClosing(p.0[p.1..], nesting + 1)
  {
    if ExpandMacro(env, n, s, k, args).Some? {
      hide Scan, AfterClosing;
      ClosingInTwo(s[k + 2..], 1, nesting + 1);
    }
  }

  /** What follows an expanded macro is what followed its closing parenthesis. */
  lemma MacroEndsAtMatch(env: Env, n: Depths, s: string, i: nat, args: seq<string>)
    requires |n| == |env.variables| && MacroAt(s, i) && ExpandMacro(env, n, s, i, args).Some?
    ensures var p := ExpandMacro(env, n, s, i, args).value;
      p.1 <= |p.0| && AfterClosing(s[i + 2..], 1) == Some(p.0[p.1..])
  {
    ScanEnds(env, n, s, i, i + 2, i + 2, [], 0, args);
  }

  // -- what comes before a macro does not matter ------------------------------------------

  lemma {:induction false} FindSpecialShift(q: string, s: string, i: nat)
    ensures FindSpecial(q + s, |q| + i) == match FindSpecial(s, i) case None => None case Some(k) => Some(|q| + k)
    decreases |s| - i
  {
    if i < |s| {
      SpecialShift(q, s, i);
      if !SpecialAt(s, i) {
        FindSpecialShift(q, s, i + 1);
      }
    }
  }

  lemma SpecialShift(q: string, s: string, i: nat)
    ensures SpecialAt(q + s, |q| + i) == SpecialAt(s, i) && MacroAt(q + s, |q| + i) == MacroAt(s, i)
  {}

  lemma {:induction false} FindMacroShift(q: string, s: string, i: nat)
    ensures FindMacro(q + s, |q| + i) == match FindMacro(s, i) case None => None case Some(k) => Some(|q| + k)
    decreases |s| - i
  {
    if i < |s| {
      SpecialShift(q, s, i);
      if !MacroAt(s, i) {
        FindMacroShift(q, s, i + 1);
      }
    }
  }

  function Shifted(q: string, r: Option<Place>): Option<Place> {
    match r
    case None => None
    case Some(p) => Some((q + p.0, |q| + p.1))
  }

  lemma {:induction false} ScanShift(env: Env, n: Depths, q: string, s: string, start: nat, i: nat, argStart: nat,
                                     newArgs: seq<string>, nesting: nat, args: seq<string>)
    requires |n| == |env.variables| && start <= argStart <= i <= |s|
    ensures ShiftsAt(env, n, q, s, start, i, argStart, newArgs, nesting, args)
    decreases |s| - i, 2
  {
    FindSpecialShift(q, s, i);
    if FindSpecial(s, i).None? {
      ScanNone(env, n, s, start, i, argStart, newArgs, nesting, args);
      ScanNone(env, n, q + s, |q| + start, |q| + i, |q| + argStart, newArgs, nesting, args);
      hide Scan;
    } else {
      hide Scan, MacroValue, FindSpecial, ExpandMacro, MacroAt, Finished, ShiftsAt;
      var k := FindSpecial(s, i).value;
      RoundShift(env, n, q, s, start, k, argStart, newArgs, nesting, args);
      if s[k] == '(' || s[k] == ',' || nesting > 0 {
        PlainRound(env, n, q, s, start, i, argStart, newArgs, nesting, args, k);
      }
      if s[k] == ')' && nesting == 0 {
        LastRound(env, n, q, s, start, i, argStart, newArgs, args, k);
      }
      if s[k] != '(' && s[k] != ')' && s[k] != ',' {
        NestedRound(env, n, q, s, start, i, argStart, newArgs, nesting, args, k);
      }
    }
  }

  /** The same character, and the same text before it, in the longer string. */
  lemma SameCharacter(q: string, s: string, argStart: nat, k: nat)
    requires argStart <= k < |s|
    ensures (q + s)[|q| + k] == s[k] && (q + s)[|q| + argStart..|q| + k] == s[argStart..k]
  {}

  lemma PlainRound(env: Env, n: Depths, q: string, s: string, start: nat, i: nat, argStart: nat,
                   newArgs: seq<string>, nesting: nat, args: seq<string>, k: nat)
    requires |n| == |env.variables| && start <= argStart <= i <= k < |s|
    requires FindSpecial(s, i) == Some(k) && FindSpecial(q + s, |q| + i) == Some(|q| + k)
    requires s[k] == '(' ==> ShiftsAt(env, n, q, s, start, k + 1, argStart, newArgs, nesting + 1, args)
    requires s[k] == ')' ==> nesting > 0 && ShiftsAt(env, n, q, s, start, k + 1, argStart, newArgs, nesting - 1, args)
    requires s[k] == ',' && nesting > 0 ==> ShiftsAt(env, n, q, s, start, k + 1, argStart, newArgs, nesting, args)
    requires s[k] == ',' && nesting == 0 ==>
               ShiftsAt(env, n, q, s, start, k + 1, k + 1, newArgs + [s[argStart..k]], nesting, args)
    ensures s[k] == '(' || s[k] == ')' || s[k] == ',' ==> ShiftsAt(env, n, q, s, start, i, argStart, newArgs, nesting, args)
  {
    hide Scan, MacroValue, FindSpecial, ExpandMacro, MacroAt, Finished;
    SameCharacter(q, s, argStart, k);
    ScanUnfolds(env, n, s, start, i, argStart, newArgs, nesting, args, k);
    ScanUnfolds(env, n, q + s, |q| + start, |q| + i, |q| + argStart, newArgs, nesting, args, |q| + k);
  }

  lemma LastRound(env: Env, n: Depths, q: string, s: string, start: nat, i: nat, argStart: nat,
                  newArgs: seq<string>, args: seq<string>, k: nat)
    requires |n| == |env.variables| && start <= argStart <= i <= k < |s| && s[k] == ')'
    requires FindSpecial(s, i) == Some(k) && FindSpecial(q + s, |q| + i) == Some(|q| + k)
    requires var v := MacroValue(env, n, newArgs + [s[argStart..k]], args);
      Finished(q + s, |q| + start, |q| + k, v) == Shifted(q, Finished(s, start, k, v))
    ensures ShiftsAt(env, n, q, s, start, i, argStart, newArgs, 0, args)
  {
    hide Scan, MacroValue, FindSpecial, ExpandMacro, MacroAt, Finished, Shifted;
    SameCharacter(q, s, argStart, k);
    ScanUnfolds(env, n, s, start, i, argStart, newArgs, 0, args, k);
    ScanUnfolds(env, n, q + s, |q| + start, |q| + i, |q| + argStart, newArgs, 0, args, |q| + k);
  }

  lemma NestedRound(env: Env, n: Depths, q: string, s: string, start: nat, i: nat, argStart: nat,
                    newArgs: seq<string>, nesting: nat, args: seq<string>, k: nat)
    requires |n| == |env.variables| && start <= argStart <= i <= k < |s| && MacroAt(s, k) && MacroAt(q + s, |q| + k)
    requires FindSpecial(s, i) == Some(k) && FindSpecial(q + s, |q| + i) == Some(|q| + k)
    requires ExpandMacro(env, n, q + s, |q| + k, args) == Shifted(q, ExpandMacro(env, n, s, k, args))
    requires ExpandMacro(env, n, s, k, args).Some? ==>
               var p := ExpandMacro(env, n, s, k, args).value;
               ShiftsAt(env, n, q, p.0, start, p.1, argStart, newArgs, nesting, args)
    ensures ShiftsAt(env, n, q, s, start, i, argStart, newArgs, nesting, args)
  {
    hide Scan, MacroValue, FindSpecial, ExpandMacro, Finished;
    ScanUnfolds(env, n, s, start, i, argStart, newArgs, nesting, args, k);
    ScanUnfolds(env, n, q + s, |q| + start, |q| + i, |q| + argStart, newArgs, nesting, args, |q| + k);
  }

  lemma ScanNone(env: Env, n: Depths, s: string, start: nat, i: nat, argStart: nat, newArgs: seq<string>,
                 nesting: nat, args: seq<string>)
    requires |n| == |env.variables| && start <= argStart <= i <= |s| && FindSpecial(s, i).None?
    ensures Scan(env, n, s, start, i, argStart, newArgs, nesting, args).None?
  {}

  /** The recursive calls of one round. */
  lemma {:induction false} RoundShift(env: Env, n: Depths, q: string, s: string, start: nat, k: nat, argStart: nat,
                                      newArgs: seq<string>, nesting: nat, args: seq<string>)
    requires |n| == |env.variables| && start <= argStart <= k < |s| && SpecialAt(s, k)
    ensures s[k] == '(' ==> ShiftsAt(env, n, q, s, start, k + 1, argStart, newArgs, nesting + 1, args)
    ensures s[k] == ')' && nesting > 0 ==> ShiftsAt(env, n, q, s, start, k + 1, argStart, newArgs, nesting - 1, args)
    ensures s[k] == ')' && nesting == 0 ==>
      var v := MacroValue(env, n, newArgs + [s[argStart..k]], args);
      Finished(q + s, |q| + start, |q| + k, v) == Shifted(q, Finished(s, start, k, v))
    ensures s[k] == ',' && nesting > 0 ==> ShiftsAt(env, n, q, s, start, k + 1, argStart, newArgs, nesting, args)
    ensures s[k] == ',' && nesting == 0 ==>
      ShiftsAt(env, n, q, s, start, k + 1, k + 1, newArgs + [s[argStart..k]], nesting, args)
    ensures MacroAt(s, k) ==>
      && MacroAt(q + s, |q| + k) && ExpandMacro(env, n, q + s, |q| + k, args) == Shifted(q, ExpandMacro(env, n, s, k, args))
      && (ExpandMacro(env, n, s, k, args).Some? ==>
            var p := ExpandMacro(env, n, s, k, args).value;
            ShiftsAt(env, n, q, p.0, start, p.1, argStart, newArgs, nesting, args))
    decreases |s| - k, 1
  {
    hide Scan, MacroValue, FindSpecial, ExpandMacro;
    if s[k] == '(' {
      ScanShift(env, n, q, s, start, k + 1, argStart, newArgs, nesting + 1, args);
    } else if s[k] == ')' {
      if nesting > 0 {
        ScanShift(env, n, q, s, start, k + 1, argStart, newArgs, nesting - 1, args);
      } else {
        FinishShift(q, s, start, k, MacroValue(env, n, newArgs + [s[argStart..k]], args));
      }
    } else if s[k] == ',' {
      if nesting > 0 {
        ScanShift(env, n, q, s, start, k + 1, argStart, newArgs, nesting, args);
      } else {
        ScanShift(env, n, q, s, start, k + 1, k + 1, newArgs + [s[argStart..k]], nesting, args);
      }
    } else {
      NestedShift(env, n, q, s, start, argStart, k, newArgs, nesting, args);
    }
  }

  predicate ShiftsAt(env: Env, n: Depths, q: string, s: string, start: nat, i: nat, argStart: nat,
                     newArgs: seq<string>, nesting: nat, args: seq<string>)
    requires |n| == |env.variables| && start <= argStart <= i <= |s|
  {
    Scan(env, n, q + s, |q| + start, |q| + i, |q| + argStart, newArgs, nesting, args)
      == Shifted(q, Scan(env, n, s, start, i, argStart, newArgs, nesting, args))
  }

  lemma {:induction false} NestedShift(env: Env, n: Depths, q: string, s: string, start: nat, argStart: nat, k: nat,
                                       newArgs: seq<string>, nesting: nat, args: seq<string>)
    requires |n| == |env.variables| && start <= argStart <= k <= |s| && MacroAt(s, k)
    ensures MacroAt(q + s, |q| + k)
    ensures var p, p1 := ExpandMacro(env, n, s, k, args), ExpandMacro(env, n, q + s, |q| + k, args);
      && p1 == Shifted(q, p)
      && (p.Some? ==> ShiftsAt(env, n, q, p.value.0, start, p.value.1, argStart, newArgs, nesting, args))
    decreases |s| - k, 0
  {
    hide Scan;
    SpecialShift(q, s, k);
    ScanShift(env, n, q, s, k, k + 2, k + 2, [], 0, args);
    var p := ExpandMacro(env, n, s, k, args);
    if p.Some? {
      ScanShift(env, n, q, p.value.0, start, p.value.1, argStart, newArgs, nesting, args);
    }
  }

  lemma FinishShift(q: string, s: string, start: nat, k: nat, value: Option<string>)
    requires start <= k < |s|
    ensures Finished(q + s, |q| + start, |q| + k, value) == Shifted(q, Finished(s, start, k, value))
  {
    assert (q + s)[..|q| + start] == q + s[..start];
    assert (q + s)[|q| + k + 1..] == s[k + 1..];
    if value.Some? {
      assert q + s[..start] + value.value + s[k + 1..] == q + (s[..start] + value.value + s[k + 1..]);
    }
  }

  lemma {:induction false} ExpandWholeShift(env: Env, n: Depths, q: string, s: string, i: nat, args: seq<string>)
    requires |n| == |env.variables|
    ensures ExpandWhole(env, n, q + s, |q| + i, args) ==
      match ExpandWhole(env, n, s, i, args) case None => None case Some(x) => Some(q + x)
    decreases |s| - i
  {
    hide ExpandMacro, Scan, FindMacro, ExpandWhole, ShiftsAt;
    FindMacroShift(q, s, i);
    var found := FindMacro(s, i);
    if found.None? {
      WholeNone(env, n, s, i, args);
      WholeNone(env, n, q + s, |q| + i, args);
    } else {
      var k := found.value;
      NestedShift(env, n, q, s, k, k, k, [], 0, args);
      WholeUnfolds(env, n, s, i, args, k);
      WholeUnfolds(env, n, q + s, |q| + i, args, |q| + k);
      var p := ExpandMacro(env, n, s, k, args);
      if p.Some? {
        ExpandWholeShift(env, n, q, p.value.0, p.value.1, args);
      }
    }
  }

  lemma WholeNone(env: Env, n: Depths, s: string, i: nat, args: seq<string>)
    requires |n| == |env.variables| && FindMacro(s, i).None?
    ensures ExpandWhole(env, n, s, i, args) == Some(s)
  {
    hide ExpandMacro;
  }

  lemma WholeUnfolds(env: Env, n: Depths, s: string, i: nat, args: seq<string>, k: nat)
    requires |n| == |env.variables| && FindMacro(s, i) == Some(k)
    ensures var p := ExpandMacro(env, n, s, k, args);
      ExpandWhole(env, n, s, i, args) == if p.None? then None else ExpandWhole(env, n, p.value.0, p.value.1, args)
  {
    hide ExpandMacro;
  }

  /**
  Expanding goes through a string once, from left to right: it keeps the text
  before the first macro, puts the macro's value there without looking at it
  again, and goes on with the text after the macro's closing parenthesis.
  */
  lemma WholeInOrder(env: Env, n: Depths, s: string, args: seq<string>)
    requires |n| == |env.variables| && ExpandWhole(env, n, s, 0, args).Some?
    ensures var x := ExpandWhole(env, n, s, 0, args).value;
      match FindMacro(s, 0)
      case None => x == s
      case Some(k) =>
        var p := ExpandMacro(env, n, s, k, args);
        && p.Some? && p.value.1 <= |p.value.0| && k <= p.value.1 && p.value.0[..k] == s[..k]
        && AfterClosing(s[k + 2..], 1) == Some(p.value.0[p.value.1..])
        && var tail := ExpandWhole(env, n, p.value.0[p.value.1..], 0, args);
           tail.Some? && x == p.value.0[..p.value.1] + tail.value
  {
    var found := FindMacro(s, 0);
    if found.Some? {
      var k := found.value;
      var p := ExpandMacro(env, n, s, k, args).value;
      MacroEndsAtMatch(env, n, s, k, args);
      hide ExpandMacro, FindMacro, AfterClosing;
      ExpandWholeShift(env, n, p.0[..p.1], p.0[p.1..], 0, args);
      assert p.0[..p.1] + p.0[p.1..] == p.0;
    }
  }

  /** A plain variable that mentions itself cannot be expanded. */
  lemma SelfReferenceFails(env: Env, n: Depths, k: nat, args: seq<string>, name: string)
    requires |n| == |env.variables| && Lookup(env.variables, name) == Some(k) && n[k] > 0
    requires Argument(env, args, name).None?
    ensures MacroValue(env, n, [name], args).None?
  {}

  // -- the expander as it is written ----------------------------------------------------

  class Preprocessor {
    const env: Env
    var n: Depths

    predicate Valid()
      reads this
    {
      |n| == |env.variables|
    }

    constructor (env: Env)
      ensures this.env == env && Valid() && n == seq(|env.variables|, _ => 0)
    {
      this.env := env;
      n := seq(|env.variables|, _ => 0);
    }

    /** _expand_whole(); the expansion counts are as before unless there was an error. */
    method ExpandText(text: string, args: seq<string>) returns (r: Option<string>)
      requires Valid()
      modifies this
      ensures Valid() && r == ExpandWhole(env, old(n), text, 0, args)
      ensures r.Some? ==> n == old(n)
      decreases Budget(n), |text|, 3
    {
      var s: string, i: nat := text, 0;
      while true
        invariant Valid() && n == old(n) && i <= |s| && |s| - i <= |text|
        invariant ExpandWhole(env, n, s, i, args) == ExpandWhole(env, n, text, 0, args)
        decreases |s| - i
      {
        hide ExpandMacro;
        var found := FindMacro(s, i);
        if found.None? {
          return Some(s);
        }
        var p := ExpandMacroAt(s, found.value, args);
        if p.None? {
          return None;
        }
        s, i := p.value.0, p.value.1;
      }
    }

    /** _expand_macro() */
    method ExpandMacroAt(text: string, at: nat, args: seq<string>) returns (r: Option<Place>)
      requires Valid() && MacroAt(text, at)
      modifies this
      ensures Valid() && r == ExpandMacro(env, old(n), text, at, args)
      ensures r.Some? ==> n == old(n)
      decreases Budget(n), |text| - at, 1
    {
      var s, i, argStart := text, at + 2, at + 2;
      var newArgs: seq<string>, nesting := [], 0;
      assert ExpandMacro(env, n, text, at, args) == Scan(env, n, s, at, i, argStart, newArgs, nesting, args);
      while true
        invariant Valid() && n == old(n) && at <= argStart <= i <= |s| && |s| - i < |text| - at
        invariant s[..at] == text[..at]
        invariant Scan(env, n, s, at, i, argStart, newArgs, nesting, args) == ExpandMacro(env, n, text, at, args)
        decreases |s| - i
      {
        hide MacroValue, FindSpecial, Scan, ExpandMacro;
        var found := FindSpecial(s, i);
        if found.None? {
          ScanNone(env, n, s, at, i, argStart, newArgs, nesting, args);
          return None;
        }
        var k := found.value;
        ScanUnfolds(env, n, s, at, i, argStart, newArgs, nesting, args, k);
        if s[k] == '(' {
          nesting := nesting + 1;
          i := k + 1;
        } else if s[k] == ')' {
          if nesting > 0 {
            nesting := nesting - 1;
            i := k + 1;
            continue;
          }
          newArgs := newArgs + [s[argStart..k]];
          var value := ValueOf(newArgs, args);
          return if value.None? then None else Some((s[..at] + value.value + s[k + 1..], at + |value.value|));
        } else if s[k] == ',' {
          i := k + 1;
          if nesting > 0 {
            continue;
          }
          newArgs := newArgs + [s[argStart..k]];
          argStart := i;
        } else {
          var p := ExpandMacroAt(s, k, args);
          if p.None? {
            return None;
          }
          assert p.value.0[..at] == p.value.0[..k][..at];
          s, i := p.value.0, p.value.1;
        }
      }
    }

    /** What a macro is replaced by. */
    method ValueOf(newArgs: seq<string>, args: seq<string>) returns (value: Option<string>)
      requires Valid() && newArgs != []
      modifies this
      ensures Valid() && value == MacroValue(env, old(n), newArgs, args)
      ensures value.Some? ==> n == old(n)
      decreases Budget(n), 0, 1
    {
      value := Argument(env, args, newArgs[0]);
      if value.None? {
        value := FnValue(newArgs);
      }
    }

    /** _fn_val() */
    method FnValue(args: seq<string>) returns (r: Option<string>)
      requires Valid() && args != []
      modifies this
      ensures Valid() && r == FnVal(env, old(n), args)
      ensures r.Some? ==> n == old(n)
      decreases Budget(n), 0, 0
    {
      var fn := args[0];
      var found := Lookup(env.variables, fn);
      if found.Some? {
        var k := found.value;
        if |args| == 1 {
          if n[k] != 0 {
            return None;
          }
        } else if n[k] > MaxDepth {
          return None;
        }
        BudgetSpent(n, k);
        n := n[k := n[k] + 1];
        r := ExpandText(env.variables[k].value, args);
        if r.Some? {
          n := n[k := n[k] - 1];
        }
        return;
      }
      if fn in env.functions {
        var f := env.functions[fn];
        if |args| - 1 < f.minArgs || (f.maxArgs.Some? && |args| - 1 > f.maxArgs.value) {
          return None;
        }
        return f.call(args);
      }
      if fn in env.environ {
        return Some(env.environ[fn]);
      }
      return Some("");
    }
  }
}
