/**
What a macro stands for: how its text splits into arguments, and what arguments,
variables, functions and the environment contribute.
*/
module MacroCalls {
  import opened Options
  import opened MacroExpansion

  // ---------------------------------------------------------------------
  // Splitting into arguments
  // ---------------------------------------------------------------------

  /** Text without macros, with d parentheses to close, and with commas only inside parentheses. */
  predicate Piece(t: string, d: nat) {
    if t == "" then d == 0
    else if t[0] == '(' then Piece(t[1..], d + 1)
    else if t[0] == ')' then d > 0 && Piece(t[1..], d - 1)
    else if t[0] == ',' then d > 0 && Piece(t[1..], d)
    else !(t[0] == '$' && |t| > 1 && t[1] == '(') && Piece(t[1..], d)
  }

  predicate Pieces(ps: seq<string>) {
    forall k :: 0 <= k < |ps| ==> Piece(ps[k], 0)
  }

  function Commas(ps: seq<string>): string
    requires ps != []
  {
    if |ps| == 1 then ps[0] else ps[0] + "," + Commas(ps[1..])
  }

  /** A macro call: $(name,arg,...) */
  function Call(ps: seq<string>): string
    requires ps != []
  {
    "$(" + Commas(ps) + ")"
  }

  lemma Ordinary(env: Env, n: Depths, s: string, start: nat, i: nat, argStart: nat, newArgs: seq<string>, nesting: nat, args: seq<string>)
    requires |n| == |env.variables| && start <= argStart <= i < |s| && !SpecialAt(s, i)
    ensures Scan(env, n, s, start, i, argStart, newArgs, nesting, args) == Scan(env, n, s, start, i + 1, argStart, newArgs, nesting, args)
  {
    assert FindSpecial(s, i) == FindSpecial(s, i + 1);
    if FindSpecial(s, i).None? {
      ScanNone(env, n, s, start, i, argStart, newArgs, nesting, args);
      ScanNone(env, n, s, start, i + 1, argStart, newArgs, nesting, args);
    } else {
      var k := FindSpecial(s, i).value;
      hide Scan, MacroValue, ExpandMacro, FindSpecial, MacroAt;
      ScanUnfolds(env, n, s, start, i, argStart, newArgs, nesting, args, k);
      ScanUnfolds(env, n, s, start, i + 1, argStart, newArgs, nesting, args, k);
    }
  }

  /** The loop runs through a piece without splitting it. */
  lemma {:induction false} PieceScanned(env: Env, n: Depths, s: string, start: nat, i: nat, argStart: nat, newArgs: seq<string>,
                                        nesting: nat, args: seq<string>, t: string)
    requires |n| == |env.variables| && start <= argStart <= i && i + |t| < |s| && s[i..i + |t|] == t && Piece(t, nesting)
    requires s[i + |t|] == ',' || s[i + |t|] == ')'
    ensures Scan(env, n, s, start, i, argStart, newArgs, nesting, args) == Scan(env, n, s, start, i + |t|, argStart, newArgs, 0, args)
    decreases |t|
  {
    if t != "" {
      var u := t[1..];
      assert s[i] == t[0] && s[i + 1..i + 1 + |u|] == u;
      assert |t| > 1 ==> s[i + 1] == t[1];
      hide Scan, MacroValue, ExpandMacro, Piece;
      PieceStep(t, nesting);
      if SpecialAt(s, i) {
        assert FindSpecial(s, i) == Some(i);
        hide FindSpecial;
        ScanUnfolds(env, n, s, start, i, argStart, newArgs, nesting, args, i);
        PieceScanned(env, n, s, start, i + 1, argStart, newArgs,
                     if t[0] == '(' then nesting + 1 else if t[0] == ')' then nesting - 1 else nesting, args, u);
      } else {
        Ordinary(env, n, s, start, i, argStart, newArgs, nesting, args);
        PieceScanned(env, n, s, start, i + 1, argStart, newArgs, nesting, args, u);
      }
    }
  }

  lemma PieceStep(t: string, d: nat)
    requires t != "" && Piece(t, d)
    ensures t[0] == '(' ==> Piece(t[1..], d + 1)
    ensures t[0] == ')' ==> d > 0 && Piece(t[1..], d - 1)
    ensures t[0] == ',' ==> d > 0
    ensures t[0] != '(' && t[0] != ')' ==> Piece(t[1..], d)
    ensures t[0] == '$' && |t| > 1 ==> t[1] != '('
  {}

  /** The rest of the macro from i on consists of the arguments ps; post follows it. */
  predicate Follows(s: string, i: nat, ps: seq<string>, post: string)
    requires ps != []
  {
    i <= |s| && s[i..] == Commas(ps) + ")" + post
  }

  /** A value between two texts, and where it ends. */
  function Placed(pre: string, v: Option<string>, post: string): Option<Place> {
    match v
    case None => None
    case Some(x) => Some((pre + x + post, |pre| + |x|))
  }

  /** The loop at the end of an argument. */
  lemma ArgumentEnds(env: Env, n: Depths, s: string, start: nat, i: nat, k: nat, newArgs: seq<string>, args: seq<string>, t: string)
    requires |n| == |env.variables| && start <= i <= k < |s| && k == i + |t| && s[i..k] == t && (s[k] == ')' || s[k] == ',')
    ensures s[k] == ')' ==>
      Scan(env, n, s, start, k, i, newArgs, 0, args) == Placed(s[..start], MacroValue(env, n, newArgs + [t], args), s[k + 1..])
    ensures s[k] == ',' ==>
      Scan(env, n, s, start, k, i, newArgs, 0, args) == Scan(env, n, s, start, k + 1, k + 1, newArgs + [t], 0, args)
  {
    SeparatorFound(s, k);
    hide Scan, MacroValue, ExpandMacro, FindSpecial;
    ScanUnfolds(env, n, s, start, k, i, newArgs, 0, args, k);
  }

  /** What is left of the arguments, from one of them on. */
  lemma {:induction false} ArgumentsScanned(env: Env, n: Depths, s: string, start: nat, i: nat, newArgs: seq<string>, args: seq<string>,
                                            ps: seq<string>, post: string)
    requires |n| == |env.variables| && start <= i <= |s| && ps != [] && Pieces(ps) && Follows(s, i, ps, post)
    ensures Scan(env, n, s, start, i, i, newArgs, 0, args) == Placed(s[..start], MacroValue(env, n, newArgs + ps, args), post)
    decreases |ps|
  {
    hide Scan, MacroValue, ExpandMacro, Piece, Placed, Follows;
    var t := ps[0];
    var k := i + |t|;
    NextPiece(s, i, ps, post);
    PieceScanned(env, n, s, start, i, i, newArgs, 0, args, t);
    ArgumentEnds(env, n, s, start, i, k, newArgs, args, t);
    if |ps| == 1 {
      assert newArgs + ps == newArgs + [t];
    } else {
      assert newArgs + ps == newArgs + [t] + ps[1..];
      ArgumentsScanned(env, n, s, start, k + 1, newArgs + [t], args, ps[1..], post);
    }
  }

  lemma NextPiece(s: string, i: nat, ps: seq<string>, post: string)
    requires ps != [] && Follows(s, i, ps, post)
    ensures var k := i + |ps[0]|;
      && k < |s| && s[i..k] == ps[0] && s[k] == (if |ps| == 1 then ')' else ',')
      && (|ps| == 1 ==> s[k + 1..] == post) && (|ps| > 1 ==> Follows(s, k + 1, ps[1..], post))
  {
    hide Commas;
    var rest, m := s[i..], |ps[0]|;
    CommasSplit(ps, post, rest);
    assert rest[..m] == s[i..i + m] && rest[m] == s[i + m] && rest[m + 1..] == s[i + m + 1..];
  }

  lemma SeparatorFound(s: string, k: nat)
    requires k < |s| && (s[k] == ')' || s[k] == ',')
    ensures FindSpecial(s, k) == Some(k)
  {}

  lemma CommasSplit(ps: seq<string>, post: string, rest: string)
    requires ps != [] && rest == Commas(ps) + ")" + post
    ensures var t := ps[0];
      && |t| < |rest| && rest[..|t|] == t && rest[|t|] == (if |ps| == 1 then ')' else ',')
      && rest[|t| + 1..] == if |ps| == 1 then post else Commas(ps[1..]) + ")" + post
  {
    var t := ps[0];
    if |ps| == 1 {
      assert rest == t + (")" + post);
    } else {
      assert rest == t + ("," + (Commas(ps[1..]) + ")" + post));
    }
  }

  /** A call of pieces is replaced by the value for exactly these pieces; the text around it stays. */
  lemma CallExpands(env: Env, n: Depths, pre: string, ps: seq<string>, post: string, args: seq<string>)
    requires |n| == |env.variables| && ps != [] && Pieces(ps)
    ensures var s := pre + Call(ps) + post;
      MacroAt(s, |pre|) && ExpandMacro(env, n, s, |pre|, args) == Placed(pre, MacroValue(env, n, ps, args), post)
  {
    hide Scan, MacroValue, Placed, Piece, Follows;
    var s := pre + Call(ps) + post;
    CallParts(pre, ps, post);
    assert [] + ps == ps;
    ArgumentsScanned(env, n, s, |pre|, |pre| + 2, [], args, ps, post);
  }

  lemma CallParts(pre: string, ps: seq<string>, post: string)
    requires ps != []
    ensures var s := pre + Call(ps) + post;
      MacroAt(s, |pre|) && Follows(s, |pre| + 2, ps, post) && s[..|pre|] == pre
  {
    hide Commas;
    var rest := Commas(ps) + ")" + post;
    assert pre + Call(ps) + post == pre + ("$(" + rest);
  }

  // ---------------------------------------------------------------------
  // What it stands for
  // ---------------------------------------------------------------------

  /** The name is a number that counts the arguments of the call being expanded, from the end where it is negative. */
  predicate IsIndex(env: Env, args: seq<string>, name: string, k: nat) {
    k < |args| && (env.parseInt(name) == Some(k) || env.parseInt(name) == Some(k - |args|))
  }

  ghost predicate NoIndex(env: Env, args: seq<string>, name: string) {
    forall k: nat :: !IsIndex(env, args, name, k)
  }

  lemma ArgumentMeans(env: Env, args: seq<string>, name: string)
    ensures forall k: nat :: IsIndex(env, args, name, k) ==> Argument(env, args, name) == Some(args[k])
    ensures NoIndex(env, args, name) ==> Argument(env, args, name) == None
  {
    var p := env.parseInt(name);
    if p.Some? && Argument(env, args, name).Some? {
      assert IsIndex(env, args, name, if p.value >= 0 then p.value else |args| + p.value);
    }
  }

  predicate NoVariable(env: Env, name: string) {
    forall k :: 0 <= k < |env.variables| ==> env.variables[k].name != name
  }

  lemma {:induction false} LookupNone(vs: seq<Variable>, name: string)
    ensures Lookup(vs, name).None? <==> forall k :: 0 <= k < |vs| ==> vs[k].name != name
  {
    if vs != [] && vs[0].name != name {
      LookupNone(vs[1..], name);
      assert forall k :: 0 <= k < |vs[1..]| ==> vs[k + 1] == vs[1..][k];
      assert forall k :: 0 < k < |vs| ==> vs[k] == vs[1..][k - 1];
    }
  }

  lemma {:induction false} LookupFirst(vs: seq<Variable>, name: string, k: nat)
    requires k < |vs| && vs[k].name == name && forall j :: 0 <= j < k ==> vs[j].name != name
    ensures Lookup(vs, name) == Some(k)
  {
    if k > 0 {
      assert forall j :: 0 <= j < k - 1 ==> vs[1..][j] == vs[j + 1];
      LookupFirst(vs[1..], name, k - 1);
    }
  }

  /** In a macro that is expanded for a call, $(k) is the k-th part of the call, its name being the 0-th. */
  lemma ArgumentReplaced(env: Env, n: Depths, pre: string, name: string, post: string, args: seq<string>, k: nat)
    requires |n| == |env.variables| && Piece(name, 0) && IsIndex(env, args, name, k)
    ensures ExpandMacro(env, n, pre + Call([name]) + post, |pre|, args).Some? && MacroAt(pre + Call([name]) + post, |pre|)
    ensures ExpandMacro(env, n, pre + Call([name]) + post, |pre|, args) == Some((pre + args[k] + post, |pre| + |args[k]|))
  {
    hide Piece, Call;
    CallExpands(env, n, pre, [name], post, args);
    ArgumentMeans(env, args, name);
  }

  /** What a call of a name that is no index comes to: a variable's value, expanded for this call, a function's result, the environment's text, or nothing. */
  ghost predicate Stands(env: Env, n: Depths, ps: seq<string>, r: Option<string>)
    requires |n| == |env.variables| && ps != []
  {
    var name := ps[0];
    && (forall k: nat :: k < |env.variables| && env.variables[k].name == name && (forall j :: 0 <= j < k ==> env.variables[j].name != name) ==>
          if (if |ps| == 1 then n[k] > 0 else n[k] > 100) then r == None
          else r == ExpandWhole(env, n[k := n[k] + 1], env.variables[k].value, 0, ps))
    && (NoVariable(env, name) && name in env.functions ==>
          var f := env.functions[name];
          if f.minArgs <= |ps| - 1 && (f.maxArgs.Some? ==> |ps| - 1 <= f.maxArgs.value) then r == f.call(ps) else r == None)
    && (NoVariable(env, name) && name !in env.functions && name in env.environ ==> r == Some(env.environ[name]))
    && (NoVariable(env, name) && name !in env.functions && name !in env.environ ==> r == Some(""))
  }

  lemma CallStands(env: Env, n: Depths, ps: seq<string>, args: seq<string>)
    requires |n| == |env.variables| && ps != [] && NoIndex(env, args, ps[0])
    ensures Stands(env, n, ps, MacroValue(env, n, ps, args))
  {
    ArgumentMeans(env, args, ps[0]);
    LookupNone(env.variables, ps[0]);
    forall k: nat | k < |env.variables| && env.variables[k].name == ps[0] && (forall j :: 0 <= j < k ==> env.variables[j].name != ps[0])
      ensures Lookup(env.variables, ps[0]) == Some(k)
    {
      LookupFirst(env.variables, ps[0], k);
    }
    hide ExpandWhole, Lookup, Argument;
  }

  /** A user-defined function whose text is a single argument gives that argument of its call. */
  lemma UserFunction(env: Env, n: Depths, k: nat, ps: seq<string>, args: seq<string>, name: string, j: nat)
    requires |n| == |env.variables| && ps != [] && NoIndex(env, args, ps[0])
    requires k < |env.variables| && env.variables[k].name == ps[0] && forall i :: 0 <= i < k ==> env.variables[i].name != ps[0]
    requires if |ps| == 1 then n[k] == 0 else n[k] <= 100
    requires env.variables[k].value == Call([name]) && Piece(name, 0) && IsIndex(env, ps, name, j)
    ensures MacroValue(env, n, ps, args) == Some(ps[j])
  {
    CallStands(env, n, ps, args);
    var m := n[k := n[k] + 1];
    hide Piece, Stands, MacroValue;
    assert MacroValue(env, n, ps, args) == ExpandWhole(env, m, Call([name]), 0, ps) by { assert Stands(env, n, ps, MacroValue(env, n, ps, args)); }
    assert "" + Call([name]) + "" == Call([name]) && "" + ps[j] + "" == ps[j];
    ArgumentReplaced(env, m, "", name, "", ps, j);
    hide Call, ExpandMacro;
    assert FindMacro(Call([name]), 0) == Some(0);
    WholeUnfolds(env, m, Call([name]), 0, ps, 0);
    NoneFound(ps[j], |ps[j]|);
    WholeNone(env, m, ps[j], |ps[j]|, ps);
  }

  lemma NoneFound(s: string, i: nat)
    requires i >= |s|
    ensures FindMacro(s, i).None?
  {}
}
