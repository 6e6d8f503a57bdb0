/**
A value that a .config file does not bring back.
*/
module KconfigUnsaved {
  import opened Options
  import opened ConfigText
  import opened KconfigModel
  import opened KconfigSemantics
  import opened KconfigSettings
  import opened KconfigValues
  import opened KconfigFile
  import opened KconfigSaveLoad
  import opened KconfigMeaning

  /** A tristate symbol A with an m prompt and the default y, in a configuration with modules. */
  function AboveItsPrompt(lib: Lib): Config {
    var y, m, n := Val(Operand.Const(Tristate, 2, "y")), Val(Operand.Const(Tristate, 1, "m")), Val(Operand.Const(Tristate, 0, "n"));
    Config([Symbol("MODULES", Bool, [], [Default(y, y)], [], n, n, y, None, true, false),
            Symbol("A", Tristate, [m], [Default(y, y)], [], n, n, y, None, true, false)],
           0, lib, [Levels(0, 1, 0, 2, 1), Levels(2, 3, 0, 4, 3)])
  }

  const NoUsers: Users := [User(None, None), User(None, None)]

  const TheNames: Names := map["MODULES" := 0, "A" := 1]

  const TheLayout: seq<Entry> := [Sym(0), Sym(1)]

  lemma Admissible(lib: Lib)
    ensures WellFormed(AboveItsPrompt(lib)) && ValidUsers(AboveItsPrompt(lib), NoUsers)
  {
    var c := AboveItsPrompt(lib);
    assert WellFormedItem(c, 0);
    assert WellFormedItem(c, 1);
  }

  lemma Writable(lib: Lib)
    ensures var c := AboveItsPrompt(lib); Saveable(c) && NamesOk(c, TheNames) && LayoutOk(c, TheLayout)
  {
    var c := AboveItsPrompt(lib);
    assert |c.items| == 2 && SaveableItem(c.items[0]) && SaveableItem(c.items[1]);
    assert TheLayout[0] == Sym(0) && TheLayout[1] == Sym(1);
  }

  lemma Clean(lib: Lib, v: Env)
    requires 0 in v.str && v.str[0].0 == "y" && 1 in v.str && v.str[1].0 == "y"
    ensures CleanValues(AboveItsPrompt(lib), v)
  {}

  /** A is y by default, but the y that is saved counts as the user's when it is loaded, and is cut to m. */
  lemma DefaultNotKept(lib: Lib)
    ensures var c := AboveItsPrompt(lib);
      && WellFormed(c) && ValidUsers(c, NoUsers) && NamesOk(c, TheNames) && Saveable(c) && LayoutOk(c, TheLayout)
      && CleanValues(c, Values(c, NoUsers))
      && var text := Join(SaveLines(c, Values(c, NoUsers), TheLayout, {}));
         Values(c, Load(c, TheNames, UserState(NoUsers, {}), text, true).us) != Values(c, NoUsers)
  {
    var c := AboveItsPrompt(lib);
    Admissible(lib);
    Writable(lib);
    assert |c.items| == 2 && NoUsers[0] == NoUsers[1] == User(None, None);
    hide AboveItsPrompt, NoUsers, TheNames, TheLayout;
    hide Values, WellFormed, ValidUsers, Saveable, LayoutOk, NamesOk, Load, Join, SaveLines, Obeys, Recoverable, CleanValues;
    ValuesObey(c, NoUsers, 0);
    ValuesObey(c, NoUsers, 1);
    var v := Values(c, NoUsers);
    ModulesOn(lib, v);
    YAboveM(lib, v);
    Clean(lib, v);
    SaveLoadExact(c, TheNames, NoUsers, TheLayout, UserState(NoUsers, {}));
  }

  lemma ModulesOn(lib: Lib, v: Env)
    requires Obeys(AboveItsPrompt(lib), User(None, None), v, 0)
    ensures 0 in v.tri && v.tri[0].0 == 2 && 0 in v.str && v.str[0].0 == "y"
  {
    var c := AboveItsPrompt(lib);
    var w := ViewOf(c, v, 0);
    assert PromptValue(c.items[0].prompts, 0, c, w) == Some(0);
    assert ActiveDefault(c.items[0].defaults, 0, c, w) == Some(Some((c.items[0].defaults[0].value, 2)));
  }

  lemma YAboveM(lib: Lib, v: Env)
    requires Obeys(AboveItsPrompt(lib), User(None, None), v, 1) && 0 in v.tri && v.tri[0].0 == 2
    ensures 1 in v.str && v.str[1].0 == "y" && !Recoverable(AboveItsPrompt(lib), v, 1)
  {
    var c := AboveItsPrompt(lib);
    var w := ViewOf(c, v, 1);
    assert 0 in Readable(c, 1) by { ModulesReadable(c, 1); }
    assert PromptValue(c.items[1].prompts, 1, c, w) == Some(1) by {
      assert PromptValue(c.items[1].prompts, 0, c, w) == Some(0);
    }
    assert ActiveDefault(c.items[1].defaults, 0, c, w) == Some(Some((c.items[1].defaults[0].value, 2)));
  }
}
