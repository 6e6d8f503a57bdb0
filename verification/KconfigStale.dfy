/**
Why a choice symbol has to depend on its choice: a prompt outside the choice alone
leaves its visibility to a mode whose changes do not reach it.
*/
module KconfigStale {
  import opened Options
  import opened KconfigModel
  import opened KconfigSemantics

  /** A tristate choice (0) whose bool symbol A (1) has become n inside it and has another prompt outside. */
  function PromptOutside(lib: Lib): Config {
    Config([Choice(Tristate, [Y], [], [1], false),
            Symbol("A", Bool, [N, Y], [], [], N, N, Y, Some(0), true, false),
            Symbol("MODULES", Bool, [], [Default(Y, Y)], [], N, N, Y, None, true, false)],
           2, lib, [])
  }

  /** A is hidden in m mode and visible in y mode, but nothing is a dependent of the choice, so that no change of mode clears a cached visibility of A. */
  lemma ModeUnnoticed(lib: Lib, m: View, y: View)
    requires m.Tri(Item(0)) == Some(1) && y.Tri(Item(0)) == Some(2)
    ensures var c := PromptOutside(lib);
      && !NeverShown(c.items[1]) && !ModeReadable(c.items[1]) && Dependents(c, 0) == {}
      && Visibility(1, c, m) == Some(0) && Visibility(1, c, y) == Some(2)
  {
    var c := PromptOutside(lib);
    var ps := c.items[1].prompts;
    assert ps[1] == Y && ExprsItems(ps) == {};
    forall v ensures PromptValue(ps, 2, c, v) == Some(2) {
      assert PromptValue(ps, 0, c, v) == Some(0);
      assert PromptValue(ps, 1, c, v) == Some(0);
    }
    assert PropertyItems(c.items[1]) == {};
  }
}
