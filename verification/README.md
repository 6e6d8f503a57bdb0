# A model of the Kconfig engine and of the FPSpy monitor

The project models two parts of FPSpy and proves what they are for.

**The Kconfig engine** (`scripts/menuconfig.py`). Symbols and choices cache their
visibility, value, selection and assignable values, and a walk over dependents
clears caches when the user changes a setting. `KconfigModel` writes each rule
once, as a function of a partial assignment of values (a *view*) that says what
was read, short-circuits included. `KconfigValues` builds from the rules the one
cache-free assignment that obeys them all; `KconfigCache` is the program, as
objects with `_cached_*` fields, and is proved to return exactly that assignment
after any sequence of reads, assignments, resets and loads, although
`_rec_invalidate()` stops at items without a cached visibility. On top of this
stand the logic of conditions (`KconfigLogic`), what every value is in terms of the
first default, range or prompt that counts (`KconfigRules`), the exclusiveness of
choices (`KconfigChoice`), what assignments mean to a user (`KconfigMeaning`,
`KconfigOperations`, `KconfigMembers`), saving and reloading a `.config`
(`ConfigText`, `KconfigFile`, `KconfigLoad`, `KconfigSaveLoad`, `KconfigTexts`,
`KconfigUnsaved`), when values can be evaluated at all and what the
dependency-loop check has to do with it (`Cycles`, `KconfigReads`, `DepGraph`,
`DepLoops`, `DepSound`, `DepCheck`, `KconfigAcyclic`, `KconfigLoops`,
`KconfigStale`), printing and parsing of expressions (`KconfigExprText`), the
finalizing of the menu tree, in place on linked nodes (`MenuTree`, `MenuOrder`,
`MenuMeaning`, `MenuRevDeps`, `MenuImplicit`, `MenuIds`, `MenuLinks`, `MenuNodes`),
the configuration the finished tree amounts to (`MenuConfig`), and the macro expander
(`MacroExpansion`, `MacroCalls`).

**The FPSpy monitor** (`src/fpspy.c` and its back ends). `Monitor` says what each
signal handler makes of a thread, `FpControl` how the x64 and arm64 back ends edit
control registers and patch instructions, and `MonitorHandlers` is the code, on
contexts and text in memory. `MonitorMachine` puts the handlers on a processor
whose instructions retire, fault or hit breakpoints while a one-shot timer runs;
`MonitorRuns`, `MonitorSteps` and `MonitorTheorems` prove what holds in every run,
`MonitorExamples` and `MonitorLimits` where expectations fail and exactly when not,
`MonitorFrame` what the handlers leave alone, and `MonitorFlags` and `MonitorRecords`
what records show. `Lcg` is the sampler's generator,
`Trace` the trace buffer, its file and its reader, `Trampoline` the register save
and restore of the x64 kernel bypass.

## How to read it

Code that updates objects is a class whose methods are proved equal to a function
of the old state; the theorems are about those functions. Parameters stand for
what the code calls but does not define: `int()`, string comparison and number
formatting (`Lib`), built-in macro functions and the process environment (`Env`),
the logarithm that shapes an interval (`Params.draw`), the outcome of each
`write()`, the time stamps, and what an instruction does (`Program.exec`).

Results that qualify what the code or its comments promise:

- Evaluation orders values, not items: the visibility, value, selection, text and
  assignable values of an item each have their own place, so that a choice symbol may
  depend on an item inside its choice. An order exists if and only if no chain of
  values, each looking at the one before, comes back to its start
  (`KconfigReads.OrderExists`). The dependency-loop check walks items instead and
  differs both ways. What it passes has an order if and only if no such chain takes
  certain steps the check never makes: from a choice symbol reached as a dependent on
  to the selection of its choice, from a choice to an item that is none of its symbols,
  or from `MODULES` to an item whose type hangs on it (`KconfigAcyclic.CheckExactly`).
  Each kind occurs: a choice of A, B and C whose B depends on C
  (`KconfigLoops.MissedSiblings`), a choice whose prompt depends on a symbol in a menu
  inside it (`KconfigLoops.MissedMenu`), and a `MODULES` that depends on a tristate
  symbol (`KconfigLoops.MissedModules`). A choice symbol that depends on a symbol in a
  menu inside the choice is let through rightly (`KconfigLoops.LetThrough`), and a
  string symbol with a default on condition of itself is refused though it could be
  evaluated (`KconfigLoops.FalseAlarm`). In any case the graph of symbols that has
  passed is acyclic (`DepSound.PassedMeansAcyclic`).
- `_build_dep()` counts on the choice having been propagated into the conditions of
  its symbols. A symbol that has become n inside its choice and has a second prompt
  outside, of which the program warns, is no dependent of the choice, and keeps a stale
  visibility when the mode changes (`KconfigStale.ModeUnnoticed`).
- A sibling with `depends on S != y` goes into the implicit menu below S, since
  `_expr_depends_on()` tests for y whichever comparison it is, although it can be met
  where S is n (`MenuImplicit.DeniedExample`). Of the conditions that make a sibling
  hang on a bool or tristate S all others are n where S is n, and this one is not
  (`MenuImplicit.NExactly`).
- `assignable` is wrong for an m-visible symbol that is selected to m and implied
  to y: it offers m, but every assignment gives y. In all other cases it is exact,
  for symbols outside choices and for choices (`KconfigMeaning.AssignableExact`,
  `KconfigMeaning.MisjudgedExample`). For choice symbols it is exact where the symbol
  is invisible, where it is the selection of a choice in y mode, and at m unless it
  is selected or implied to y, and nowhere else (`KconfigMembers.MemberAssignable`): a
  symbol implied to y is offered y in an m-mode choice but becomes m.
- A `.config` file does not bring every value back. `KconfigTexts.SaveLoadExactly` has
  the exact condition: no string with a line break and no number with a trailing blank,
  which no file can give back; no y above an m-level prompt, unless a select or imply
  makes it y; no choice mode that its symbols do not show and that is not the one the
  choice starts with; and no user value of a symbol set from the environment.
  `KconfigUnsaved.DefaultNotKept` is a default y that comes back as m.
- Reading back a printed condition gives the value of the condition with every `m`
  read as `m && MODULES`. That is its own value when each `m` already stands beside
  `MODULES`, as in all that the parser has read once; for any other expression it is
  while `MODULES` is not n, and at n it is the value with each `m` read as n
  (`KconfigExprText.RereadValue`, `KconfigExprText.PlainMChanges`).
- With timers, a first interval of zero leaves the sampler without a wake-up for
  good (`MonitorExamples.NeverWakes`): `init_sampler()` lacks the check that
  `update_sampler()` makes. Every run keeps its wake-up if and only if no seed draws
  zero first (`MonitorExamples.AlwaysWakesExactly`).
- `maxcount` 0 still takes one fault (`MonitorExamples.FirstFault`), and switching the
  sampler off and on makes a thread listen again after its last one
  (`MonitorLimits.OneTooMany`). So the limit is kept in every run if and only if nothing
  is handled, or it is at least one and no timer ever runs (`MonitorLimits.LimitKeptExactly`).
- Every abort leaves the thread its own rounding field, before the deferred start
  too, because `config_round_daz_ftz()` reads `orig_round_config` before any thread is
  monitored (`MonitorTheorems.RoundingRestored`). On arm64 `arch_set_round_config()`
  computes a value it never stores.
- The reader refuses an empty trace, since an empty file cannot be mapped
  (`Trace.ReaderSeesRecords`).

## Model

| member | source | states |
|---|---|---|
| KconfigLogic.NotMeans | scripts/menuconfig.py:5323-5324 | negation swaps n and y, keeps m, and twice is nothing |
| KconfigLogic.AndOrMean | scripts/menuconfig.py:5312-5321 | a conjunction is y where both sides are, n as soon as one is, otherwise m; a disjunction the other way round |
| KconfigLogic.DeMorgan | scripts/menuconfig.py:5312-5324 | both of De Morgan's laws, short-circuits included |
| KconfigLogic.NegationNormal | scripts/menuconfig.py:5312-5324 | every expression has the value of a form with negations at symbols and comparisons only |
| KconfigLogic.Trichotomy | scripts/menuconfig.py:5332-5352 | of a < b, a = b and a > b exactly one is y, and <=, >= and != are the negations of the others |
| KconfigLogic.Swapped | scripts/menuconfig.py:5332-5352 | a comparison with its sides swapped and its relation mirrored is the same |
| KconfigLogic.NumeralsCompare | scripts/menuconfig.py:5332-5341 | unless both are strings, two numerals compare as their numbers: letters as 0 to 2, ints in base 10, hex in base 16, others by their prefix |
| KconfigLogic.TextsCompare | scripts/menuconfig.py:5332-5345 | everything else compares as text |
| KconfigLogic.EqualsConstant | scripts/menuconfig.py:5332-5352 | X = n, m or y is y exactly where a bool or tristate X has that value |
| KconfigRules.VisibilityMeans | scripts/menuconfig.py:5596-5623 | an item is as visible as its most visible prompt, m counts as y where it cannot be m, and a choice hides bool symbols of a tristate choice below y mode and m prompts in y mode |
| KconfigRules.ModeMeans | scripts/menuconfig.py:4500-4517 | the mode is what the user asked for, within the visibility, at least m unless optional, and y for m where it cannot be m |
| KconfigRules.SelectionMeans | scripts/menuconfig.py:4734-4763 | in y mode the selection is the user's if visible, else the symbol of the first default with its condition met and its symbol visible, else the first visible symbol; in other modes none |
| KconfigRules.TriMeans | scripts/menuconfig.py:3738-3815 | value and write flag of a bool or tristate symbol outside choices: the user's value cut to the visibility, or the lesser of the first default that counts and its condition, raised by implies where dependencies are met, and by selects; m becomes y where it cannot be m or is implied to y |
| KconfigRules.MemberMeans | scripts/menuconfig.py:3804-3812 | the same for choice symbols: y exactly where selected and fully visible, m where wanted and visible to m, written where visible |
| KconfigRules.StringMeans | scripts/menuconfig.py:3714-3733 | the same for strings: the user's if visible, else the text of the first default that counts, else empty |
| KconfigRules.NumberMeans | scripts/menuconfig.py:3616-3712 | the same for numbers: the user's text if visible and in the first range that counts, else the default's text, or the low bound where its number is below and the high bound where it is above |
| KconfigRules.LetterMeans | scripts/menuconfig.py:3604-3616 | bool and tristate values as text are n, m and y, and an undefined symbol is its own name |
| KconfigSemantics.ExprStable | scripts/menuconfig.py:5298-5352 | expr_value() reads, short-circuits included, only what the expression mentions: two views that know the items below a level give an expression below it the same value |
| KconfigSemantics.VisibilityStable | scripts/menuconfig.py:5596-5623 | a visibility is determined by what lies below it in the evaluation order |
| KconfigSemantics.TriValueStable | scripts/menuconfig.py:3738-3815 | so is a tristate value, through user value, defaults, implies, selects, the choice and the rounding of m |
| KconfigSemantics.StrValueStable | scripts/menuconfig.py:3597-3736 | so is a string value, through ranges, clamping and defaults |
| KconfigSemantics.SelectionStable | scripts/menuconfig.py:4734-4763 | so is a choice's selection |
| KconfigSemantics.AssignableStable | scripts/menuconfig.py:4123-4167 | so are the assignable values |
| KconfigValues.ValuesExistUniquely | scripts/menuconfig.py:3597-3833 | for every well-formed configuration and valid user settings there is exactly one assignment that obeys all rules; it covers every item, and every justified partial assignment agrees with it |
| KconfigInvalidation.SurvivorsJustified | scripts/menuconfig.py:4175-4204 | the pruning argument: after a walk that stops at items without a cached visibility, every value still cached is justified under the new settings and the marking invariant holds again |
| KconfigInvalidation.PromptlessIgnoresUser | scripts/menuconfig.py:4206-4226 | why symbols without prompts need no invalidation, nor those whose prompts have all become n: a change of their user values leaves every cached value justified |
| KconfigInvalidation.AllInvalidated | scripts/menuconfig.py:2851-2859 | clearing everything is a valid invalidation, which covers the MODULES case |
| KconfigInvalidation.StepPartial | scripts/menuconfig.py:4175-4204 | one recursive call of the walk keeps the loop's invariant: what is cleared so far is closed under cached dependents except for those still to do |
| KconfigLoad.AssignedExactly | scripts/menuconfig.py:3868-3955 | an assignment to a symbol succeeds exactly if the value is valid for its type; then it alone is stored, with the selection for y in a choice, and flagged; otherwise nothing changes |
| KconfigLoad.ModeAssignedExactly | scripts/menuconfig.py:4554-4593 | the same for the mode of a choice |
| KconfigSettings.ChangesKeepValid | scripts/menuconfig.py:3868-3964 | set_value() and unset_value() of symbols and choices only leave user values that fit their types |
| KconfigCache.Kconfig.constructor | scripts/menuconfig.py:2776-2849 | a new configuration has empty caches, no settings and the dependents of every item as _build_dep() and _add_choice_deps() collect them |
| KconfigCache.Kconfig.CacheCoherent | scripts/menuconfig.py:4169-4226 | in every state reached through the methods below, each cached field holds the cache-free value under the current settings |
| KconfigCache.Kconfig.Vis | scripts/menuconfig.py:3827-3832 | reading a visibility returns it, leaves it cached and changes nothing but caches |
| KconfigCache.Kconfig.ModeVal | scripts/menuconfig.py:4500-4517 | the same for the mode of a choice |
| KconfigCache.Kconfig.TriVal | scripts/menuconfig.py:3738-3815 | the same for the tristate value of a symbol |
| KconfigCache.Kconfig.StrVal | scripts/menuconfig.py:3597-3736 | the same for the string value of a symbol |
| KconfigCache.Kconfig.SelectionVal | scripts/menuconfig.py:4546-4551 | the same for the selection of a choice |
| KconfigCache.Kconfig.AssignableVal | scripts/menuconfig.py:3818-3824 | the same for the assignable values |
| KconfigCache.Kconfig.ExprVal | scripts/menuconfig.py:5298-5352 | evaluating an expression through the caches gives its value under the view of what has been cached |
| KconfigCache.Kconfig.InvalidateAll | scripts/menuconfig.py:2851-2859 | drops every cached value of every defined item and leaves settings alone |
| KconfigCache.Kconfig.RecInvalidate | scripts/menuconfig.py:4175-4204 | terminates on cyclic dependents and leaves caches that are an invalidation of the old ones, with the item itself cleared |
| KconfigCache.Kconfig.InvalidateIfHasPrompt | scripts/menuconfig.py:4206-4226 | after a changed user value the caches are coherent again, with or without prompts |
| KconfigCache.Kconfig.SetValue | scripts/menuconfig.py:3868-3955 | caches stay coherent; settings and result are those of the specification, for every value, type and choice membership |
| KconfigCache.Kconfig.UnsetValue | scripts/menuconfig.py:3957-3964 | the same for removing a user value |
| KconfigCache.Kconfig.SetModeValue | scripts/menuconfig.py:4554-4593 | the same for setting a choice's mode |
| KconfigCache.Kconfig.UnsetMode | scripts/menuconfig.py:4595-4602 | the same for removing it with the selection |
| KconfigCache.Kconfig.ConfigString | scripts/menuconfig.py:3836-3859 | the line written for a symbol is the one its cache-free values call for |
| KconfigLoad.WrittenOnce | scripts/menuconfig.py:942-965 | comment lines are written as they are and each symbol's line once, where the walk meets it first |
| KconfigLoad.LineMeans | scripts/menuconfig.py:3836-3859 | the line of a symbol by type and value, and none where the write flag is off |
| KconfigCache.Kconfig.ConfigContents | scripts/menuconfig.py:892-965 | for a given walk with its comment lines, the text written is that of the cache-free values, each symbol once at its first node |
| KconfigCache.Kconfig.LoadLine | scripts/menuconfig.py:508-589 | one line of a .config changes the settings as specified and keeps caches coherent |
| KconfigLoad.LogicalLine | scripts/menuconfig.py:520-550 | a line assigning to a bool or tristate symbol counts by its first letter, m for tristates only, and m and y set the mode of the choice first; others are ignored |
| KconfigLoad.TextLine | scripts/menuconfig.py:552-561 | a line assigning to a string must have it quoted, to a number assigns it as it is |
| KconfigLoad.UnsetMeansN | scripts/menuconfig.py:563-586 | a comment that a symbol is not set assigns n to bool and tristate symbols and nothing to others |
| KconfigLoad.OtherLines | scripts/menuconfig.py:512-581 | lines that are no assignments, and assignments to no defined symbol, change nothing |
| KconfigLoad.ReplaceOrMerge | scripts/menuconfig.py:595-605 | what the file sets is the same with and without replace; everything else is unset with it and kept without |
| KconfigCache.Kconfig.LoadConfig | scripts/menuconfig.py:486-605 | so does a whole file, with or without replacing what was set before |
| KconfigChoice.ChoiceExclusive | scripts/menuconfig.py:4734-4763 | a y-mode choice with a visible symbol has exactly one y symbol, its selection, and the others n; without one all are n; below y no symbol is y |
| KconfigMeaning.AssignableExact | scripts/menuconfig.py:4123-4167 | for choices and for symbols outside choices, a value is assignable exactly when a visible item set to it then has it, across selects, implies, types and modules; except in one case, where m is offered and any assignment gives y |
| KconfigMeaning.MisjudgedExample | scripts/menuconfig.py:4157-4167 | a configuration in which that case occurs |
| KconfigMeaning.ValueAfterChange | scripts/menuconfig.py:3868-3955 | setting an item changes nothing that its own value depends on: its tristate value, string or number after the change follows from the values before |
| KconfigMeaning.NeverM | scripts/menuconfig.py:3583-3593 | bool items are never m, and nothing is m while MODULES is n |
| KconfigMeaning.SelectGuarantees | scripts/menuconfig.py:3790-3797 | a symbol outside choices is at least what selects it, whatever the user set |
| KconfigMeaning.NumberInRange | scripts/menuconfig.py:3636-3712 | an int or hex value lies in its active range, whether from the user, a default or nothing, if the range is not empty |
| KconfigOperations.AssignmentTakesEffect | scripts/menuconfig.py:3868-3955 | assigning an assignable value to a symbol outside choices succeeds and gives it that value |
| KconfigOperations.TextTakesEffect | scripts/menuconfig.py:3636-3722 | assigning a valid text succeeds; a visible string symbol then has it, and an int or hex symbol exactly if the number is in the active range |
| KconfigOperations.UnsetUndoes | scripts/menuconfig.py:3957-3964 | removing a user value that was not there before an assignment restores all settings, but for the selection of the symbol's choice |
| KconfigOperations.SelectingTakesEffect | scripts/menuconfig.py:3941-3951 | setting a visible symbol of a y-mode choice to y makes it the selection: it becomes y, all others n, and the mode stays |
| KconfigMembers.MemberAfter | scripts/menuconfig.py:3804-3812 | what any assignment to a choice symbol comes to: at m visibility m for m and y and n for n; fully visible, y exactly for y in a y-mode choice, and otherwise what the selection says |
| KconfigMembers.MemberAssignable | scripts/menuconfig.py:4123-4167 | exactly when what is offered for a choice symbol is what it can become |
| ConfigText.EscapeStep | scripts/menuconfig.py:5486-5494 | escaping puts a backslash before each quote and backslash and changes nothing else |
| ConfigText.EscapeRoundTrip | scripts/menuconfig.py:5486-5504 | unescape(escape(s)) is s, and the quoted-string match ends exactly where the escaped text does, for all strings |
| ConfigText.QuotedRoundTrip | scripts/menuconfig.py:6469-6471 | the match of a written string assignment yields the escaped contents, which unescape to the string |
| ConfigText.SetRoundTrip | scripts/menuconfig.py:219-222 | a written assignment is read as its name and value |
| ConfigText.UnsetRoundTrip | scripts/menuconfig.py:219-222 | a written "is not set" comment is read as its name and as no assignment |
| ConfigText.JoinRoundTrip | scripts/menuconfig.py:486-512 | splitting written lines gives them back |
| KconfigTexts.SaveLoadExactly | scripts/menuconfig.py:486-605 | loading what was written, with replace=True and from any earlier settings, gives every item of every type all its values again if and only if each is recoverable, no string has a line break and no number a trailing blank, all conditions on the values before the save |
| KconfigTexts.LoadedClean | scripts/menuconfig.py:508-589 | whatever the file, no text loaded with replace=True has a line break, and no number a trailing blank |
| KconfigTexts.ValuesClean | scripts/menuconfig.py:3597-3736 | if the user's texts are such, so are all values, along defaults, ranges and clamping |
| KconfigSaveLoad.SaveLoadExact | scripts/menuconfig.py:486-605 | the same for values that lines can carry, whatever the defaults |
| KconfigSaveLoad.SaveLoadFixpoint | scripts/menuconfig.py:486-605 | without tristates, optional choices and environment symbols everything that lines can carry comes back |
| KconfigSaveLoad.ModeOfMember | scripts/menuconfig.py:535-549 | the mode a load infers from the lines of a choice's symbols is unambiguous: a written symbol is y exactly if the choice is in y mode, and then it is the selection |
| KconfigUnsaved.DefaultNotKept | scripts/menuconfig.py:3757-3781 | a symbol with an m prompt and a default y, which saving and loading changes |
| KconfigSaveLoad.SolutionsEqual | scripts/menuconfig.py:3597-3833 | two settings under which the same assignment is justified have the same values |
| KconfigReads.OrderedIsWellFormed | scripts/menuconfig.py:3597-3833 | a configuration is well-formed for given levels exactly if every value looks at values of lower level only, over all that visibility, value, selection, text and assignable values look at |
| Cycles.NumberingExists | scripts/menuconfig.py:352-359 | finitely many steps can be numbered upwards if and only if no walk along them comes back to its start |
| KconfigReads.OrderExists | scripts/menuconfig.py:3597-3833 | an evaluation order exists if and only if no chain of values, each looking at the one before, comes back to its start |
| DepGraph.VisitAll | scripts/menuconfig.py:355-359 | the check terminates on every graph and only ever finishes items: what is finished or in progress stays so |
| DepLoops.AllReport | scripts/menuconfig.py:5979-6025 | a loop found on the way is always completed at its head and raised, what is raised is a genuine cycle of dependencies, and otherwise every symbol is finished |
| DepLoops.NoFalseAlarm | scripts/menuconfig.py:5870-5976 | a graph in which dependents can be put later than the symbols they depend on, and choices level with their symbols, passes |
| DepSound.PassedMeansAcyclic | scripts/menuconfig.py:5870-5976 | if the check passes for all symbols, the graph from symbols to their dependents is acyclic, and so it stays with all symbols of a choice in the choice's place |
| DepCheck.LoopChecker.CheckSym | scripts/menuconfig.py:5870-5942 | the recursive check on `_visited` fields reports and marks what the specification does |
| DepCheck.LoopChecker.CheckChoice | scripts/menuconfig.py:5945-5976 | the same for choices |
| DepCheck.LoopChecker.CheckAll | scripts/menuconfig.py:355-359 | the same for all defined symbols: a genuine loop is raised, or the graph of symbols is acyclic, and a graph with such levels is passed |
| KconfigAcyclic.PassedExactly | scripts/menuconfig.py:5870-5976 | a configuration that passes the check has an order if and only if no chain of values comes back along a step the check does not make, whatever the order of dependents and roots |
| KconfigAcyclic.GraphMatches | scripts/menuconfig.py:2776-2828 | the graph _build_dep() makes from a configuration has exactly the dependents its properties call for |
| KconfigAcyclic.CheckExactly | scripts/menuconfig.py:352-363 | the same for the graph the configuration itself has |
| KconfigLoops.MissedSiblings | scripts/menuconfig.py:5945-5976 | a dependency between two symbols of a choice: passes the check, and no order exists |
| KconfigLoops.MissedMenu | scripts/menuconfig.py:5945-5976 | a choice that depends on a symbol in a menu inside it: passes, and no order exists |
| KconfigLoops.MissedModules | scripts/menuconfig.py:3583-3593 | a MODULES that depends on a tristate symbol: passes, and no order exists |
| KconfigLoops.LetThrough | scripts/menuconfig.py:5945-5976 | a choice symbol that depends on a symbol in a menu inside the choice: passes, and an order exists |
| KconfigLoops.FalseAlarm | scripts/menuconfig.py:5870-5942 | a string symbol with a default on condition of itself: refused, and an order exists |
| KconfigStale.ModeUnnoticed | scripts/menuconfig.py:2821-2824 | a choice symbol with a prompt outside its choice whose visibility changes with the mode although the choice has no dependents |
| KconfigExprText.PrintThenParse | scripts/menuconfig.py:5370-5411 | every printed expression parses to the end, to one with the same value under every assignment and reading the same symbols; with transform_m, to the value with m read as m && MODULES |
| KconfigExprText.ConditionsReparse | scripts/menuconfig.py:2686-2770 | what the parser read as a condition keeps its value when printed and read again |
| KconfigExprText.ExprPrinted | scripts/menuconfig.py:5645-5650 | which tree comes back: operators of a kind lean to the right, parentheses are consumed where they were needed, and what follows is left alone |
| KconfigExprText.ParsedGuarded | scripts/menuconfig.py:2744-2754 | after parsing a condition each m stands beside MODULES |
| KconfigExprText.RereadValue | scripts/menuconfig.py:2744-2754 | any expression, printed and read as a condition, keeps its value where MODULES is not n, and has the value of the expression with each m read as n where it is |
| KconfigExprText.PlainMChanges | scripts/menuconfig.py:2751-2752 | an expression with a plain m can change its value |
| KconfigExprText.AndBinds | scripts/menuconfig.py:2686-2734 | conjunction binds tighter than disjunction on either side |
| KconfigExprText.ParenthesesBind | scripts/menuconfig.py:2736-2770 | parentheses override that |
| KconfigExprText.NegationBinds | scripts/menuconfig.py:2736-2770 | negation takes the next factor only, and a comparison as a whole |
| KconfigExprText.Parser.ParseExpression | scripts/menuconfig.py:2686-2725 | the recursive parser over a token index reads what the grammar function reads, fails where it fails, and never runs past the end |
| KconfigExprText.Parser.ParseAndExpr | scripts/menuconfig.py:2727-2734 | the same for conjunctions |
| KconfigExprText.Parser.ParseFactorExpr | scripts/menuconfig.py:2736-2770 | the same for factors |
| MenuOrder.FinalizedTree | scripts/menuconfig.py:2866-2945 | every node is finalized exactly once and in definition order; the finished tree has the same nodes in the same order without `if` nodes, and no promptless menu at any level |
| MenuOrder.FlattenSurfaces | scripts/menuconfig.py:5787-5813 | exactly the promptless nodes with children that are no choices are emptied and their children join the level; all other nodes keep theirs |
| MenuOrder.FlattenLevel | scripts/menuconfig.py:5787-5813 | flattening keeps the pre-order and leaves no promptless node with children on the level |
| MenuOrder.RemoveIfsLevel | scripts/menuconfig.py:5816-5839 | removing `if` nodes keeps the order of all others and leaves a clean level |
| MenuMeaning.PropagationMeans | scripts/menuconfig.py:2947-2997 | in the finished tree the value of each condition is the least of its own, the node's and all ancestors' dependencies and, for prompts of symbols and choices, all enclosing `visible if`; a choice's mode stands for its dependencies |
| MenuMeaning.NodePushes | scripts/menuconfig.py:2915-2930 | dependencies are pushed into each node once, from its parent as parsed, even when siblings have been absorbed into implicit menus |
| MenuMeaning.MemberPromptLooksAtChoice | scripts/menuconfig.py:2947-2997 | one push of dependencies below a choice: the prompt mentions the choice, unless it became the constant n, and when that is; `MenuConfig.InsideMentions` has the finished tree |
| MenuConfig.InsideMentions | scripts/menuconfig.py:2947-2997 | in the finished tree every dependency and prompt condition inside a choice, menus and `if` nodes included, mentions the choice or has become n |
| MenuConfig.ConfigResolved | scripts/menuconfig.py:2866-2945 | the configuration of the finished tree refers to its own symbols and choices only; choices and their symbols name each other, and choice symbols depend on their choice or are never shown |
| MenuConfig.ValuesFromMenu | scripts/menuconfig.py:352-363 | from the parsed menu tree to values: finalized and passed by the check, a configuration can be evaluated if and only if no loop runs along steps the check does not make |
| MenuConfig.LayoutFromMenu | scripts/menuconfig.py:892-965 | a walk over the finished tree comes to every defined symbol and to no other, as saving needs |
| MenuMeaning.TypesInferred | scripts/menuconfig.py:5855-5867 | a choice without a type gets the first one among its symbols, symbols without one get that of the choice, and no specified type changes |
| MenuMeaning.MakeAndMeans | scripts/menuconfig.py:2173-2185 | the simplified conjunction has the value of the minimum |
| MenuMeaning.MakeOrMeans | scripts/menuconfig.py:2187-2199 | the simplified disjunction has the value of the maximum |
| MenuRevDeps.PropertiesGathered | scripts/menuconfig.py:2999-3017 | a symbol has the defaults, ranges, selects and implies of its nodes in definition order, with their final conditions |
| MenuRevDeps.DirectDepMeans | scripts/menuconfig.py:3011-3012 | its direct dependencies are met as far as those of its most accessible node |
| MenuRevDeps.MembersRegistered | scripts/menuconfig.py:5842-5855 | a choice gets exactly the symbols directly below its finished node, in order, and they get the choice; its dependencies and defaults come from its nodes |
| MenuRevDeps.ReverseDependency | scripts/menuconfig.py:2999-3030 | an item's (weak) reverse dependency has the value of the strongest select (imply) of it in the whole tree, each the lesser of selector and pushed-down condition |
| MenuRevDeps.AllCollected | scripts/menuconfig.py:2999-3030 | it is the disjunction of those selects in definition order, with the conditions they end up with |
| MenuImplicit.DependsOnExactly | scripts/menuconfig.py:5750-5775 | a condition depends on a symbol exactly if one of its conjuncts is the symbol, a comparison of it with m or y for equality or with n for inequality, either way round, or that it is not y |
| MenuImplicit.AskedIsN | scripts/menuconfig.py:5750-5775 | but for the last, such a condition is n where the symbol is |
| MenuImplicit.NExactly | scripts/menuconfig.py:5768-5771 | of these conjuncts exactly the denials of y are not |
| MenuImplicit.DeniedExample | scripts/menuconfig.py:5768-5771 | the denial of y counts as a dependency and is y where the symbol is n |
| MenuImplicit.AutoMenuDepMeans | scripts/menuconfig.py:5778-5784 | a sibling hangs on a symbol by the condition of its prompt if it has one, otherwise by its dependencies |
| MenuImplicit.ImplicitMenus | scripts/menuconfig.py:2891-2910 | the finished tree is the parsed one with each symbol above the longest run of following siblings, with what these absorbed themselves, that hang on it, its levels then flattened |
| MenuIds.NodeIds | scripts/menuconfig.py:2889-2911 | no node is duplicated by absorbing, flattening or removing |
| MenuLinks.Dissolved | scripts/menuconfig.py:5799-5811 | the assignments for one flattened node splice its children in after it, with its parent, and touch no other node |
| MenuNodes.MenuNodes.Flatten | scripts/menuconfig.py:5787-5813 | the linked level afterwards spells out the flattened forest, parents included |
| MenuNodes.MenuNodes.RemoveIfNodes | scripts/menuconfig.py:5816-5839 | the linked level afterwards is the one without `if` nodes |
| MenuNodes.MenuNodes.PropagateDeps | scripts/menuconfig.py:2947-2997 | the loop over linked children changes their properties as specified |
| MenuNodes.MenuNodes.AddPropsToSym | scripts/menuconfig.py:2999-3030 | the symbol's and its targets' properties afterwards |
| MenuNodes.MenuNodes.FinalizeChoiceNode | scripts/menuconfig.py:2937-2945 | the choice's properties and type, its symbols, their back links and types afterwards |
| MenuNodes.MenuNodes.AbsorbSiblings | scripts/menuconfig.py:2889-2903 | the siblings absorbed into an implicit menu hang below the symbol and the rest still follows |
| MenuNodes.MenuNodes.FinalizeNode | scripts/menuconfig.py:2866-2945 | the recursive in-place algorithm leaves links that spell out the specified tree, the specified properties, and all other nodes as they were |
| MenuNodes.MenuNodes.NodeIter | scripts/menuconfig.py:1216-1265 | the walk without a stack terminates and yields exactly the nodes below the top, in pre-order, with `unique_syms` those that repeat no symbol |
| MenuNodes.SymbolsOnce | scripts/menuconfig.py:1260-1263 | these are all nodes of other kinds and, for each symbol, one |
| MacroCalls.CallExpands | scripts/menuconfig.py:2052-2112 | a call splits into arguments at the commas outside parentheses, and is replaced by the value for exactly these arguments |
| MacroCalls.ArgumentReplaced | scripts/menuconfig.py:2087-2097 | $(k) stands for the k-th part of the call being expanded, from the end for negative k |
| MacroCalls.CallStands | scripts/menuconfig.py:2114-2167 | any other name stands for the first variable of that name, expanded for this call within the recursion limits; then for a function, which checks the number of arguments; then for the environment; then for nothing |
| MacroCalls.UserFunction | scripts/menuconfig.py:2114-2139 | a variable that consists of $(j), called with arguments, gives the j-th of them, whatever it contains |
| MacroExpansion.ExpandWhole | scripts/menuconfig.py:1970-1983 | terminates for all strings, definitions and depths, by budget and remaining text, and keeps the text before its starting point |
| MacroExpansion.ExpandMacro | scripts/menuconfig.py:2052-2112 | terminates, keeps what precedes the macro, and leaves less unscanned text, a suffix of what was there |
| MacroExpansion.MacroEndsAtMatch | scripts/menuconfig.py:2079-2101 | what follows an expanded macro is what followed its matching parenthesis in the original text, whatever nested macros expanded to |
| MacroExpansion.WholeInOrder | scripts/menuconfig.py:1970-1983 | values are inserted from left to right and never scanned again |
| MacroExpansion.ExpandWholeShift | scripts/menuconfig.py:1970-1983 | the text before the starting point plays no role |
| MacroExpansion.SelfReferenceFails | scripts/menuconfig.py:2122-2126 | a plain variable under expansion cannot be expanded again |
| MacroExpansion.Preprocessor.ExpandText | scripts/menuconfig.py:1970-1983 | the loop computes the specified string and restores every expansion count unless there is an error |
| MacroExpansion.Preprocessor.ExpandMacroAt | scripts/menuconfig.py:2052-2112 | the same for one macro |
| MacroExpansion.Preprocessor.FnValue | scripts/menuconfig.py:2114-2167 | the same for a function or variable |
| Lcg.RandState.PumpRand | src/fpspy.c:281-291 | one step of the generator modulo 2^64 |
| Lcg.FirstDraws | src/fpspy.c:281-291 | the multiplier and increment of the generator, and its draws from 0 and 1 |
| Lcg.LowBitsPeriod | src/fpspy.c:281-291 | the low k bits return exactly after the multiples of 2^k draws |
| Lcg.FullPeriod | src/fpspy.c:280-285 | two draws from any seed give the same state exactly when they are a multiple of 2^64 apart |
| Lcg.VisitsEverything | src/fpspy.c:280-285 | from any seed every 64-bit state occurs exactly once in 2^64 draws |
| Trace.FieldsInPlace | include/trace_record.h:14-22 | each field lies at its offset in the packed structure, in little-endian order |
| Trace.DecodeEncode | include/trace_record.h:14-22 | a record survives its 48-byte packed form |
| Trace.ReaderSeesRecords | src/libtrace.c:51-61 | a file of whole records is seen as exactly these records, unless there are none |
| Trace.TraceMap | src/libtrace.c:79-95 | the reader hands out the unique sequence of records the file encodes, and refuses empty and torn files |
| Trace.File.WriteAll | src/fpspy.c:397-411 | under any sequence of partial writes all bytes are appended in order, or an error leaves a prefix |
| Trace.Buffer.Flush | src/fpspy.c:414-427 | with no failed write so far, the file afterwards is exactly what was pushed |
| Trace.Buffer.Push | src/fpspy.c:429-441 | file and buffer together hold what was pushed, in order, and the buffer is never left full |
| FpControl.SetThenReset | src/arm64/arm64.c:349-400 | a breakpoint set at an instruction and reset at the next restores text and state |
| FpControl.MaskEffect | src/x64/x64.c:192-196 | masking takes exactly the handled exceptions out of those enabled and leaves rounding alone, on both back ends and in any context |
| FpControl.UnmaskEffect | src/x64/x64.c:192-196 | unmasking adds exactly the handled exceptions to those enabled |
| MonitorFrame.HandlersContained | src/fpspy.c:990-1140 | in every state the handlers change nothing but handled flag and mask bits, the rounding field where it is controlled, the single-step bit and the text |
| MonitorFlags.RecordShowsOwnFlags | src/fpspy.c:1123-1140 | on x64 the control register recorded with a fault flags, of the handled exceptions, exactly those the instruction raised, since handlers clear what they listen for |
| MonitorMachine.UpdateKeeps | src/fpspy.c:911-980 | a switch of the sampler keeps the invariant, leaves exactly the handled exceptions unmasked when it goes on and none when it goes off, arms the timer and never touches the text |
| MonitorMachine.FaultKeeps | src/fpspy.c:1082-1140 | a fault while waiting leads to a masked single step, recorded if its turn has come |
| MonitorMachine.TrapKeeps | src/fpspy.c:1025-1046 | the trap after it removes the breakpoint, listens again unless enough is recorded, and makes up for a delayed switch |
| MonitorMachine.KickKeeps | src/fpspy.c:1006-1023 | the deferred start unmasks exactly the handled exceptions |
| MonitorMachine.FenvKeeps | src/fpspy.c:458-504 | a target touching its floating-point environment makes the monitor mask everything, add one abort record and stay out |
| MonitorMachine.TrapGetsOut | src/fpspy.c:990-1056 | a trap in ABORT, or a surprising one in AWAIT_FPE, masks everything, takes the breakpoint out and restores the rounding field; the surprise aborts with one record |
| MonitorMachine.FaultGetsOut | src/fpspy.c:1128-1139 | a surprising fault before the start does the same, after its own record if that has its turn |
| MonitorRuns.RunGood | src/fpspy.c:990-1140 | the invariant of text, masks, sampler and single-step window holds in every run |
| MonitorSteps.StepMoved | src/fpspy.c:990-1140 | every event of a run is a start, a fault, a retirement, a trap or a tick, with what each does to data, records, rounding and timer |
| MonitorTheorems.Transparent | src/fpspy.c:1082-1140 | with rounding control off every monitored run has retired the instructions, and has the data and pc, of the program on its own |
| MonitorTheorems.Progress | src/fpspy.c:990-1057 | from every state of the invariant the next instruction retires within three events |
| MonitorTheorems.FaultsAreStepped | src/fpspy.c:1025-1046 | each fault is followed by one retirement of the same instruction and then a trap, and no trap has another cause |
| MonitorTheorems.StateMachineSafety | src/fpspy.c:911-1057 | while a trap is awaited the sampler is on; then, after an abort and with the sampler off everything is masked; trap mode is on exactly while a trap is awaited |
| MonitorTheorems.NoSurprise | src/fpspy.c:1047-1056 | faults occur only in AWAIT_FPE and traps only in AWAIT_TRAP, so both surprise branches are dead |
| MonitorTheorems.TextIntact | src/arm64/arm64.c:354-400 | the text is the program's except that one word, after the faulting instruction, is a breakpoint while a trap is awaited, and the thread holds the word it replaced |
| MonitorRecords.FaultRecorded | src/fpspy.c:1102-1120 | the record of a fault has its time, the address and bytes of the instruction, stack pointer and code, and on x64 the flags of exactly the handled exceptions it raised; it goes into the trace in its turn |
| MonitorRecords.AbortRecorded | src/fpspy.c:458-504 | a call of fenv.h adds the abort record with its time, 0xff in every other byte |
| MonitorTheorems.TraceIsSample | src/fpspy.c:1102-1120 | the trace holds faults 0, p, 2p, ... in order, as many as the number of faults over p rounded up, and one more record after an abort |
| MonitorTheorems.SampledExactly | src/fpspy.c:911-980 | with timers and no limit a waiting thread listens to what is handled exactly while the sampler is on, and the faults are exactly the instructions that raised a handled exception while it was, in order |
| MonitorTheorems.NothingMissed | src/fpspy.c:990-1140 | without timers and limit the faults are exactly the instructions that raised a handled exception since the start, in order |
| MonitorTheorems.FaultsLimited | src/fpspy.c:1026-1034 | without timers, or with a first interval of zero, at most maxcount faults are taken, as a 64-bit number, or one if maxcount is 0 |
| MonitorExamples.FirstFault | src/fpspy.c:1006-1034 | a run of a two-instruction program that takes one fault, whatever the limit |
| MonitorLimits.OneTooMany | src/fpspy.c:926-934 | for every limit a run of a loop that takes one fault more, after the sampler has been switched off and on |
| MonitorLimits.LimitKeptExactly | src/fpspy.c:1026-1034 | no run takes more than maxcount faults if and only if no exception is handled, or maxcount is at least one and there are no timers or every first interval is zero |
| MonitorTheorems.WakeUpKept | src/fpspy.c:937-974 | with timers exactly one of armed timer, pending alarm and delayed switch holds at all times if the first interval drawn is not zero, and none ever otherwise |
| MonitorExamples.NeverWakes | src/fpspy.c:879-904 | whatever draws zero first gives a run without a wake-up, and none of its continuations ever has one |
| MonitorExamples.NeverWakesExample | src/fpspy.c:879-904 | such a thread, for a logarithm that rounds to zero |
| MonitorExamples.AlwaysWakesExactly | src/fpspy.c:879-904 | with timers every run always has exactly one wake-up if and only if no seed draws zero first |
| MonitorTheorems.IntervalsDrawn | src/fpspy.c:937-962 | every interval update_sampler() sets is drawn for the mean of the state entered, from the next random word without its lowest bit, and confined to at least a microsecond and at most the cap of that state; the first one, from init_sampler(), has neither bound |
| MonitorTheorems.RoundingRestored | src/fpspy.c:1754-1782 | in every run the rounding field in force is the monitor's from the start until enough has been recorded, if it forces one, and the thread's own before, afterwards and after every abort |
| MonitorHandlers.MonitoringContext.constructor | src/fpspy.c:1475-1519 | a new thread is in INIT with the sampler as init_sampler() leaves it, and with the rounding field config_round_daz_ftz() has read |
| MonitorHandlers.MonitoringContext.SetTrap | src/arm64/arm64.c:354-368 | the patched text, or the single-step bit, and the state word |
| MonitorHandlers.MonitoringContext.ResetTrapMode | src/arm64/arm64.c:370-400 | the restored text, or the cleared bit, and the state word |
| MonitorHandlers.MonitoringContext.UpdateSampler | src/fpspy.c:911-980 | in-place code computes the specified context, sampler, generator and timer |
| MonitorHandlers.MonitoringContext.AbortOperation | src/fpspy.c:458-504 | the same for an abort, with the record pushed through the buffer |
| MonitorHandlers.MonitoringContext.BrkTrapHandler | src/fpspy.c:990-1057 | the same for all four states of the trap handler |
| MonitorHandlers.MonitoringContext.FpTrapHandler | src/fpspy.c:1082-1140 | the same for the fault handler |
| MonitorHandlers.MonitoringContext.SigalrmHandler | src/fpspy.c:1448-1467 | the same for the alarm handler |
| Trampoline.Cpu.Redirect | kernel/x64/fpvm-kmod/fpvm_kmod.c:116-136 | the redirected stack is 16-byte aligned and lies below the red zone, with stack pointer and pc on it |
| Trampoline.Cpu.SaveRegisters | src/x64/user_fpspy_entry.S:27-49 | the eighteen words on the stack are the registers in gregset order |
| Trampoline.Cpu.ReturnByIret | src/x64/user_fpspy_entry.S:92-118 | the frame built with rax alone returns to the saved pc, stack pointer and flags with all registers intact |
| Trampoline.Cpu.DeliverFault | src/x64/user_fpspy_entry.S:27-118 | whatever the handler does to registers and the stack below, the thread resumes with every register, stack pointer and pc as they were, the flags as the handler left them, and its red zone untouched |

## Left out

- The curses interface, file opening, environment lookup beyond a map, warnings, `sync_deps`, the Kconfig line parser and tokenizer, `$(shell)` and user-defined Python functions (a parameter).
- `KconfigTexts.SaveLoadExactly`: assumes names without blanks or `=`, choices and choice symbols that are bool or tristate, and defaults of numbers that are not string symbols, of all of which the program warns if the parser lets them through, and constants and formatted numbers without line breaks or trailing blanks. The comment lines of the written file are taken as given (`LayoutOk`, which `MenuConfig.LayoutFromMenu` derives for the symbols).
- `KconfigCache.Kconfig.ConfigContents`: the walk over the menu tree is taken as a list of symbols and comment lines; `MenuNodes.MenuNodes.NodeIter` models the walk itself.
- `KconfigValues.ValuesExistUniquely`: assumes an evaluation order (its condition is `KconfigReads.OrderExists`), references that resolve, choices and symbols that name each other, choice defaults among the symbols of the choice, a MODULES that is not tristate, and choice symbols that depend on their choice or are never shown. All but the order come from the menu tree (`MenuConfig.ConfigResolved`); without the last the caches do go stale (`KconfigStale.ModeUnnoticed`).
- `MenuConfig.ConfigResolved`: assumes `Sane`: defaults of strings and numbers are symbols, which the program insists on; defaults of choices are symbols of the choice, of which it warns; a symbol is in one choice; a choice symbol depends on its choice or has no prompts outside it; and what is nowhere defined has no type.
- `MenuConfig.LayoutFromMenu`: the comment lines that menus and comments put into the file are not part of the walk there.
- `_write_to_conf` is stored together with the value it belongs to, where the program sets it step by step while computing.
- `_str_default`, `write_min_config`, `write_autoconf` and `eval_string`, which use the same rules.
- `KconfigExprText.PrintThenParse`: starts at tokens; quoting of constant names is covered by `ConfigText.EscapeRoundTrip`, and choices, which print as text the parser does not read, do not occur.
- `MacroExpansion.Preprocessor.ExpandText`: `_expand_str` and `_expand_name`, which call it for quoted strings and names, are not part of this model.
- `MonitorTheorems.Transparent`: for one thread, data that do not depend on flags and masks, no floating-point exceptions unmasked by the program itself, and a text that only the monitor writes; on arm64 floating-point instructions fall through to a next instruction.
- The riscv64 back end, whose patching equals arm64's for four-byte instructions, its bypassed exceptions, and `insn_len` for compressed ones.
- `MonitorTheorems.RoundingRestored`: `orig_round_config` is one field for the process, read in its first thread; the model has one thread.
- Aggregate mode, threads and processes, signal installation, shims, page protection, the device driver, a missing monitoring context, and the wrap-around of the 64-bit event count.
- `next_exp`: the logarithm and its rounding; the interval drawn is an arbitrary function of the random word and the mean. `fedisableexcept` and `feclearexcept` are taken to act on the control registers as the C library does.
- `Trampoline.Cpu.DeliverFault`: floating-point state and address wrap-around; every stack access is of an aligned word.
