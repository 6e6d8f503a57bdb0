/**
How far the limit on the number of faults and the wake-ups of the sampler reach:
runs in which each of them fails, and exactly when none does.
*/
module MonitorExamples {
  import opened Lcg
  import opened FpControl
  import opened Monitor
  import opened MonitorMachine
  import opened MonitorRuns
  import opened MonitorSteps
  import opened MonitorTheorems
  import opened Options

  ghost predicate IsRun(p: Params, prog: Program, m: Machine, seed: Word, es: seq<Event>)
    requires p.period > 0
  {
    ProgramOk(p, prog) && Initial(p, prog, m, seed) && Run(p, prog, m, es).Some?
  }

  /** A new thread at the first instruction, all exceptions masked. */
  function NewThread(p: Params, prog: Program, seed: Word): Machine {
    var control := if p.arch.X64? then 0x1f80 else 0;
    var (sampler, timer) := InitSampler(p, seed, 0);
    Machine(Thread(INIT, false, 0, 0, sampler, 0, false, timer, [], Ucontext(control, 0, 0, 0, prog.text)),
            map[], false, false, false, [])
  }

  lemma NewThreadInitial(p: Params, prog: Program, seed: Word)
    ensures Initial(p, prog, NewThread(p, prog, seed), seed)
  {}

  // -- the limit -----------------------------------------------------------

  /** One floating-point instruction that raises every handled exception, and one that does nothing. */
  function Faulty(p: Params): Program {
    Program([0, 1], w => w == 0,
            (w, pc, data, round) => Outcome(data, (pc + 1) % Modulus, if w == 0 then HandledEvents(p.arch, p.handled) else 0, false))
  }

  ghost predicate LimitKept(p: Params)
    requires p.period > 0
  {
    forall prog, m, seed, es :: IsRun(p, prog, m, seed, es) ==> |FaultRecords(Run(p, prog, m, es).value.marks)| <= p.maxcount
  }

  lemma FaultyOk(p: Params)
    requires HandledEvents(p.arch, p.handled) != 0
    ensures ProgramOk(p, Faulty(p))
  {}

  /** The thread right after its start, and after the fault of its first instruction. */
  lemma StartAndFault(p: Params, prog: Program, m: Machine, info: Info) returns (n: Machine, r: Machine)
    requires ParamsOk(p) && HandledEvents(p.arch, p.handled) != 0 && prog == Faulty(p) && m == NewThread(p, prog, 0)
    ensures Do(p, prog, m, Kick(0)) == Some(n) && Do(p, prog, n, Cpu(info)) == Some(r)
    ensures Started(p, m, n) && Faulted(p, prog, n, r)
  {
    FaultyOk(p);
    NewThreadInitial(p, prog, 0);
    InitialGood(p, prog, m, 0);
    n := Do(p, prog, m, Kick(0)).value;
    hide Good, ProgramOk, BrkTrap, Initial, Enabled, HandledEvents, GetRound, DoCpu, Before, After, ParamsOk;
    StartedBy(p, prog, m, 0);
    KickGood(p, prog, m, 0);
    Idle(p, prog, n);
    CpuProgress(p, prog, n, info);
    r := Do(p, prog, n, Cpu(info)).value;
    AllBits(HandledEvents(p.arch, p.handled));
  }

  lemma Idle(p: Params, prog: Program, m: Machine)
    requires Good(p, prog, m) && m.t.state.AWAIT_FPE?
    ensures !m.trapPending
  {
    hide Safe, Flags;
  }

  /** A started thread takes the fault of its first instruction whatever the limit. */
  lemma FirstFault(p: Params, info: Info)
    requires ParamsOk(p) && HandledEvents(p.arch, p.handled) != 0
    ensures var prog := Faulty(p);
      var m, es := NewThread(p, prog, 0), [Kick(0), Cpu(info)];
      IsRun(p, prog, m, 0, es) && |FaultRecords(Run(p, prog, m, es).value.marks)| == 1
  {
    var prog := Faulty(p);
    var m := NewThread(p, prog, 0);
    FaultyOk(p);
    NewThreadInitial(p, prog, 0);
    assert Run(p, prog, m, []) == Some(m) && m.marks == [];
    hide Initial, ProgramOk, Do, Run, NewThread, Before, After, Enabled, HandledEvents, GetRound;
    var n, r := StartAndFault(p, prog, m, info);
    RunSnoc(p, prog, m, [], Kick(0));
    RunSnoc(p, prog, m, [Kick(0)], Cpu(info));
    assert [] + [Kick(0)] == [Kick(0)] && [Kick(0)] + [Cpu(info)] == [Kick(0), Cpu(info)];
    FaultRecordsSnoc(m.marks, Start);
    FaultRecordsSnoc(n.marks, r.marks[|r.marks| - 1]);
  }

  lemma AllBits(x: bv32)
    ensures x & x == x
  {}

  lemma {:induction false} NothingHandled(p: Params, prog: Program, m: Machine, seed: Word, es: seq<Event>)
    requires ParamsOk(p) && IsRun(p, prog, m, seed, es) && HandledEvents(p.arch, p.handled) == 0
    ensures FaultRecords(Run(p, prog, m, es).value.marks) == []
  {
    if es != [] {
      var n := Run(p, prog, m, es[..|es| - 1]).value;
      NothingHandled(p, prog, m, seed, es[..|es| - 1]);
      RunGood(p, prog, m, seed, es[..|es| - 1]);
      StepMoved(p, prog, n, es[|es| - 1]);
      NoFault(p, prog, n, Do(p, prog, n, es[|es| - 1]).value);
    }
  }

  lemma NothingEnabled(p: Params, prog: Program, m: Machine, events: bv32)
    requires Good(p, prog, m) && HandledEvents(p.arch, p.handled) == 0
    ensures !Faults(p.arch, m.t.uc, events)
  {
    assert OnlyHandled(p.arch, p.handled, m.t.uc);
    assert Enabled(p.arch, m.t.uc) == 0;
    hide Enabled, HandledEvents, Good;
    NoBits(events);
  }

  lemma NoFault(p: Params, prog: Program, m: Machine, n: Machine)
    requires p.period > 0 && Good(p, prog, m) && Moved(p, prog, m, n) && HandledEvents(p.arch, p.handled) == 0
    ensures FaultRecords(n.marks) == FaultRecords(m.marks)
  {
    hide HandledEvents, Good, FaultRecords, Faults, GetRound, Before, After, SameWakeUps, Enabled, Enough, Forces;
    if m.t.uc.pc < |prog.text| {
      NothingEnabled(p, prog, m, Exec(p, prog, m).events);
    }
    if |n.marks| > |m.marks| {
      FaultRecordsSnoc(m.marks, n.marks[|m.marks|]);
    }
  }

  // -- the sampler -----------------------------------------------------------

  /** One instruction that does nothing. */
  function Idling(): Program {
    Program([0], w => false, (w, pc, data, round) => Outcome(data, pc, 0, false))
  }

  ghost predicate AlwaysWakes(p: Params)
    requires p.period > 0
  {
    forall prog, m, seed, es :: IsRun(p, prog, m, seed, es) ==> WakeUps(Run(p, prog, m, es).value) == 1
  }

  /** A thread whose first interval is zero starts without a wake-up and never gets one. */
  lemma NeverWakes(p: Params, seed: Word, es: seq<Event>)
    requires ParamsOk(p) && p.timers && NextExp(p, seed, p.onMean).1 == 0
    ensures var m := NewThread(p, Idling(), seed);
      && IsRun(p, Idling(), m, seed, [])
      && (Run(p, Idling(), m, es).Some? ==> WakeUps(Run(p, Idling(), m, es).value) == 0)
  {
    NewThreadInitial(p, Idling(), seed);
    hide Initial, NewThread, NextExp, WakeUps;
    if Run(p, Idling(), NewThread(p, Idling(), seed), es).Some? {
      WakeUpKept(p, Idling(), NewThread(p, Idling(), seed), seed, es);
    }
  }

  /** The same for a logarithm that rounds to zero. */
  lemma NeverWakesExample(p: Params, es: seq<Event>)
    requires ParamsOk(p) && p.timers
    ensures var q := p.(draw := (w, mean) => 0);
      var m := NewThread(q, Idling(), 1);
      && ParamsOk(q) && IsRun(q, Idling(), m, 1, [])
      && (Run(q, Idling(), m, es).Some? ==> WakeUps(Run(q, Idling(), m, es).value) == 0)
  {
    NeverWakes(p.(draw := (w, mean) => 0), 1, es);
  }

  /** With timers every run keeps its wake-up exactly if no seed draws zero first. */
  lemma AlwaysWakesExactly(p: Params)
    requires ParamsOk(p) && p.timers
    ensures AlwaysWakes(p) <==> forall seed: Word :: NextExp(p, seed, p.onMean).1 != 0
  {
    hide NextExp, WakeUps, ProgramOk, Initial;
    if seed: Word :| NextExp(p, seed, p.onMean).1 == 0 {
      NeverWakes(p, seed, []);
      assert Run(p, Idling(), NewThread(p, Idling(), seed), []).Some?;
    } else {
      forall prog, m, seed, es | IsRun(p, prog, m, seed, es) ensures WakeUps(Run(p, prog, m, es).value) == 1 {
        WakeUpKept(p, prog, m, seed, es);
      }
    }
  }
}
