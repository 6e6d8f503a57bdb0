/**
When the limit on the number of faults is kept: switching the sampler on makes a
thread listen again, whatever it has recorded.
*/
module MonitorLimits {
  import opened Lcg
  import opened FpControl
  import opened Monitor
  import opened MonitorMachine
  import opened MonitorRuns
  import opened MonitorSteps
  import opened MonitorTheorems
  import opened MonitorExamples
  import opened Options

  /** A loop of a floating-point instruction that raises every handled exception, and a jump back to it. */
  function Looping(p: Params): Program {
    Program([0, 1], w => w == 0,
            (w, pc, data, round) =>
              if w == 0 then Outcome(data, (pc + 1) % Modulus, HandledEvents(p.arch, p.handled), false) else Outcome(data, 0, 0, false))
  }

  lemma LoopingOk(p: Params)
    ensures ProgramOk(p, Looping(p))
  {}

  /** Between two rounds of the loop, with n faults so far and the timer running. */
  predicate Looped(m: Machine, n: nat, on: bool) {
    && m.t.state.AWAIT_FPE? && m.t.uc.pc == 0 && m.t.count == n
    && m.t.timer > 0 && !m.pending && !m.t.sampler.delayed && m.t.sampler.on == on
  }

  predicate Hears(p: Params, m: Machine) {
    Enabled(p.arch, m.t.uc) == HandledEvents(p.arch, p.handled)
  }

  /** One more event, which can happen. */
  lemma OneMore(p: Params, prog: Program, m: Machine, seed: Word, es: seq<Event>, e: Event) returns (es1: seq<Event>)
    requires ParamsOk(p) && IsRun(p, prog, m, seed, es) && Do(p, prog, Run(p, prog, m, es).value, e).Some?
    ensures es1 == es + [e] && IsRun(p, prog, m, seed, es1)
    ensures Run(p, prog, m, es1) == Do(p, prog, Run(p, prog, m, es).value, e)
    ensures Good(p, prog, Run(p, prog, m, es1).value) && Moved(p, prog, Run(p, prog, m, es).value, Run(p, prog, m, es1).value)
  {
    hide ProgramOk, Initial, Good, Do, Run, Started, Resumed, Faulted, Retired, Ticked;
    es1 := es + [e];
    RunSnoc(p, prog, m, es, e);
    RunGood(p, prog, m, seed, es);
    RunGood(p, prog, m, seed, es1);
    StepMoved(p, prog, Run(p, prog, m, es).value, e);
  }

  lemma LoopFaults(p: Params, m: Machine)
    requires Hears(p, m) && HandledEvents(p.arch, p.handled) != 0 && m.t.uc.pc == 0
    ensures Faults(p.arch, m.t.uc, Exec(p, Looping(p), m).events)
  {
    AllBits(HandledEvents(p.arch, p.handled));
  }

  lemma NoEvents(p: Params, m: Machine)
    requires m.t.uc.pc == 1
    ensures var o := Exec(p, Looping(p), m); !Faults(p.arch, m.t.uc, o.events) && o.next == 0 && !o.fenv
  {
    NoBits(Enabled(p.arch, m.t.uc));
  }

  lemma LoopNext(p: Params, m: Machine)
    requires m.t.uc.pc == 0
    ensures Exec(p, Looping(p), m).next == 1
  {}

  /** The fault of the first instruction. */
  lemma LoopFault(p: Params, m: Machine, seed: Word, es: seq<Event>, info: Info, n: nat) returns (es1: seq<Event>)
    requires ParamsOk(p) && HandledEvents(p.arch, p.handled) != 0 && IsRun(p, Looping(p), m, seed, es)
    requires Looped(Run(p, Looping(p), m, es).value, n, true) && Hears(p, Run(p, Looping(p), m, es).value)
    ensures IsRun(p, Looping(p), m, seed, es1)
    ensures Faulted(p, Looping(p), Run(p, Looping(p), m, es).value, Run(p, Looping(p), m, es1).value)
    ensures |FaultRecords(Run(p, Looping(p), m, es1).value.marks)| == n + 1
  {
    var prog := Looping(p);
    var a := Run(p, prog, m, es).value;
    assert |prog.text| == 2;
    LoopFaults(p, a);
    RunGood(p, prog, m, seed, es);
    Idle(p, prog, a);
    hide Looping, ProgramOk, Initial, Good, Do, Run, Faults, Enabled, HandledEvents, GetRound, Before, After, Enough, Forces, ParamsOk, FaultRecords,
      Hears, SameWakeUps;
    CpuProgress(p, prog, a, info);
    es1 := OneMore(p, prog, m, seed, es, Cpu(info));
    RunWhole(p, prog, m, seed, es1);
    hide Whole;
    assert Recorded(p, Run(p, prog, m, es1).value) by { WholeRecorded(p, prog, m, seed, es1); }
  }

  lemma WholeRecorded(p: Params, prog: Program, m: Machine, seed: Word, es: seq<Event>)
    requires ParamsOk(p) && IsRun(p, prog, m, seed, es)
    ensures Recorded(p, Run(p, prog, m, es).value)
  {
    hide ProgramOk, Initial, Run, Recorded, ParamsOk;
    RunWhole(p, prog, m, seed, es);
  }

  /** The instruction after its fault, masked. */
  lemma LoopStep(p: Params, m: Machine, seed: Word, es: seq<Event>, info: Info, a: Machine) returns (es1: seq<Event>)
    requires ParamsOk(p) && IsRun(p, Looping(p), m, seed, es)
    requires Faulted(p, Looping(p), a, Run(p, Looping(p), m, es).value) && a.t.uc.pc == 0
    ensures IsRun(p, Looping(p), m, seed, es1)
    ensures var d := Run(p, Looping(p), m, es1).value;
      d.t.state.AWAIT_TRAP? && After(p, d) && d.t.uc.pc == 1 && d.t.count == a.t.count && SameWakeUps(a, d)
  {
    var prog := Looping(p);
    assert |prog.text| == 2;
    hide ProgramOk, Initial, Good, Do, Run, Faults, Enabled, HandledEvents, GetRound, Before, After, Enough, Forces, ParamsOk, FaultRecords;
    var b := Run(p, prog, m, es).value;
    RunGood(p, prog, m, seed, es);
    hide Looping;
    BeforeNotDue(p, prog, b);
    LoopNext(p, b);
    CpuProgress(p, prog, b, info);
    es1 := OneMore(p, prog, m, seed, es, Cpu(info));
    RanAfter(p, prog, b, Run(p, prog, m, es1).value);
  }

  /** A round of the loop: the fault, the instruction itself, its trap and the jump back. */
  lemma LoopRound(p: Params, m: Machine, seed: Word, es: seq<Event>, info: Info, n: nat) returns (es1: seq<Event>)
    requires ParamsOk(p) && HandledEvents(p.arch, p.handled) != 0 && IsRun(p, Looping(p), m, seed, es)
    requires Looped(Run(p, Looping(p), m, es).value, n, true) && Hears(p, Run(p, Looping(p), m, es).value)
    ensures IsRun(p, Looping(p), m, seed, es1) && Looped(Run(p, Looping(p), m, es1).value, n + 1, true)
    ensures !Enough(p, n + 1) ==> Hears(p, Run(p, Looping(p), m, es1).value)
  {
    var prog := Looping(p);
    assert |prog.text| == 2;
    hide Looping, ProgramOk, Initial, Good, Do, Run, Faults, Enabled, HandledEvents, GetRound, Before, After, Enough, Forces, ParamsOk,
      FaultRecords;
    var a := Run(p, prog, m, es).value;
    es1 := LoopFault(p, m, seed, es, info, n);
    es1 := LoopStep(p, m, seed, es1, info, a);
    var d := Run(p, prog, m, es1).value;
    RunGood(p, prog, m, seed, es1);
    var e := ResumeProgress(p, prog, d, info);
    es1 := OneMore(p, prog, m, seed, es1, e);
    var f := Run(p, prog, m, es1).value;
    Idle(p, prog, f);
    NoEvents(p, f);
    CpuProgress(p, prog, f, info);
    es1 := OneMore(p, prog, m, seed, es1, Cpu(info));
  }

  lemma RanAfter(p: Params, prog: Program, b: Machine, d: Machine)
    requires Retired(p, prog, b, d) && Good(p, prog, d) && d.t.state.AWAIT_TRAP?
    ensures After(p, d)
  {
    hide Safe, Flags, LastFault, Faults, GetRound, Enabled;
  }

  lemma {:induction false} LoopRounds(p: Params, m: Machine, seed: Word, es: seq<Event>, info: Info, n: nat) returns (es1: seq<Event>)
    requires ParamsOk(p) && HandledEvents(p.arch, p.handled) != 0 && IsRun(p, Looping(p), m, seed, es)
    requires Looped(Run(p, Looping(p), m, es).value, 0, true) && Hears(p, Run(p, Looping(p), m, es).value)
    requires 0 <= n <= p.maxcount
    ensures IsRun(p, Looping(p), m, seed, es1) && Looped(Run(p, Looping(p), m, es1).value, n, true)
    ensures n < p.maxcount ==> Hears(p, Run(p, Looping(p), m, es1).value)
  {
    hide ProgramOk, Initial, Run, HandledEvents, Hears, Looping, ParamsOk;
    es1 := es;
    if n > 0 {
      es1 := LoopRounds(p, m, seed, es, info, n - 1);
      es1 := LoopRound(p, m, seed, es1, info, n - 1);
    }
  }

  /** The timer runs out and the sampler is switched. */
  lemma SwitchOnce(p: Params, m: Machine, seed: Word, es: seq<Event>, n: nat, on: bool) returns (es1: seq<Event>)
    requires ParamsOk(p) && IsRun(p, Looping(p), m, seed, es) && Looped(Run(p, Looping(p), m, es).value, n, on)
    ensures IsRun(p, Looping(p), m, seed, es1) && Looped(Run(p, Looping(p), m, es1).value, n, !on)
    ensures !on ==> Hears(p, Run(p, Looping(p), m, es1).value)
  {
    var prog := Looping(p);
    assert p.period > 0;
    hide Looping, ProgramOk, Initial, Good, Run, SigAlrm, Enabled, HandledEvents, GetRound, ParamsOk, Started, Resumed, Faulted, Retired;
    var a := Run(p, prog, m, es).value;
    es1 := OneMore(p, prog, m, seed, es, Expire);
    var b := Run(p, prog, m, es1).value;
    assert b == a.(t := a.t.(timer := 0), pending := true);
    es1 := OneMore(p, prog, m, seed, es1, Alarm);
    var d := Run(p, prog, m, es1).value;
    RunGood(p, prog, m, seed, es);
    AlarmTicks(p, prog, m, seed, es + [Expire], b, d);
  }

  lemma AlarmTicks(p: Params, prog: Program, m: Machine, seed: Word, es: seq<Event>, b: Machine, d: Machine)
    requires ParamsOk(p) && IsRun(p, prog, m, seed, es) && Run(p, prog, m, es) == Some(b) && Do(p, prog, b, Alarm) == Some(d)
    ensures Ticked(p, b, d) && !d.pending
  {
    hide ProgramOk, Initial, Good, Run, SigAlrm, Enabled, GetRound, Ticked;
    RunGood(p, prog, m, seed, es);
    TickedBy(p, prog, b, Alarm);
  }

  lemma LoopStarts(p: Params, seed: Word)
    requires ParamsOk(p) && p.timers && NextExp(p, seed, p.onMean).1 != 0
    ensures var m := NewThread(p, Looping(p), seed);
      && IsRun(p, Looping(p), m, seed, [Kick(0)])
      && Looped(Run(p, Looping(p), m, [Kick(0)]).value, 0, true) && Hears(p, Run(p, Looping(p), m, [Kick(0)]).value)
  {
    var prog := Looping(p);
    var m := NewThread(p, prog, seed);
    LoopingOk(p);
    NewThreadInitial(p, prog, seed);
    InitialGood(p, prog, m, seed);
    TimerSet(0, NextExp(p, seed, p.onMean).1);
    assert m.t.timer > 0 && m.t.sampler.on && !m.t.sampler.delayed && m.t.uc.pc == 0 && m.t.count == 0 && !m.pending;
    assert Run(p, prog, m, []) == Some(m);
    hide Looping, ProgramOk, Initial, Good, Run, BrkTrap, Enabled, HandledEvents, GetRound, NewThread, NextExp, Forces;
    RunSnoc(p, prog, m, [], Kick(0));
    assert [] + [Kick(0)] == [Kick(0)];
    StartedBy(p, prog, m, 0);
  }

  /** After maxcount faults nothing is unmasked, but the sampler going off and on again starts over: one fault too many. */
  lemma OneTooMany(p: Params, seed: Word, info: Info) returns (es: seq<Event>)
    requires ParamsOk(p) && p.timers && p.maxcount >= 0 && HandledEvents(p.arch, p.handled) != 0 && NextExp(p, seed, p.onMean).1 != 0
    ensures var m := NewThread(p, Looping(p), seed);
      IsRun(p, Looping(p), m, seed, es) && |FaultRecords(Run(p, Looping(p), m, es).value.marks)| == p.maxcount + 1
  {
    var m := NewThread(p, Looping(p), seed);
    hide ProgramOk, Initial, Run, HandledEvents, Hears, Looping, ParamsOk, NewThread, NextExp, Looped, FaultRecords, Faulted;
    LoopStarts(p, seed);
    es := LoopRounds(p, m, seed, [Kick(0)], info, p.maxcount);
    es := SwitchOnce(p, m, seed, es, p.maxcount, true);
    es := SwitchOnce(p, m, seed, es, p.maxcount, false);
    es := LoopFault(p, m, seed, es, info, p.maxcount);
  }

  /**
  The limit is kept in every run exactly if nothing is handled, or it is at least
  one and there are no timers or no seed ever starts them.
  */
  lemma LimitKeptExactly(p: Params)
    requires ParamsOk(p) && p.maxcount >= 0
    ensures LimitKept(p) <==>
      || HandledEvents(p.arch, p.handled) == 0
      || (p.maxcount >= 1 && (p.timers ==> forall seed: Word :: NextExp(p, seed, p.onMean).1 == 0))
  {
    assert p.period > 0;
    hide NextExp, ProgramOk, Initial, Run, HandledEvents, FaultRecords, ParamsOk;
    if HandledEvents(p.arch, p.handled) == 0 {
      forall prog, m, seed, es | IsRun(p, prog, m, seed, es)
        ensures |FaultRecords(Run(p, prog, m, es).value.marks)| <= p.maxcount
      {
        NothingHandled(p, prog, m, seed, es);
      }
    } else if p.maxcount == 0 {
      FirstFault(p, Info(0, 0, 0));
    } else if p.timers && exists seed: Word :: NextExp(p, seed, p.onMean).1 != 0 {
      var seed: Word :| NextExp(p, seed, p.onMean).1 != 0;
      var es := OneTooMany(p, seed, Info(0, 0, 0));
      assert !LimitKept(p);
    } else {
      forall prog, m, seed, es | IsRun(p, prog, m, seed, es)
        ensures |FaultRecords(Run(p, prog, m, es).value.marks)| <= p.maxcount
      {
        FaultsLimited(p, prog, m, seed, es);
      }
    }
  }
}
