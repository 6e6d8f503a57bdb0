/**
What holds in every run: the invariants of the state machine, the breakpoints
and the sampler, and the simulation of the unmonitored program.
*/
module MonitorRuns {
  import opened Lcg
  import opened FpControl
  import opened Monitor
  import opened MonitorMachine
  import opened Options

  /** The address of the last fault. */
  function LastFault(marks: seq<Mark>): Word {
    if marks == [] then 0
    else if marks[|marks| - 1].Fault? then marks[|marks| - 1].record.rip
    else LastFault(marks[..|marks| - 1])
  }

  function At(m: Machine): Word {
    LastFault(m.marks)
  }

  lemma LastFaultSnoc(marks: seq<Mark>, k: Mark)
    ensures LastFault(marks + [k]) == if k.Fault? then k.record.rip else LastFault(marks)
  {
    assert (marks + [k])[..|marks|] == marks;
  }

  /** The single-stepped instruction has not run yet. */
  predicate Before(p: Params, prog: Program, m: Machine) {
    && m.marks != [] && m.marks[|m.marks| - 1].Fault? && !m.trapPending
    && m.t.uc.pc == At(m) && At(m) < |prog.text| && prog.isFp(prog.text[At(m)])
  }

  /** It has run, and its trap is next. */
  predicate After(p: Params, m: Machine) {
    && |m.marks| >= 2 && m.marks[|m.marks| - 1].Retire? && m.marks[|m.marks| - 2].Fault?
    && m.marks[|m.marks| - 1].pc == At(m)
    && m.trapPending == p.arch.X64? && (p.arch.Arm64? ==> m.t.uc.pc == At(m) + 1)
  }

  predicate Between(m: Machine) {
    !m.trapPending && (m.marks == [] || Closed(m.marks))
  }

  predicate Closed(marks: seq<Mark>) {
    && marks != [] && !marks[|marks| - 1].Fault?
    && (marks[|marks| - 1].Retire? ==> |marks| < 2 || !marks[|marks| - 2].Fault?)
  }

  predicate Window(p: Params, prog: Program, m: Machine) {
    if m.t.state.AWAIT_TRAP? then Before(p, prog, m) || After(p, m) else Between(m)
  }

  predicate Flags(p: Params, m: Machine) {
    && !m.t.abortingInTrap && m.t.aborted == m.t.state.ABORT?
    && (!m.t.aborted ==> m.t.state.INIT? == !m.kicked)
    && RoundConfig(p, m.t.origRound)
  }

  function Count(b: bool): nat {
    if b then 1 else 0
  }

  /** Timer armed, alarm pending, switch delayed: how many of the three. */
  function WakeUps(m: Machine): nat {
    Count(m.t.timer > 0) + Count(m.pending) + Count(m.t.sampler.delayed)
  }

  predicate Good(p: Params, prog: Program, m: Machine) {
    && Safe(p, prog.text, m.t, At(m)) && Window(p, prog, m) && Flags(p, m)
    && (m.pending ==> p.timers)
  }

  /** What the word at the pc is, and that a breakpoint is only met where it was put. */
  lemma Fetch(p: Params, prog: Program, m: Machine)
    requires ParamsOk(p) && ProgramOk(p, prog) && Good(p, prog, m)
    requires !m.trapPending && m.t.uc.pc < |m.t.uc.text|
    ensures |m.t.uc.text| == |prog.text|
    ensures p.arch.Arm64? && m.t.uc.text[m.t.uc.pc] == BRK_INSTR <==> p.arch.Arm64? && m.t.state.AWAIT_TRAP? && After(p, m)
    ensures m.t.state.AWAIT_TRAP? && !After(p, m) ==> Before(p, prog, m)
    ensures p.arch.X64? ==> !After(p, m) || !m.t.state.AWAIT_TRAP?
    ensures !(p.arch.Arm64? && m.t.uc.text[m.t.uc.pc] == BRK_INSTR) ==> m.t.uc.text[m.t.uc.pc] == prog.text[m.t.uc.pc]
  {
    hide MaskOk, SamplerOk, TrapFlag, TrapInst, SingleStep, LastFault, ParamsOk;
  }

  /** A fault is only taken in AWAIT_FPE with the sampler on. */
  lemma FaultMeansListening(p: Params, prog: Program, m: Machine, events: bv32)
    requires Good(p, prog, m) && Faults(p.arch, m.t.uc, events)
    ensures m.t.state.AWAIT_FPE? && m.t.sampler.on && events != 0
  {
    hide Enabled, CodeOk, OnlyHandled, Window, Flags, SamplerOk;
    NoBits(events);
    NoBits(Enabled(p.arch, m.t.uc));
  }

  lemma KickGood(p: Params, prog: Program, m: Machine, time: Word)
    requires ParamsOk(p) && Good(p, prog, m) && Do(p, prog, m, Kick(time)).Some?
    ensures Good(p, prog, Do(p, prog, m, Kick(time)).value)
  {
    hide Safe, LastFault, RoundConfig, ParamsOk, BrkTrap;
    KickKeeps(p, prog.text, m.t, time, At(m));
    LastFaultSnoc(m.marks, Start);
  }

  lemma TrapGood(p: Params, prog: Program, m: Machine, n: Machine, time: Word)
    requires ParamsOk(p) && Good(p, prog, m) && m.t.state.AWAIT_TRAP? && After(p, m)
    requires n == m.(t := BrkTrap(p, m.t, time), trapPending := false, marks := m.marks + [Trap])
    ensures Good(p, prog, n)
  {
    hide Safe, LastFault, RoundConfig, ParamsOk, BrkTrap;
    TrapKeeps(p, prog.text, m.t, time, At(m));
    LastFaultSnoc(m.marks, Trap);
  }

  lemma FaultGood(p: Params, prog: Program, m: Machine, events: bv32, info: Info, n: Machine)
    requires ParamsOk(p) && ProgramOk(p, prog) && Good(p, prog, m)
    requires !m.trapPending && m.t.uc.pc < |prog.text| && Faults(p.arch, m.t.uc, events) && prog.isFp(prog.text[m.t.uc.pc])
    requires var t1 := m.t.(uc := FaultFlags(p.arch, m.t.uc, events));
      n == m.(t := FpTrap(p, t1, info), marks := m.marks + [Fault(FaultRecord(p, t1.uc, info))])
    ensures Good(p, prog, n) && n.t.state.AWAIT_TRAP? && Before(p, prog, n)
  {
    hide LastFault, RoundConfig, FpTrap, FaultFlags, CodeOk, MaskOk, SamplerOk, Faults;
    FaultMeansListening(p, prog, m, events);
    var t1 := m.t.(uc := FaultFlags(p.arch, m.t.uc, events));
    RaisedSafe(p, prog.text, m.t, t1, events, At(m));
    FlagsSafe(p, m.t, events);
    FaultKeeps(p, prog.text, t1, info, At(m));
    LastFaultSnoc(m.marks, Fault(FaultRecord(p, t1.uc, info)));
  }

  lemma RaisedSafe(p: Params, text: seq<bv32>, t: Thread, t1: Thread, events: bv32, at: Word)
    requires Safe(p, text, t, at)
    requires t1 == t.(uc := FaultFlags(p.arch, t.uc, events)) || exists pc :: t1 == t.(uc := RaiseFlags(p.arch, t.uc, events).(pc := pc))
    ensures Safe(p, text, t1, at)
  {
    hide TrapFlag, TrapInst, Enabled;
    FlagsSafe(p, t, events);
    if pc :| t1 == t.(uc := RaiseFlags(p.arch, t.uc, events).(pc := pc)) {
      SameControl(p, RaiseFlags(p.arch, t.uc, events), t1.uc);
    }
  }

  lemma FlagsSafe(p: Params, t: Thread, events: bv32)
    ensures SameCode(t.uc, RaiseFlags(p.arch, t.uc, events)) && SameCode(t.uc, FaultFlags(p.arch, t.uc, events))
    ensures Enabled(p.arch, RaiseFlags(p.arch, t.uc, events)) == Enabled(p.arch, t.uc)
    ensures Enabled(p.arch, FaultFlags(p.arch, t.uc, events)) == Enabled(p.arch, t.uc)
  {
    FlagsEffect(p.arch, t.uc, events);
  }

  lemma RetireGood(p: Params, prog: Program, m: Machine, w: bv32, o: Outcome, time: Word, n: Machine)
    requires ParamsOk(p) && ProgramOk(p, prog) && Good(p, prog, m)
    requires !m.trapPending && m.t.uc.pc < |prog.text| && w == prog.text[m.t.uc.pc]
    requires o == prog.exec(w, m.t.uc.pc, m.data, GetRound(p.arch, m.t.uc)) && !(m.t.state.AWAIT_TRAP? && After(p, m))
    requires var t1 := m.t.(uc := RaiseFlags(p.arch, m.t.uc, o.events).(pc := o.next));
      n == m.(t := if o.fenv then FenvCall(p, t1, time) else t1, data := o.data,
              trapPending := p.arch.X64? && SingleStep(m.t.uc), marks := m.marks + [Retire(m.t.uc.pc, w, o.events, m.t.sampler.on)])
    ensures Good(p, prog, n)
  {
    hide LastFault, RoundConfig, RaiseFlags, Safe, FenvCall, SingleStep, ParamsOk, GetRound;
    var t1 := m.t.(uc := RaiseFlags(p.arch, m.t.uc, o.events).(pc := o.next));
    RaisedSafe(p, prog.text, m.t, t1, o.events, At(m));
    Stepping(p, prog.text, m.t, At(m));
    LastFaultSnoc(m.marks, Retire(m.t.uc.pc, w, o.events, m.t.sampler.on));
    if m.t.state.AWAIT_TRAP? {
      FpOutcome(p, prog, m, w, o);
    } else if o.fenv {
      FenvKeeps(p, prog.text, t1, time, At(m));
    }
  }

  lemma Stepping(p: Params, text: seq<bv32>, t: Thread, at: Word)
    requires Safe(p, text, t, at)
    ensures p.arch.X64? ==> SingleStep(t.uc) == t.state.AWAIT_TRAP?
    ensures p.arch.Arm64? && t.state.AWAIT_TRAP? ==> at + 1 < |text|
  {}

  lemma FpOutcome(p: Params, prog: Program, m: Machine, w: bv32, o: Outcome)
    requires ProgramOk(p, prog) && prog.isFp(w)
    requires o == prog.exec(w, m.t.uc.pc, m.data, GetRound(p.arch, m.t.uc))
    ensures !o.fenv && (p.arch.Arm64? ==> o.next == (m.t.uc.pc + 1) % Modulus)
  {}

  lemma CpuGood(p: Params, prog: Program, m: Machine, info: Info)
    requires ParamsOk(p) && ProgramOk(p, prog) && Good(p, prog, m) && Do(p, prog, m, Cpu(info)).Some?
    ensures Good(p, prog, Do(p, prog, m, Cpu(info)).value)
  {
    hide Good, FpTrap, BrkTrap, FenvCall, FaultFlags, RaiseFlags, GetRound, SingleStep, After, Before, FaultRecord, Faults;
    var n := Do(p, prog, m, Cpu(info)).value;
    Fetch(p, prog, m);
    var u := m.t.uc;
    if p.arch.Arm64? && u.text[u.pc] == BRK_INSTR {
      TrapGood(p, prog, m, n, info.time);
    } else {
      var w := u.text[u.pc];
      var o := prog.exec(w, u.pc, m.data, GetRound(p.arch, u));
      if Faults(p.arch, u, o.events) {
        FaultMeansListening(p, prog, m, o.events);
        FaultGood(p, prog, m, o.events, info, n);
      } else {
        RetireGood(p, prog, m, w, o, info.time, n);
      }
    }
  }

  lemma AlarmGood(p: Params, prog: Program, m: Machine)
    requires ParamsOk(p) && Good(p, prog, m) && m.pending
    ensures Good(p, prog, Do(p, prog, m, Alarm).value)
  {
    hide Safe, LastFault, RoundConfig, ParamsOk, SigAlrm;
    AlarmKeeps(p, prog.text, m.t, At(m));
  }

  lemma StepGood(p: Params, prog: Program, m: Machine, e: Event)
    requires ParamsOk(p) && ProgramOk(p, prog) && Good(p, prog, m) && Do(p, prog, m, e).Some?
    ensures Good(p, prog, Do(p, prog, m, e).value)
  {
    match e
    case Kick(time) => KickGood(p, prog, m, time);
    case Cpu(info) => CpuGood(p, prog, m, info);
    case Step(time) =>
      hide BrkTrap, Safe, LastFault;
      TrapGood(p, prog, m, Do(p, prog, m, e).value, time);
    case Expire =>
      hide TrapFlag, TrapInst, SingleStep, Enabled, LastFault;
    case Alarm => AlarmGood(p, prog, m);
  }

  lemma InitialGood(p: Params, prog: Program, m: Machine, seed: Word)
    requires ParamsOk(p) && Initial(p, prog, m, seed)
    ensures Good(p, prog, m)
  {
    NoBits(!HandledEvents(p.arch, p.handled));
  }

  lemma {:induction false} RunGood(p: Params, prog: Program, m: Machine, seed: Word, es: seq<Event>)
    requires ParamsOk(p) && ProgramOk(p, prog) && Initial(p, prog, m, seed) && Run(p, prog, m, es).Some?
    ensures Good(p, prog, Run(p, prog, m, es).value)
  {
    hide Good, ProgramOk, Initial, Do;
    if es == [] {
      InitialGood(p, prog, m, seed);
    } else {
      RunGood(p, prog, m, seed, es[..|es| - 1]);
      StepGood(p, prog, Run(p, prog, m, es[..|es| - 1]).value, es[|es| - 1]);
    }
  }
}
