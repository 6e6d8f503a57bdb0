/**
What one event does to a machine that satisfies the invariant, seen through the
state that the whole-run theorems speak of.
*/
module MonitorSteps {
  import opened Lcg
  import opened Trace
  import opened FpControl
  import opened Monitor
  import opened MonitorMachine
  import opened MonitorRuns
  import opened Options

  /** Whether the monitor's rounding configuration reaches the processor. */
  predicate Forces(p: Params) {
    p.controlRound && p.arch.X64?
  }

  /** The instruction at the pc of the unmonitored program, on the data of the machine. */
  function Exec(p: Params, prog: Program, m: Machine): Outcome
    requires m.t.uc.pc < |prog.text|
  {
    prog.exec(prog.text[m.t.uc.pc], m.t.uc.pc, m.data, GetRound(p.arch, m.t.uc))
  }

  /** The program itself has not moved. */
  predicate Still(m: Machine, n: Machine) {
    n.data == m.data && n.t.uc.pc == m.t.uc.pc
  }

  predicate SameWakeUps(m: Machine, n: Machine) {
    n.t.timer == m.t.timer && n.pending == m.pending && n.t.sampler == m.t.sampler
  }

  predicate Started(p: Params, m: Machine, n: Machine) {
    && n.marks == m.marks + [Start] && Still(m, n) && SameWakeUps(m, n)
    && m.t.state.INIT? && n.t.state.AWAIT_FPE? && n.kicked && m.t.aborted == n.t.aborted
    && n.t.count == m.t.count && n.t.pushed == m.t.pushed
    && Enabled(p.arch, n.t.uc) == HandledEvents(p.arch, p.handled)
    && n.t.origRound == GetRound(p.arch, m.t.uc)
    && GetRound(p.arch, n.t.uc) == if Forces(p) then p.ourRound else GetRound(p.arch, m.t.uc)
  }

  predicate Resumed(p: Params, m: Machine, n: Machine) {
    && n.marks == m.marks + [Trap] && Still(m, n)
    && m.t.state.AWAIT_TRAP? && After(p, m) && n.t.state.AWAIT_FPE? && n.kicked == m.kicked && n.t.aborted == m.t.aborted
    && n.t.count == m.t.count + 1 && n.t.pushed == m.t.pushed
    && n.pending == m.pending && n.t.origRound == m.t.origRound
    && (m.t.sampler.delayed ==> Switched(p, m.t, n.t))
    && (!m.t.sampler.delayed ==> SameWakeUps(m, n))
    && (!m.t.sampler.delayed ==>
          Enabled(p.arch, n.t.uc) == if Enough(p, n.t.count) then 0 else HandledEvents(p.arch, p.handled))
    && GetRound(p.arch, n.t.uc) ==
         if Forces(p) then (if Enough(p, n.t.count) then m.t.origRound else p.ourRound) else GetRound(p.arch, m.t.uc)
  }

  predicate Faulted(p: Params, prog: Program, m: Machine, n: Machine)
    requires p.period > 0
  {
    && n.marks != [] && n.marks[|n.marks| - 1].Fault? && n.marks == m.marks + [n.marks[|n.marks| - 1]]
    && n.marks[|n.marks| - 1].record.rip == m.t.uc.pc
    && Still(m, n) && SameWakeUps(m, n) && Before(p, prog, n)
    && m.t.state.AWAIT_FPE? && m.t.sampler.on && n.t.state.AWAIT_TRAP? && n.kicked == m.kicked && n.t.aborted == m.t.aborted
    && m.t.uc.pc < |prog.text| && Faults(p.arch, m.t.uc, Exec(p, prog, m).events)
    && n.t.count == m.t.count && n.t.origRound == m.t.origRound
    && n.t.pushed == m.t.pushed + (if m.t.count % p.period == 0 && p.createFile then [n.marks[|n.marks| - 1].record] else [])
    && GetRound(p.arch, n.t.uc) == if Forces(p) then p.ourRound else GetRound(p.arch, m.t.uc)
  }

  predicate Retired(p: Params, prog: Program, m: Machine, n: Machine) {
    && m.t.uc.pc < |prog.text| && !Faults(p.arch, m.t.uc, Exec(p, prog, m).events)
    && n.marks == m.marks + [Retire(m.t.uc.pc, prog.text[m.t.uc.pc], Exec(p, prog, m).events, m.t.sampler.on)]
    && n.data == Exec(p, prog, m).data && n.t.uc.pc == Exec(p, prog, m).next
    && (m.t.state.AWAIT_TRAP? ==> Before(p, prog, m) && !Exec(p, prog, m).fenv)
    && SameWakeUps(m, n) && n.t.count == m.t.count && n.kicked == m.kicked && n.t.origRound == m.t.origRound
    && if Exec(p, prog, m).fenv then
         && n.t.state.ABORT? && n.t.aborted
         && (m.t.aborted || !p.createFile ==> n.t.pushed == m.t.pushed)
         && (!m.t.aborted && p.createFile ==> exists time :: n.t.pushed == m.t.pushed + [AbortRecord(time)])
         && GetRound(p.arch, n.t.uc) == if Forces(p) && !m.t.aborted then m.t.origRound else GetRound(p.arch, m.t.uc)
       else
         && n.t.state == m.t.state && n.t.aborted == m.t.aborted && n.t.pushed == m.t.pushed
         && Enabled(p.arch, n.t.uc) == Enabled(p.arch, m.t.uc) && GetRound(p.arch, n.t.uc) == GetRound(p.arch, m.t.uc)
  }

  /** The timer expires or its alarm is handled. */
  predicate Ticked(p: Params, m: Machine, n: Machine) {
    && p.timers && n.marks == m.marks && Still(m, n) && n.t.state == m.t.state && n.kicked == m.kicked && n.t.aborted == m.t.aborted
    && n.t.count == m.t.count && n.t.pushed == m.t.pushed && n.t.origRound == m.t.origRound
    && GetRound(p.arch, n.t.uc) == GetRound(p.arch, m.t.uc) && n.trapPending == m.trapPending
    && ((n == m.(t := m.t.(timer := 0), pending := true) && m.t.timer > 0)
        || (m.pending && !n.pending
            && (if m.t.state.AWAIT_FPE? then Switched(p, m.t, n.t)
                else n.t.timer == m.t.timer && n.t.sampler == m.t.sampler.(delayed := true))))
  }

  predicate Moved(p: Params, prog: Program, m: Machine, n: Machine)
    requires p.period > 0
  {
    Started(p, m, n) || Resumed(p, m, n) || Faulted(p, prog, m, n) || Retired(p, prog, m, n) || Ticked(p, m, n)
  }

  lemma StartedBy(p: Params, prog: Program, m: Machine, time: Word)
    requires ParamsOk(p) && Good(p, prog, m) && Do(p, prog, m, Kick(time)).Some?
    ensures Started(p, m, Do(p, prog, m, Kick(time)).value)
  {
    hide Safe, Window, LastFault, RoundConfig, ParamsOk, BrkTrap, Enabled, GetRound, HandledEvents;
    KickKeeps(p, prog.text, m.t, time, At(m));
  }

  lemma ResumedBy(p: Params, prog: Program, m: Machine, n: Machine, time: Word)
    requires ParamsOk(p) && Good(p, prog, m) && m.t.state.AWAIT_TRAP? && After(p, m)
    requires n == m.(t := BrkTrap(p, m.t, time), trapPending := false, marks := m.marks + [Trap])
    ensures Resumed(p, m, n)
  {
    hide Safe, LastFault, RoundConfig, ParamsOk, BrkTrap, Enabled, GetRound, HandledEvents, Enough;
    TrapKeeps(p, prog.text, m.t, time, At(m));
  }

  lemma FaultedBy(p: Params, prog: Program, m: Machine, info: Info, n: Machine)
    requires ParamsOk(p) && ProgramOk(p, prog) && Good(p, prog, m)
    requires !m.trapPending && m.t.uc.pc < |prog.text| && Faults(p.arch, m.t.uc, Exec(p, prog, m).events)
    requires var t1 := m.t.(uc := FaultFlags(p.arch, m.t.uc, Exec(p, prog, m).events));
      n == m.(t := FpTrap(p, t1, info), marks := m.marks + [Fault(FaultRecord(p, t1.uc, info))])
    ensures Faulted(p, prog, m, n)
  {
    hide LastFault, RoundConfig, FpTrap, FaultFlags, Safe, Faults, Enabled, GetRound, HandledEvents;
    var events := Exec(p, prog, m).events;
    FaultMeansListening(p, prog, m, events);
    FaultGood(p, prog, m, events, info, n);
    var t1 := m.t.(uc := FaultFlags(p.arch, m.t.uc, events));
    RaisedSafe(p, prog.text, m.t, t1, events, At(m));
    FlagsEffect(p.arch, m.t.uc, events);
    FaultKeeps(p, prog.text, t1, info, At(m));
  }

  lemma RetiredBy(p: Params, prog: Program, m: Machine, time: Word, n: Machine)
    requires ParamsOk(p) && ProgramOk(p, prog) && Good(p, prog, m)
    requires !m.trapPending && m.t.uc.pc < |prog.text| && !Faults(p.arch, m.t.uc, Exec(p, prog, m).events)
    requires !(m.t.state.AWAIT_TRAP? && After(p, m))
    requires var o := Exec(p, prog, m);
      var t1 := m.t.(uc := RaiseFlags(p.arch, m.t.uc, o.events).(pc := o.next));
      n == m.(t := if o.fenv then FenvCall(p, t1, time) else t1, data := o.data,
              trapPending := p.arch.X64? && SingleStep(m.t.uc),
              marks := m.marks + [Retire(m.t.uc.pc, prog.text[m.t.uc.pc], o.events, m.t.sampler.on)])
    ensures Retired(p, prog, m, n)
  {
    hide LastFault, RoundConfig, RaiseFlags, Safe, FenvCall, SingleStep, ParamsOk, Faults, Enabled, GetRound, HandledEvents;
    var o := Exec(p, prog, m);
    var t1 := m.t.(uc := RaiseFlags(p.arch, m.t.uc, o.events).(pc := o.next));
    RaisedSafe(p, prog.text, m.t, t1, o.events, At(m));
    FlagsEffect(p.arch, m.t.uc, o.events);
    SameControl(p, RaiseFlags(p.arch, m.t.uc, o.events), t1.uc);
    if m.t.state.AWAIT_TRAP? {
      FpOutcome(p, prog, m, prog.text[m.t.uc.pc], o);
    } else if o.fenv {
      FenvKeeps(p, prog.text, t1, time, At(m));
    }
  }

  lemma CpuMoved(p: Params, prog: Program, m: Machine, info: Info)
    requires ParamsOk(p) && ProgramOk(p, prog) && Good(p, prog, m) && Do(p, prog, m, Cpu(info)).Some?
    ensures var n := Do(p, prog, m, Cpu(info)).value;
      Resumed(p, m, n) || Faulted(p, prog, m, n) || Retired(p, prog, m, n)
  {
    hide Good, FpTrap, BrkTrap, FenvCall, FaultFlags, RaiseFlags, GetRound, SingleStep, After, Before, FaultRecord, Faults,
      Faulted, Resumed, Retired, ProgramOk;
    var n := Do(p, prog, m, Cpu(info)).value;
    Fetch(p, prog, m);
    var u := m.t.uc;
    if p.arch.Arm64? && u.text[u.pc] == BRK_INSTR {
      ResumedBy(p, prog, m, n, info.time);
    } else if Faults(p.arch, u, Exec(p, prog, m).events) {
      FaultedBy(p, prog, m, info, n);
    } else {
      RetiredBy(p, prog, m, info.time, n);
    }
  }

  lemma TickedBy(p: Params, prog: Program, m: Machine, e: Event)
    requires ParamsOk(p) && Good(p, prog, m) && (e.Expire? || e.Alarm?) && Do(p, prog, m, e).Some?
    ensures Ticked(p, m, Do(p, prog, m, e).value)
  {
    hide CodeOk, MaskOk, Window, LastFault, RoundConfig, ParamsOk, SigAlrm, GetRound, Enabled, HandledEvents;
    if e.Alarm? {
      AlarmKeeps(p, prog.text, m.t, At(m));
    }
  }

  lemma StepMoved(p: Params, prog: Program, m: Machine, e: Event)
    requires ParamsOk(p) && ProgramOk(p, prog) && Good(p, prog, m) && Do(p, prog, m, e).Some?
    ensures Moved(p, prog, m, Do(p, prog, m, e).value)
  {
    var n := Do(p, prog, m, e).value;
    hide Started, Resumed, Faulted, Retired, Ticked, Safe, DoCpu, ParamsOk, BrkTrap, SigAlrm, LastFault;
    match e
    case Kick(time) => StartedBy(p, prog, m, time);
    case Cpu(info) => CpuMoved(p, prog, m, info);
    case Step(time) => ResumedBy(p, prog, m, n, time);
    case Expire => TickedBy(p, prog, m, e);
    case Alarm => TickedBy(p, prog, m, e);
  }
}
