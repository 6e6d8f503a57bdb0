/**
What the records of a run hold: the instruction that faulted, what the kernel said
of it and what it raised.
*/
module MonitorRecords {
  import opened Lcg
  import opened Trace
  import opened FpControl
  import opened Monitor
  import opened MonitorMachine
  import opened MonitorRuns
  import opened MonitorSteps
  import opened MonitorTheorems
  import opened MonitorFlags
  import opened Options

  /** The machine a run leads to, its next instruction and the machine after it. */
  ghost predicate Reached(p: Params, prog: Program, m: Machine, seed: Word, es: seq<Event>, info: Info, n: Machine, n1: Machine)
    requires p.period > 0
  {
    && ProgramOk(p, prog) && Initial(p, prog, m, seed)
    && Run(p, prog, m, es) == Some(n) && Run(p, prog, m, es + [Cpu(info)]) == Some(n1)
  }

  lemma Fetched(p: Params, prog: Program, n: Machine, info: Info)
    requires ParamsOk(p) && ProgramOk(p, prog) && Good(p, prog, n) && n.t.state.AWAIT_FPE? && n.t.uc.pc < |prog.text|
    requires Do(p, prog, n, Cpu(info)).Some?
    ensures n.t.uc.text == prog.text
    ensures var n1, o := Do(p, prog, n, Cpu(info)).value, Exec(p, prog, n);
      if Faults(p.arch, n.t.uc, o.events) then
        n1.marks == n.marks + [Fault(FaultRecord(p, FaultFlags(p.arch, n.t.uc, o.events), info))]
      else
        n1.t == var t1 := n.t.(uc := RaiseFlags(p.arch, n.t.uc, o.events).(pc := o.next));
                if o.fenv then FenvCall(p, t1, info.time) else t1
  {
    hide MaskOk, Faults, FpTrap, FenvCall, FaultFlags, RaiseFlags, FaultRecord, LastFault, TrapFlag, TrapInst, ParamsOk, GetRound;
    Fetch(p, prog, n);
  }

  /** The control register a fault leaves: on x64 the flags of its events are set. */
  function Csr(p: Params, u: Ucontext, events: bv32): bv32 {
    if p.arch.X64? then u.control | (events & 0x3f) else u.status
  }

  /** Of the handled exceptions, exactly those of the events, and at least one. */
  predicate ShowsOwn(p: Params, csr: bv32, events: bv32) {
    csr & p.handled == events & p.handled && csr & p.handled != 0
  }

  lemma RecordPushed(p: Params, prog: Program, m: Machine, seed: Word, es: seq<Event>, info: Info, n: Machine, n1: Machine)
    requires ParamsOk(p) && Reached(p, prog, m, seed, es, info, n, n1) && n.t.state.AWAIT_FPE? && n.t.uc.pc < |prog.text|
    requires Faults(p.arch, n.t.uc, Exec(p, prog, n).events)
    ensures n1.marks != [] && n1.marks[|n1.marks| - 1].Fault?
    ensures n1.t.pushed == n.t.pushed +
      if p.createFile && |FaultRecords(n.marks)| % p.period == 0 then [n1.marks[|n1.marks| - 1].record] else []
  {
    RunSnoc(p, prog, m, es, Cpu(info));
    RunGood(p, prog, m, seed, es);
    RunWhole(p, prog, m, seed, es);
    assert Recorded(p, n) && n.t.count == |FaultRecords(n.marks)|;
    hide Run, ProgramOk, Initial, Good, Faults, Enabled, HandledEvents, GetRound, Whole, FaultRecords, Before, After, ParamsOk, EveryNth,
      SameWakeUps, Enough, Forces, Do, FaultRecord, Recorded, Switched;
    CpuMoved(p, prog, n, info);
  }

  /**
  An instruction that faults leaves a record of when and where it did, with the
  kernel's code, its own bytes as the program has them and, on x64, of the handled
  exceptions exactly those it raised. The record goes into the trace in its turn.
  */
  lemma FaultRecorded(p: Params, prog: Program, m: Machine, seed: Word, es: seq<Event>, info: Info, n: Machine, n1: Machine)
    requires ParamsOk(p) && Reached(p, prog, m, seed, es, info, n, n1) && n.t.state.AWAIT_FPE? && n.t.uc.pc < |prog.text|
    requires Faults(p.arch, n.t.uc, Exec(p, prog, n).events)
    ensures n1.marks != [] && n1.marks[|n1.marks| - 1].Fault?
    ensures var r, o, u := n1.marks[|n1.marks| - 1].record, Exec(p, prog, n), n.t.uc;
      && r.time == info.time && r.rip == u.pc && r.rsp == info.sp && r.code == info.code
      && r.instruction == p.fetch(prog.text, u.pc) && r.pad == 0
      && r.mxcsr == Csr(p, u, o.events) as Word32 && (p.arch.X64? ==> ShowsOwn(p, Csr(p, u, o.events), o.events))
    ensures n1.t.pushed == n.t.pushed +
      if p.createFile && |FaultRecords(n.marks)| % p.period == 0 then [n1.marks[|n1.marks| - 1].record] else []
  {
    assert p.period > 0;
    hide Run, ProgramOk, Initial, Good, Faults, Enabled, GetRound, FaultRecords, ParamsOk, Do, FaultRecord, FaultFlags, RaiseFlags, FpCsr, Csr,
      ShowsOwn;
    var o := Exec(p, prog, n);
    RecordPushed(p, prog, m, seed, es, info, n, n1);
    RunSnoc(p, prog, m, es, Cpu(info));
    RunGood(p, prog, m, seed, es);
    Fetched(p, prog, n, info);
    RecordOf(p, n.t.uc, o.events, info);
    CsrOf(p, n.t.uc, o.events);
    if p.arch.X64? {
      OwnShown(p, prog, m, seed, es, o.events, n);
    }
  }

  lemma OwnShown(p: Params, prog: Program, m: Machine, seed: Word, es: seq<Event>, events: bv32, n: Machine)
    requires ParamsOk(p) && ProgramOk(p, prog) && Initial(p, prog, m, seed) && Run(p, prog, m, es) == Some(n)
    requires p.arch.X64? && Faults(p.arch, n.t.uc, events)
    ensures ShowsOwn(p, FpCsr(p.arch, FaultFlags(p.arch, n.t.uc, events)), events)
  {
    RecordShowsOwnFlags(p, prog, m, seed, es, events);
    hide Run, ProgramOk, Initial, Faults, FpCsr, FaultFlags, ParamsOk;
  }

  lemma RecordOf(p: Params, u: Ucontext, events: bv32, info: Info)
    ensures var r := FaultRecord(p, FaultFlags(p.arch, u, events), info);
      && r.time == info.time && r.rip == u.pc && r.rsp == info.sp && r.code == info.code
      && r.instruction == p.fetch(u.text, u.pc) && r.pad == 0 && r.mxcsr == Csr(p, u, events) as Word32
  {
    FlagsEffect(p.arch, u, events);
    CsrOf(p, u, events);
    hide FaultFlags, RaiseFlags, FpCsr, Csr, Enabled, GetRound;
  }

  lemma CsrOf(p: Params, u: Ucontext, events: bv32)
    ensures FpCsr(p.arch, FaultFlags(p.arch, u, events)) == Csr(p, u, events)
  {}

  /** A call of fenv.h is recorded with its time and ends the trace; its record is all ones otherwise. */
  lemma AbortRecorded(p: Params, prog: Program, m: Machine, seed: Word, es: seq<Event>, info: Info, n: Machine, n1: Machine)
    requires ParamsOk(p) && Reached(p, prog, m, seed, es, info, n, n1) && n.t.state.AWAIT_FPE? && n.t.uc.pc < |prog.text|
    requires !Faults(p.arch, n.t.uc, Exec(p, prog, n).events) && Exec(p, prog, n).fenv
    ensures n1.t.state.ABORT?
    ensures n1.t.pushed == n.t.pushed + if p.createFile then [AbortRecord(info.time)] else []
    ensures var s := Encode(AbortRecord(info.time));
      Word64At(s, 0) == info.time && Ones(s[8..])
  {
    var o := Exec(p, prog, n);
    RunSnoc(p, prog, m, es, Cpu(info));
    RunGood(p, prog, m, seed, es);
    Fetched(p, prog, n, info);
    AbortBytes(info.time);
    assert !n.t.abortingInTrap && !n.t.aborted && RoundConfig(p, n.t.origRound) && Safe(p, prog.text, n.t, At(n));
    var t1 := n.t.(uc := RaiseFlags(p.arch, n.t.uc, o.events).(pc := o.next));
    hide Run, ProgramOk, Initial, Good, Faults, Enabled, GetRound, RaiseFlags, ParamsOk, FenvCall, Safe, RoundConfig, Encode, Word64At;
    RaisedSafe(p, prog.text, n.t, t1, o.events, At(n));
    FenvKeeps(p, prog.text, t1, info.time, At(n));
  }
}
