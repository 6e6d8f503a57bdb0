/**
A processor running one monitored program: instructions retire, fault or hit a
breakpoint, the single-step trap and the one-shot timer go off, and every signal
runs its handler on the interrupted context.
*/
module MonitorMachine {
  import opened Lcg
  import opened Trace
  import opened FpControl
  import opened Monitor
  import opened Options

  /** Registers and memory of the program, without control registers and text. */
  type Data = map<nat, nat>

  datatype Outcome = Outcome(data: Data, next: Word, events: bv32, fenv: bool)

  /**
  A program: its text and what an instruction word does at a pc, to given data
  and under given rounding bits. `fenv` marks a call of an intercepted function.
  */
  datatype Program = Program(text: seq<bv32>, isFp: bv32 -> bool, exec: (bv32, Word, Data, bv32) -> Outcome)

  /** What has happened so far. `on` says whether the sampler was on when the instruction retired. */
  datatype Mark =
    | Start
    | Retire(pc: Word, word: bv32, events: bv32, on: bool)
    | Fault(record: Record)
    | Trap

  /** `pending`: an alarm signal awaits delivery; `trapPending`: so does a single-step trap. */
  datatype Machine = Machine(t: Thread, data: Data, trapPending: bool, pending: bool, kicked: bool, marks: seq<Mark>)

  datatype Event =
    | Kick(time: Word)
    | Cpu(info: Info)
    | Step(time: Word)
    | Expire
    | Alarm

  /** One instruction: a breakpoint, a fault, or execution to the end. */
  function DoCpu(p: Params, prog: Program, m: Machine, info: Info): Option<Machine>
    requires p.period > 0
  {
    var u := m.t.uc;
    if m.trapPending || u.pc >= |u.text| then None
    else if p.arch.Arm64? && u.text[u.pc] == BRK_INSTR then
      Some(m.(t := BrkTrap(p, m.t, info.time), marks := m.marks + [Trap]))
    else
      var w := u.text[u.pc];
      var o := prog.exec(w, u.pc, m.data, GetRound(p.arch, u));
      if Faults(p.arch, u, o.events) then
        var t1 := m.t.(uc := FaultFlags(p.arch, u, o.events));
        Some(m.(t := FpTrap(p, t1, info), marks := m.marks + [Fault(FaultRecord(p, t1.uc, info))]))
      else
        var t1 := m.t.(uc := RaiseFlags(p.arch, u, o.events).(pc := o.next));
        Some(m.(t := if o.fenv then FenvCall(p, t1, info.time) else t1,
                data := o.data,
                trapPending := p.arch.X64? && SingleStep(u),
                marks := m.marks + [Retire(u.pc, w, o.events, m.t.sampler.on)]))
  }

  /** The machine after an event, if the event can happen. */
  function Do(p: Params, prog: Program, m: Machine, e: Event): Option<Machine>
    requires p.period > 0
  {
    match e
    case Kick(time) =>
      if m.kicked || m.t.aborted then None
      else Some(m.(t := BrkTrap(p, m.t, time), kicked := true, marks := m.marks + [Start]))
    case Cpu(info) => DoCpu(p, prog, m, info)
    case Step(time) =>
      if !m.trapPending then None
      else Some(m.(t := BrkTrap(p, m.t, time), trapPending := false, marks := m.marks + [Trap]))
    case Expire =>
      if m.t.timer == 0 then None else Some(m.(t := m.t.(timer := 0), pending := true))
    case Alarm =>
      if !m.pending then None else Some(m.(t := SigAlrm(p, m.t), pending := false))
  }

  /** The machine after a sequence of events; None when one of them cannot happen. */
  function Run(p: Params, prog: Program, m: Machine, es: seq<Event>): Option<Machine>
    requires p.period > 0
  {
    if es == [] then Some(m)
    else
      var n :- Run(p, prog, m, es[..|es| - 1]);
      Do(p, prog, n, es[|es| - 1])
  }

  /**
  What the monitor relies on: no breakpoints of the program's own, every
  instruction that can raise an event is a floating-point instruction, and on
  arm64 those fall through to a next instruction.
  */
  ghost predicate ProgramOk(p: Params, prog: Program) {
    && |prog.text| < Modulus
    && (p.arch.Arm64? ==> forall i :: 0 <= i < |prog.text| ==> prog.text[i] != BRK_INSTR)
    && (forall w: bv32, pc: Word, d: Data, r: bv32 :: prog.exec(w, pc, d, r).events != 0 ==> prog.isFp(w))
    && (forall w: bv32, pc: Word, d: Data, r: bv32 :: prog.isFp(w) ==> !prog.exec(w, pc, d, r).fenv)
    && (p.arch.Arm64? ==> forall w: bv32, pc: Word, d: Data, r: bv32 :: prog.isFp(w) ==> prog.exec(w, pc, d, r).next == (pc + 1) % Modulus)
    && (p.arch.Arm64? ==> forall i :: 0 <= i < |prog.text| && prog.isFp(prog.text[i]) ==> i + 1 < |prog.text|)
  }

  /**
  The machine when bringup_monitoring_context() has returned. Where rounding is
  controlled, config_round_daz_ftz() has read the thread's own field before.
  */
  ghost predicate Initial(p: Params, prog: Program, m: Machine, seed: Word) {
    && m.t.state == INIT && !m.t.abortingInTrap && m.t.count == 0 && m.t.trapMode == 0 && !m.t.aborted
    && (m.t.sampler, m.t.timer) == InitSampler(p, seed, 0)
    && m.t.origRound == OrigRound(p, m.t.uc) && m.t.pushed == [] && m.marks == [] && !m.trapPending && !m.pending && !m.kicked
    && m.t.uc.text == prog.text && Enabled(p.arch, m.t.uc) == 0 && (p.arch.X64? ==> !SingleStep(m.t.uc))
  }

  // -- the handlers, seen through the state the machine depends on ----------

  /** Text, breakpoint and single-step bit; `at` is the instruction that faulted last. */
  predicate CodeOk(p: Params, text: seq<bv32>, t: Thread, at: Word) {
    if t.state.AWAIT_TRAP? then
      && (p.arch.X64? ==> SingleStep(t.uc) && t.uc.text == text)
      && (p.arch.Arm64? ==>
            && at + 1 < |text| && t.uc.text == text[at + 1 := BRK_INSTR]
            && TrapFlag(t.trapMode) == TRAP_MODE_ON && TrapInst(t.trapMode) == text[at + 1])
    else
      && t.uc.text == text
      && (p.arch.X64? ==> !SingleStep(t.uc))
      && (p.arch.Arm64? ==> TrapFlag(t.trapMode) == TRAP_MODE_INIT || TrapFlag(t.trapMode) == TRAP_MODE_OFF)
  }

  predicate MaskOk(p: Params, t: Thread) {
    && OnlyHandled(p.arch, p.handled, t.uc)
    && (!t.state.AWAIT_FPE? || !t.sampler.on ==> Enabled(p.arch, t.uc) == 0)
  }

  predicate SamplerOk(p: Params, t: Thread) {
    && (t.state.AWAIT_TRAP? || t.state.INIT? ==> t.sampler.on)
    && (!p.timers ==> t.sampler.on && !t.sampler.delayed && t.timer == 0)
  }

  predicate Safe(p: Params, text: seq<bv32>, t: Thread, at: Word) {
    CodeOk(p, text, t, at) && MaskOk(p, t) && SamplerOk(p, t)
  }

  /** No breakpoint, no single stepping. */
  predicate Plain(p: Params, text: seq<bv32>, t: Thread) {
    && t.uc.text == text
    && (p.arch.X64? ==> !SingleStep(t.uc))
    && (p.arch.Arm64? ==> TrapFlag(t.trapMode) == TRAP_MODE_OFF)
  }

  lemma PlainCode(p: Params, text: seq<bv32>, t: Thread, at: Word)
    requires Plain(p, text, t) && !t.state.AWAIT_TRAP?
    ensures CodeOk(p, text, t, at)
  {}

  lemma QuietEffect(p: Params, u: Ucontext)
    requires ParamsOk(p) && OnlyHandled(p.arch, p.handled, u)
    ensures var v := Quiet(p, u);
      && SameCode(u, v) && Enabled(p.arch, v) == 0 && GetRound(p.arch, v) == GetRound(p.arch, u)
      && OnlyHandled(p.arch, p.handled, v)
  {
    hide Enabled, GetRound, ClearExceptions, MaskTraps, HandledOk, HandledEvents;
    ClearEffect(p.arch, p.handled, u);
    MaskHandled(p.arch, p.handled, ClearExceptions(p.arch, p.handled, u));
  }

  lemma ListenEffect(p: Params, u: Ucontext)
    requires ParamsOk(p) && OnlyHandled(p.arch, p.handled, u)
    ensures var v := Listen(p, u);
      && SameCode(u, v) && Enabled(p.arch, v) == HandledEvents(p.arch, p.handled)
      && GetRound(p.arch, v) == GetRound(p.arch, u) && OnlyHandled(p.arch, p.handled, v)
  {
    hide Enabled, GetRound, ClearExceptions, UnmaskTraps, HandledOk, HandledEvents;
    ClearEffect(p.arch, p.handled, u);
    UnmaskHandled(p.arch, p.handled, ClearExceptions(p.arch, p.handled, u));
  }

  predicate RoundConfig(p: Params, config: bv32) {
    config & !RoundMask(p.arch) == 0
  }

  lemma GotRound(p: Params, u: Ucontext)
    ensures RoundConfig(p, GetRound(p.arch, u))
  {}

  lemma RoundedEffect(p: Params, u: Ucontext, config: bv32)
    requires RoundConfig(p, config)
    ensures var v := Rounded(p, u, config);
      && SameCode(u, v) && Enabled(p.arch, v) == Enabled(p.arch, u)
      && (OnlyHandled(p.arch, p.handled, u) ==> OnlyHandled(p.arch, p.handled, v))
      && GetRound(p.arch, v) == if p.controlRound && p.arch.X64? then config else GetRound(p.arch, u)
  {
    hide Enabled, GetRound, HandledEvents, SetRound;
    SetRoundEffect(p.arch, u, config);
  }

  /** The breakpoint is taken out exactly where it was put in. */
  lemma ResetEffect(p: Params, text: seq<bv32>, t: Thread, at: Word)
    requires CodeOk(p, text, t, at) && (p.arch.Arm64? && t.state.AWAIT_TRAP? ==> t.uc.pc == at + 1)
    ensures var t1 := ResetTrap(p, t);
      && Plain(p, text, t1) && t1 == t.(uc := t1.uc, trapMode := t1.trapMode)
      && t1.uc.pc == t.uc.pc && t1.uc.control == t.uc.control && t1.uc.status == t.uc.status
  {
    hide TrapFlag, TrapInst, SingleStep, ResetTrapMode;
    ResetTrapEffect(p.arch, t.uc, t.trapMode);
    if p.arch.Arm64? && t.state.AWAIT_TRAP? {
      assert text[at + 1 := BRK_INSTR][at + 1 := text[at + 1]] == text;
    }
  }

  lemma SameControl(p: Params, u: Ucontext, v: Ucontext)
    requires u.control == v.control
    ensures Enabled(p.arch, u) == Enabled(p.arch, v) && GetRound(p.arch, u) == GetRound(p.arch, v)
    ensures OnlyHandled(p.arch, p.handled, u) == OnlyHandled(p.arch, p.handled, v)
  {}

  lemma SameCodeOk(p: Params, text: seq<bv32>, t: Thread, t1: Thread, at: Word)
    requires CodeOk(p, text, t, at) && SameCode(t.uc, t1.uc)
    requires t1.state.AWAIT_TRAP? == t.state.AWAIT_TRAP? && t1.trapMode == t.trapMode
    ensures CodeOk(p, text, t1, at)
  {}

  lemma TimerSet(timer: nat, n: nat)
    ensures SetTimer(timer, n / 1_000_000, n % 1_000_000) == n
  {}

  /** The sampler is switched: it listens if it is on now and to nothing otherwise, and the next switch is due. */
  predicate Switched(p: Params, t: Thread, t1: Thread) {
    && t1.sampler.on == !t.sampler.on && !t1.sampler.delayed && t1.timer > 0
    && Enabled(p.arch, t1.uc) == if t1.sampler.on then HandledEvents(p.arch, p.handled) else 0
  }

  /** What the sampler does to a thread that is between two instructions. */
  lemma UpdateKeeps(p: Params, text: seq<bv32>, t: Thread, at: Word)
    requires ParamsOk(p) && p.timers && CodeOk(p, text, t, at) && OnlyHandled(p.arch, p.handled, t.uc)
    requires t.state.AWAIT_FPE?
    ensures var t1 := UpdateSampler(p, t);
      && Safe(p, text, t1, at)
      && t1 == t.(uc := t1.uc, trapMode := t1.trapMode, sampler := t1.sampler, timer := t1.timer)
      && t1.uc.pc == t.uc.pc && GetRound(p.arch, t1.uc) == GetRound(p.arch, t.uc)
      && Switched(p, t, t1)
  {
    hide Quiet, Listen, Enabled, GetRound, OnlyHandled, ResetTrap, NextExp, SetTimer, CodeOk, HandledEvents;
    QuietEffect(p, t.uc);
    ListenEffect(p, t.uc);
    var t0 := t.(uc := if t.sampler.on then Quiet(p, t.uc) else Listen(p, t.uc));
    SameCodeOk(p, text, t, t0, at);
    ResetEffect(p, text, t0, at);
    var t1 := ResetTrap(p, t0);
    SameControl(p, t0.uc, t1.uc);
    var n := Interval(p, t.sampler.on, NextExp(p, t.sampler.xi, if t.sampler.on then p.offMean else p.onMean).1);
    TimerSet(t.timer, n);
    PlainCode(p, text, UpdateSampler(p, t), at);
  }

  /** Everything off, as on an abort. */
  lemma RestoreKeeps(p: Params, text: seq<bv32>, t: Thread, at: Word)
    requires ParamsOk(p) && CodeOk(p, text, t, at) && OnlyHandled(p.arch, p.handled, t.uc) && RoundConfig(p, t.origRound)
    requires !t.state.AWAIT_TRAP?
    ensures var t1 := Restore(p, t);
      && CodeOk(p, text, t1, at) && OnlyHandled(p.arch, p.handled, t1.uc) && Enabled(p.arch, t1.uc) == 0
      && t1 == t.(uc := t1.uc, trapMode := t1.trapMode) && t1.uc.pc == t.uc.pc
      && GetRound(p.arch, t1.uc) == if p.controlRound && p.arch.X64? then t.origRound else GetRound(p.arch, t.uc)
  {
    hide Quiet, Rounded, Enabled, GetRound, OnlyHandled, ResetTrap, CodeOk, RoundConfig;
    QuietEffect(p, t.uc);
    RoundedEffect(p, Quiet(p, t.uc), t.origRound);
    var t0 := t.(uc := Rounded(p, Quiet(p, t.uc), t.origRound));
    SameCodeOk(p, text, t, t0, at);
    ResetEffect(p, text, t0, at);
    SameControl(p, t0.uc, ResetTrap(p, t0).uc);
    PlainCode(p, text, ResetTrap(p, t0), at);
  }

  /** The target touches its floating-point environment: the monitor gets out of the way. */
  lemma FenvKeeps(p: Params, text: seq<bv32>, t: Thread, time: Word, at: Word)
    requires ParamsOk(p) && Safe(p, text, t, at) && RoundConfig(p, t.origRound)
    requires !t.state.AWAIT_TRAP? && !t.abortingInTrap && t.aborted == t.state.ABORT?
    ensures var t1 := FenvCall(p, t, time);
      && Safe(p, text, t1, at) && t1.state.ABORT? && t1.aborted && !t1.abortingInTrap
      && t1.uc.pc == t.uc.pc && t1.count == t.count && t1.sampler == t.sampler && t1.timer == t.timer
      && t1.origRound == t.origRound
      && t1.pushed == t.pushed + (if t.aborted || !p.createFile then [] else [AbortRecord(time)])
      && GetRound(p.arch, t1.uc) ==
           if p.controlRound && p.arch.X64? && !t.aborted then t.origRound else GetRound(p.arch, t.uc)
  {
    hide DisableAll, Restore, Enabled, GetRound, OnlyHandled, CodeOk, RoundConfig;
    if !t.aborted {
      DisableEffect(p.arch, p.handled, t.uc);
      var t0 := t.(uc := DisableAll(p.arch, t.uc));
      var t1 := Push(p, t0.(state := ABORT), AbortRecord(time));
      SameCodeOk(p, text, t, t1, at);
      RestoreKeeps(p, text, t1, at);
      SameCodeOk(p, text, Restore(p, t1), FenvCall(p, t, time), at);
    }
  }

  /** The deferred start of a thread. */
  lemma KickKeeps(p: Params, text: seq<bv32>, t: Thread, time: Word, at: Word)
    requires ParamsOk(p) && Safe(p, text, t, at) && t.state.INIT?
    ensures var t1 := BrkTrap(p, t, time);
      && Safe(p, text, t1, at) && t1.state.AWAIT_FPE? && Enabled(p.arch, t1.uc) == HandledEvents(p.arch, p.handled)
      && t1.origRound == GetRound(p.arch, t.uc) && RoundConfig(p, t1.origRound)
      && t1 == t.(state := AWAIT_FPE, uc := t1.uc, trapMode := t1.trapMode, origRound := t1.origRound)
      && t1.uc.pc == t.uc.pc
      && GetRound(p.arch, t1.uc) == if p.controlRound && p.arch.X64? then p.ourRound else GetRound(p.arch, t.uc)
  {
    hide Listen, Rounded, Enabled, GetRound, OnlyHandled, ResetTrap, CodeOk, HandledEvents;
    ListenEffect(p, t.uc);
    GotRound(p, t.uc);
    RoundedEffect(p, Listen(p, t.uc), p.ourRound);
    var t0 := t.(origRound := GetRound(p.arch, t.uc), uc := Rounded(p, Listen(p, t.uc), p.ourRound));
    SameCodeOk(p, text, t, t0, at);
    ResetEffect(p, text, t0, at);
    SameControl(p, t0.uc, ResetTrap(p, t0).uc);
    PlainCode(p, text, ResetTrap(p, t0).(state := AWAIT_FPE), at);
  }

  /** A fault in AWAIT_FPE: mask, and stop after the instruction. */
  lemma FaultKeeps(p: Params, text: seq<bv32>, t: Thread, info: Info, at: Word)
    requires ParamsOk(p) && Safe(p, text, t, at) && t.state.AWAIT_FPE? && t.sampler.on
    requires p.arch.Arm64? ==> t.uc.pc + 1 < |text|
    ensures var t1 := FpTrap(p, t, info);
      && Safe(p, text, t1, t.uc.pc) && t1.state.AWAIT_TRAP? && t1.uc.pc == t.uc.pc
      && t1 == t.(state := AWAIT_TRAP, uc := t1.uc, trapMode := t1.trapMode, pushed := t1.pushed)
      && t1.pushed == t.pushed + (if t.count % p.period == 0 && p.createFile then [FaultRecord(p, t.uc, info)] else [])
      && GetRound(p.arch, t1.uc) == if p.controlRound && p.arch.X64? then p.ourRound else GetRound(p.arch, t.uc)
  {
    hide Quiet, Rounded, Enabled, GetRound, OnlyHandled, SetTrapMode, TrapFlag, TrapInst, SingleStep, HandledOk, FaultRecord;
    QuietEffect(p, t.uc);
    RoundedEffect(p, Quiet(p, t.uc), p.ourRound) by { hide *; }
    var u := Rounded(p, Quiet(p, t.uc), p.ourRound);
    SetTrapEffect(p.arch, u);
    SameControl(p, u, SetTrapMode(p.arch, u).0);
  }

  lemma RearmedEffect(p: Params, t: Thread)
    requires ParamsOk(p) && OnlyHandled(p.arch, p.handled, t.uc) && RoundConfig(p, t.origRound)
    ensures var v := Rearmed(p, t);
      && SameCode(t.uc, v) && OnlyHandled(p.arch, p.handled, v)
      && Enabled(p.arch, v) == (if Enough(p, t.count + 1) then 0 else HandledEvents(p.arch, p.handled))
      && GetRound(p.arch, v) ==
           if p.controlRound && p.arch.X64? then (if Enough(p, t.count + 1) then t.origRound else p.ourRound)
           else GetRound(p.arch, t.uc)
  {
    assert RoundConfig(p, p.ourRound);
    hide Quiet, Listen, Rounded, Enabled, GetRound, OnlyHandled, HandledEvents, Enough, RoundConfig, HandledOk;
    if Enough(p, t.count + 1) {
      QuietEffect(p, t.uc);
      RoundedEffect(p, Quiet(p, t.uc), t.origRound);
    } else {
      ListenEffect(p, t.uc);
      RoundedEffect(p, Listen(p, t.uc), p.ourRound);
    }
  }

  lemma ResumeKeeps(p: Params, text: seq<bv32>, t: Thread, at: Word)
    requires ParamsOk(p) && Safe(p, text, t, at) && t.state.AWAIT_TRAP? && RoundConfig(p, t.origRound)
    requires p.arch.Arm64? ==> t.uc.pc == at + 1
    ensures var t1 := Resume(p, t);
      && Safe(p, text, t1, at) && t1.state.AWAIT_FPE? && t1.uc.pc == t.uc.pc
      && t1 == t.(state := AWAIT_FPE, count := t.count + 1, uc := t1.uc, trapMode := t1.trapMode)
      && Enabled(p.arch, t1.uc) == (if Enough(p, t1.count) then 0 else HandledEvents(p.arch, p.handled))
      && GetRound(p.arch, t1.uc) ==
           if p.controlRound && p.arch.X64? then (if Enough(p, t1.count) then t.origRound else p.ourRound)
           else GetRound(p.arch, t.uc)
  {
    hide Rearmed, Enabled, GetRound, OnlyHandled, ResetTrap, CodeOk, HandledEvents, Enough, RoundConfig, HandledOk;
    RearmedEffect(p, t);
    var t2 := t.(count := t.count + 1, uc := Rearmed(p, t));
    SameCodeOk(p, text, t, t2, at);
    ResetEffect(p, text, t2, at);
    SameControl(p, t2.uc, Resume(p, t).uc);
    PlainCode(p, text, Resume(p, t), at);
  }

  /** The trap after the re-executed instruction: back to waiting, or a delayed switch of the sampler. */
  lemma TrapKeeps(p: Params, text: seq<bv32>, t: Thread, time: Word, at: Word)
    requires ParamsOk(p) && Safe(p, text, t, at) && t.state.AWAIT_TRAP? && RoundConfig(p, t.origRound)
    requires p.arch.Arm64? ==> t.uc.pc == at + 1
    ensures var t1 := BrkTrap(p, t, time);
      && Safe(p, text, t1, at) && t1.state.AWAIT_FPE? && t1.uc.pc == t.uc.pc
      && t1 == t.(state := AWAIT_FPE, count := t.count + 1, uc := t1.uc, trapMode := t1.trapMode,
                  sampler := t1.sampler, timer := t1.timer)
      && (t.sampler.delayed ==> Switched(p, t, t1))
      && (!t.sampler.delayed ==> t1.timer == t.timer && t1.sampler == t.sampler)
      && (!t.sampler.delayed ==>
            Enabled(p.arch, t1.uc) == if Enough(p, t1.count) then 0 else HandledEvents(p.arch, p.handled))
      && GetRound(p.arch, t1.uc) ==
           if p.controlRound && p.arch.X64? then (if Enough(p, t1.count) then t.origRound else p.ourRound)
           else GetRound(p.arch, t.uc)
  {
    hide Resume, Enabled, GetRound, OnlyHandled, CodeOk, HandledEvents, UpdateSampler, Enough, RoundConfig;
    ResumeKeeps(p, text, t, at);
    if t.sampler.delayed {
      UpdateKeeps(p, text, Resume(p, t), at);
    }
  }

  lemma AlarmKeeps(p: Params, text: seq<bv32>, t: Thread, at: Word)
    requires ParamsOk(p) && p.timers && Safe(p, text, t, at)
    ensures var t1 := SigAlrm(p, t);
      && Safe(p, text, t1, at)
      && t1 == t.(uc := t1.uc, trapMode := t1.trapMode, sampler := t1.sampler, timer := t1.timer)
      && t1.uc.pc == t.uc.pc && GetRound(p.arch, t1.uc) == GetRound(p.arch, t.uc)
      && (if t.state.AWAIT_FPE? then Switched(p, t, t1)
          else t1.timer == t.timer && t1.sampler == t.sampler.(delayed := true) && t1.uc == t.uc)
  {
    hide Enabled, GetRound, OnlyHandled, CodeOk, UpdateSampler, HandledEvents;
    if t.state.AWAIT_FPE? {
      UpdateKeeps(p, text, t, at);
    } else {
      SameCodeOk(p, text, t, SigAlrm(p, t), at);
    }
  }

  /** Everything masked, the trap off and the thread's rounding bits back. */
  predicate Out(p: Params, text: seq<bv32>, t: Thread, t1: Thread, at: Word) {
    && t1.state.ABORT? && CodeOk(p, text, t1, at) && Enabled(p.arch, t1.uc) == 0 && t1.uc.pc == t.uc.pc
    && GetRound(p.arch, t1.uc) == (if p.controlRound && p.arch.X64? then t.origRound else GetRound(p.arch, t.uc))
    && t1.count == t.count && t1.sampler == t.sampler && t1.timer == t.timer
  }

  /** A trap that finds the thread aborted takes everything off; so does one that comes while waiting for a fault, and adds one abort record. */
  lemma TrapGetsOut(p: Params, text: seq<bv32>, t: Thread, time: Word, at: Word)
    requires ParamsOk(p) && CodeOk(p, text, t, at) && OnlyHandled(p.arch, p.handled, t.uc) && RoundConfig(p, t.origRound)
    ensures t.state.ABORT? ==> Out(p, text, t, BrkTrap(p, t, time), at) && BrkTrap(p, t, time).pushed == t.pushed
    ensures t.state.AWAIT_FPE? && !t.aborted ==>
      var t1 := BrkTrap(p, t, time);
      && Out(p, text, t, t1, at) && t1.aborted && t1.pushed == t.pushed + if p.createFile then [AbortRecord(time)] else []
  {
    hide Restore, Enabled, GetRound, OnlyHandled, CodeOk, RoundConfig;
    if t.state.ABORT? || t.state.AWAIT_FPE? {
      RestoreKeeps(p, text, t, at);
      if t.state.AWAIT_FPE? && !t.aborted {
        SameCodeOk(p, text, Restore(p, t), BrkTrap(p, t, time), at);
      }
    }
  }

  /** A fault that comes before the start does the same, after the record of the fault if that has its turn. */
  lemma FaultGetsOut(p: Params, text: seq<bv32>, t: Thread, info: Info, at: Word)
    requires ParamsOk(p) && CodeOk(p, text, t, at) && OnlyHandled(p.arch, p.handled, t.uc) && RoundConfig(p, t.origRound)
    requires t.state.INIT? && !t.aborted && !t.abortingInTrap
    ensures var t1 := FpTrap(p, t, info);
      && Out(p, text, t, t1, at) && t1.aborted
      && t1.pushed == t.pushed
           + (if t.count % p.period == 0 && p.createFile then [FaultRecord(p, t.uc, info)] else [])
           + (if p.createFile then [AbortRecord(info.time)] else [])
  {
    hide Restore, Enabled, GetRound, OnlyHandled, CodeOk, RoundConfig, FaultRecord;
    var t0 := if t.count % p.period == 0 then Push(p, t, FaultRecord(p, t.uc, info)) else t;
    SameCodeOk(p, text, t, t0, at);
    RestoreKeeps(p, text, t0, at);
    var t1 := Push(p, Restore(p, t0).(state := ABORT), AbortRecord(info.time));
    SameCodeOk(p, text, Restore(p, t0), t1, at);
    assert OnlyHandled(p.arch, p.handled, t1.uc) && !t1.abortingInTrap;
    RestoreKeeps(p, text, t1, at);
    SameCodeOk(p, text, Restore(p, t1), FpTrap(p, t, info), at);
  }
}
