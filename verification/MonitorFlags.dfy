/**
The sticky exception flags: the handlers clear them so that a record shows the
exceptions of its own instruction and no older ones.
*/
module MonitorFlags {
  import opened Lcg
  import opened Trace
  import opened FpControl
  import opened Monitor
  import opened MonitorMachine
  import opened MonitorRuns
  import opened Options

  /** The flags of handled exceptions that are set. */
  function HandledFlags(p: Params, u: Ucontext): bv32 {
    if p.arch.X64? then u.control & p.handled else u.status & StatusField(p.handled)
  }

  /** Nothing can fault, or exactly the handled exceptions can and none of them is flagged. */
  predicate FlagsOk(p: Params, u: Ucontext) {
    Enabled(p.arch, u) == 0 || (Enabled(p.arch, u) == HandledEvents(p.arch, p.handled) && HandledFlags(p, u) == 0)
  }

  lemma ClearBits(c: bv32, h: bv32)
    ensures (c & !h) & h == 0
  {}

  lemma UnmaskBits(c: bv32, h: bv32)
    requires h & !0x3f == 0 && c & h == 0
    ensures (c & !(h << 7)) & h == 0
  {}

  lemma RoundBits(c: bv32, h: bv32, r: bv32)
    requires h & !0x3f == 0 && r & !0xe040 == 0
    ensures ((c & !0xe040) | r) & h == c & h
  {}

  lemma RaiseBits(c: bv32, h: bv32, e: bv32)
    requires h & !0x3f == 0 && c & h == 0
    ensures (c | (e & 0x3f)) & h == e & h
  {}

  lemma RaiseBitsArm64(c: bv32, h: bv32, e: bv32)
    requires h & !0x9f00 == 0 && c & (h >> 8) == 0 && e & (h >> 8) == 0
    ensures (c | (e & 0x9f)) & (h >> 8) == 0
  {}

  lemma ListenClears(p: Params, u: Ucontext)
    requires ParamsOk(p)
    ensures HandledFlags(p, Listen(p, u)) == 0
  {
    var v := ClearExceptions(p.arch, p.handled, u);
    if p.arch.X64? {
      ClearBits(u.control, p.handled);
      UnmaskBits(v.control, p.handled);
    } else {
      hide StatusField;
      ClearBits(u.status, StatusField(p.handled));
    }
  }

  lemma RoundedFlags(p: Params, u: Ucontext, config: bv32)
    requires ParamsOk(p) && RoundConfig(p, config)
    ensures HandledFlags(p, Rounded(p, u, config)) == HandledFlags(p, u)
  {
    hide StatusField;
    if p.arch.X64? && p.controlRound {
      RoundBits(u.control, p.handled, config);
    }
  }

  lemma SameFlags(p: Params, u: Ucontext, v: Ucontext)
    requires v.control == u.control && v.status == u.status
    ensures FlagsOk(p, u) == FlagsOk(p, v)
  {
    SameControl(p, u, v);
    SameHandled(p, u, v);
    hide Enabled, HandledEvents, HandledFlags, OnlyHandled, GetRound;
  }

  lemma SameHandled(p: Params, u: Ucontext, v: Ucontext)
    requires v.control == u.control && v.status == u.status
    ensures HandledFlags(p, u) == HandledFlags(p, v)
  {
    hide StatusField;
  }

  lemma FlagsFrom(p: Params, v: Ucontext)
    requires Enabled(p.arch, v) == 0 || (Enabled(p.arch, v) == HandledEvents(p.arch, p.handled) && HandledFlags(p, v) == 0)
    ensures FlagsOk(p, v)
  {
    hide Enabled, HandledEvents, HandledFlags;
  }

  /** Listening with the rounding bits set, or quiet. */
  lemma ArmedOk(p: Params, u: Ucontext, config: bv32)
    requires ParamsOk(p) && OnlyHandled(p.arch, p.handled, u) && RoundConfig(p, config)
    ensures FlagsOk(p, Listen(p, u)) && FlagsOk(p, Rounded(p, Listen(p, u), config))
    ensures FlagsOk(p, Quiet(p, u)) && FlagsOk(p, Rounded(p, Quiet(p, u), config))
  {
    hide Enabled, HandledEvents, HandledFlags, Listen, Quiet, Rounded, OnlyHandled, GetRound, RoundConfig, HandledOk, FlagsOk;
    ListenEffect(p, u);
    QuietEffect(p, u);
    ListenClears(p, u);
    RoundedFlags(p, Listen(p, u), config);
    RoundedEffect(p, Listen(p, u), config);
    RoundedEffect(p, Quiet(p, u), config);
    FlagsFrom(p, Listen(p, u));
    FlagsFrom(p, Rounded(p, Listen(p, u), config));
    FlagsFrom(p, Quiet(p, u));
    FlagsFrom(p, Rounded(p, Quiet(p, u), config));
  }

  /** Taking out or putting in a breakpoint leaves the control registers alone. */
  lemma TrapFlags(p: Params, u: Ucontext, state: bv64)
    requires FlagsOk(p, u)
    ensures FlagsOk(p, ResetTrapMode(p.arch, u, state).0) && FlagsOk(p, SetTrapMode(p.arch, u).0)
  {
    TrapControl(p, u, state);
    hide FlagsOk, ResetTrapMode, SetTrapMode;
    SameFlags(p, u, ResetTrapMode(p.arch, u, state).0);
    SameFlags(p, u, SetTrapMode(p.arch, u).0);
  }

  lemma TrapControl(p: Params, u: Ucontext, state: bv64)
    ensures var v := ResetTrapMode(p.arch, u, state).0; v.control == u.control && v.status == u.status
    ensures var v := SetTrapMode(p.arch, u).0; v.control == u.control && v.status == u.status
  {
    hide TrapFlag, TrapInst, EncodeTrap;
  }

  lemma RestoreOk(p: Params, t: Thread)
    requires ParamsOk(p) && OnlyHandled(p.arch, p.handled, t.uc) && RoundConfig(p, t.origRound)
    ensures FlagsOk(p, Restore(p, t).uc)
  {
    hide FlagsOk, Quiet, Rounded, ResetTrapMode, OnlyHandled, RoundConfig, HandledOk;
    ArmedOk(p, t.uc, t.origRound);
    TrapFlags(p, Rounded(p, Quiet(p, t.uc), t.origRound), t.trapMode);
  }

  lemma UpdateOk(p: Params, t: Thread)
    requires ParamsOk(p) && OnlyHandled(p.arch, p.handled, t.uc) && RoundConfig(p, t.origRound)
    ensures FlagsOk(p, UpdateSampler(p, t).uc)
  {
    hide FlagsOk, Quiet, Listen, ResetTrapMode, OnlyHandled, RoundConfig, NextExp, SetTimer, HandledOk;
    ArmedOk(p, t.uc, t.origRound);
    TrapFlags(p, if t.sampler.on then Quiet(p, t.uc) else Listen(p, t.uc), t.trapMode);
  }

  lemma StartingOk(p: Params, t: Thread)
    requires ParamsOk(p) && OnlyHandled(p.arch, p.handled, t.uc)
    ensures FlagsOk(p, Starting(p, t).uc)
  {
    assert RoundConfig(p, p.ourRound);
    hide FlagsOk, Listen, Rounded, ResetTrapMode, OnlyHandled, RoundConfig, GetRound, HandledOk;
    ArmedOk(p, t.uc, p.ourRound);
    TrapFlags(p, Rounded(p, Listen(p, t.uc), p.ourRound), t.trapMode);
  }

  lemma ResumeOk(p: Params, t: Thread)
    requires ParamsOk(p) && OnlyHandled(p.arch, p.handled, t.uc) && RoundConfig(p, t.origRound)
    ensures FlagsOk(p, Resume(p, t).uc)
  {
    assert RoundConfig(p, p.ourRound);
    hide FlagsOk, Listen, Quiet, Rounded, ResetTrapMode, OnlyHandled, RoundConfig, Enough, HandledOk;
    ArmedOk(p, t.uc, p.ourRound);
    ArmedOk(p, t.uc, t.origRound);
    TrapFlags(p, Rearmed(p, t), t.trapMode);
  }

  /** After the trap handler, in the states a run can be in. */
  lemma BrkTrapOk(p: Params, text: seq<bv32>, t: Thread, time: Word, at: Word)
    requires ParamsOk(p) && Safe(p, text, t, at) && RoundConfig(p, t.origRound) && !t.state.AWAIT_FPE?
    requires t.state.AWAIT_TRAP? && p.arch.Arm64? ==> t.uc.pc == at + 1
    ensures FlagsOk(p, BrkTrap(p, t, time).uc)
  {
    if t.state.AWAIT_TRAP? {
      ResumeKeeps(p, text, t, at);
    }
    hide FlagsOk, OnlyHandled, RoundConfig, CodeOk, Restore, Starting, Resume, UpdateSampler, HandledOk;
    match t.state
    case ABORT => RestoreOk(p, t);
    case INIT => StartingOk(p, t);
    case AWAIT_TRAP =>
      ResumeOk(p, t);
      if t.sampler.delayed {
        UpdateOk(p, Resume(p, t));
      }
  }

  lemma FpTrapOk(p: Params, t: Thread, info: Info)
    requires ParamsOk(p) && OnlyHandled(p.arch, p.handled, t.uc) && t.state.AWAIT_FPE?
    ensures FlagsOk(p, FpTrap(p, t, info).uc)
  {
    assert RoundConfig(p, p.ourRound);
    hide FlagsOk, Quiet, Rounded, SetTrapMode, OnlyHandled, RoundConfig, FaultRecord, HandledOk;
    ArmedOk(p, t.uc, p.ourRound);
    TrapFlags(p, Rounded(p, Quiet(p, t.uc), p.ourRound), t.trapMode);
  }

  /** An instruction that does not fault flags no handled exception that could. */
  lemma RetiredFlags(p: Params, u: Ucontext, events: bv32, pc: Word)
    requires ParamsOk(p) && FlagsOk(p, u) && !Faults(p.arch, u, events)
    ensures FlagsOk(p, RaiseFlags(p.arch, u, events).(pc := pc))
  {
    FlagsEffect(p.arch, u, events);
    var v := RaiseFlags(p.arch, u, events);
    if Enabled(p.arch, u) != 0 {
      RaisedNone(p, u, events);
    }
    hide Enabled, RaiseFlags, HandledEvents, HandledFlags;
    assert FlagsOk(p, v);
    hide FlagsOk;
    SameFlags(p, v, v.(pc := pc));
  }

  lemma RaisedNone(p: Params, u: Ucontext, events: bv32)
    requires ParamsOk(p) && HandledFlags(p, u) == 0 && events & HandledEvents(p.arch, p.handled) == 0
    ensures HandledFlags(p, RaiseFlags(p.arch, u, events)) == 0
  {
    if p.arch.X64? {
      RaiseBits(u.control, p.handled, events);
    } else {
      RaiseBitsArm64(u.status, p.handled, events);
    }
  }

  lemma FenvOk(p: Params, t: Thread, time: Word)
    requires ParamsOk(p) && OnlyHandled(p.arch, p.handled, t.uc) && RoundConfig(p, t.origRound)
    requires FlagsOk(p, t.uc) && !t.abortingInTrap
    ensures FlagsOk(p, FenvCall(p, t, time).uc)
  {
    if !t.aborted {
      DisableEffect(p.arch, p.handled, t.uc);
      hide FlagsOk, OnlyHandled, RoundConfig, Restore, DisableAll, Enabled, GetRound, HandledOk;
      RestoreOk(p, Push(p, t.(state := ABORT, uc := DisableAll(p.arch, t.uc)), AbortRecord(time)));
    }
  }

  lemma {:induction false} StepFlags(p: Params, prog: Program, m: Machine, e: Event)
    requires ParamsOk(p) && ProgramOk(p, prog) && Good(p, prog, m) && FlagsOk(p, m.t.uc) && Do(p, prog, m, e).Some?
    ensures FlagsOk(p, Do(p, prog, m, e).value.t.uc)
  {
    match e
    case Kick(time) => KickFlags(p, prog, m, time);
    case Cpu(info) => CpuFlags(p, prog, m, info);
    case Step(time) => TrapStepFlags(p, prog, m, time);
    case Expire =>
      hide FlagsOk, Good, ProgramOk, ParamsOk;
    case Alarm => AlarmFlags(p, prog, m);
  }

  lemma KickFlags(p: Params, prog: Program, m: Machine, time: Word)
    requires ParamsOk(p) && Good(p, prog, m) && !m.kicked && !m.t.aborted
    ensures FlagsOk(p, BrkTrap(p, m.t, time).uc)
  {
    hide FlagsOk, Safe, Window, LastFault, RoundConfig, ParamsOk, BrkTrap;
    BrkTrapOk(p, prog.text, m.t, time, At(m));
  }

  lemma TrapStepFlags(p: Params, prog: Program, m: Machine, time: Word)
    requires ParamsOk(p) && Good(p, prog, m) && m.trapPending
    ensures FlagsOk(p, BrkTrap(p, m.t, time).uc)
  {
    hide FlagsOk, Safe, LastFault, RoundConfig, ParamsOk, BrkTrap;
    BrkTrapOk(p, prog.text, m.t, time, At(m));
  }

  lemma AlarmFlags(p: Params, prog: Program, m: Machine)
    requires ParamsOk(p) && Good(p, prog, m) && FlagsOk(p, m.t.uc)
    ensures FlagsOk(p, SigAlrm(p, m.t).uc)
  {
    hide FlagsOk, CodeOk, SamplerOk, Window, LastFault, RoundConfig, ParamsOk, UpdateSampler, OnlyHandled;
    if m.t.state.AWAIT_FPE? {
      UpdateOk(p, m.t);
    }
  }

  lemma CpuFlags(p: Params, prog: Program, m: Machine, info: Info)
    requires ParamsOk(p) && ProgramOk(p, prog) && Good(p, prog, m) && FlagsOk(p, m.t.uc) && Do(p, prog, m, Cpu(info)).Some?
    ensures FlagsOk(p, Do(p, prog, m, Cpu(info)).value.t.uc)
  {
    var n := Do(p, prog, m, Cpu(info)).value;
    Fetch(p, prog, m);
    hide FlagsOk, FpTrap, BrkTrap, FenvCall, FaultFlags, RaiseFlags, GetRound, SingleStep, FaultRecord, Faults, ProgramOk, Safe,
      LastFault, RoundConfig;
    var u := m.t.uc;
    if p.arch.Arm64? && u.text[u.pc] == BRK_INSTR {
      BrkTrapOk(p, prog.text, m.t, info.time, At(m));
    } else {
      var w := u.text[u.pc];
      var o := prog.exec(w, u.pc, m.data, GetRound(p.arch, u));
      if Faults(p.arch, u, o.events) {
        FaultMeansListening(p, prog, m, o.events);
        FaultFlagsOk(p, prog, m, o.events, info);
      } else {
        RetireFlagsOk(p, prog, m, o, info.time);
      }
    }
  }

  lemma FaultFlagsOk(p: Params, prog: Program, m: Machine, events: bv32, info: Info)
    requires ParamsOk(p) && Good(p, prog, m) && m.t.state.AWAIT_FPE?
    ensures FlagsOk(p, FpTrap(p, m.t.(uc := FaultFlags(p.arch, m.t.uc, events)), info).uc)
  {
    var t1 := m.t.(uc := FaultFlags(p.arch, m.t.uc, events));
    hide FlagsOk, FpTrap, FaultFlags, CodeOk, SamplerOk, Window, Flags, LastFault, OnlyHandled;
    RaisedSafe(p, prog.text, m.t, t1, events, At(m));
    FpTrapOk(p, t1, info);
  }

  lemma RetireFlagsOk(p: Params, prog: Program, m: Machine, o: Outcome, time: Word)
    requires ParamsOk(p) && Good(p, prog, m) && FlagsOk(p, m.t.uc) && !Faults(p.arch, m.t.uc, o.events)
    ensures var t1 := m.t.(uc := RaiseFlags(p.arch, m.t.uc, o.events).(pc := o.next));
      FlagsOk(p, t1.uc) && FlagsOk(p, FenvCall(p, t1, time).uc)
  {
    var t1 := m.t.(uc := RaiseFlags(p.arch, m.t.uc, o.events).(pc := o.next));
    hide FlagsOk, FenvCall, RaiseFlags, CodeOk, SamplerOk, Window, LastFault, OnlyHandled, Faults, RoundConfig, ParamsOk;
    RaisedSafe(p, prog.text, m.t, t1, o.events, At(m));
    RetiredFlags(p, m.t.uc, o.events, o.next);
    FenvOk(p, t1, time);
  }

  lemma {:induction false} RunFlags(p: Params, prog: Program, m: Machine, seed: Word, es: seq<Event>)
    requires ParamsOk(p) && ProgramOk(p, prog) && Initial(p, prog, m, seed) && Run(p, prog, m, es).Some?
    ensures FlagsOk(p, Run(p, prog, m, es).value.t.uc)
  {
    hide Good, ProgramOk, Do, FlagsOk, Enabled;
    if es == [] {
      QuietFlags(p, m.t.uc);
    } else {
      RunFlags(p, prog, m, seed, es[..|es| - 1]);
      RunGood(p, prog, m, seed, es[..|es| - 1]);
      StepFlags(p, prog, Run(p, prog, m, es[..|es| - 1]).value, es[|es| - 1]);
    }
  }

  lemma QuietFlags(p: Params, u: Ucontext)
    requires Enabled(p.arch, u) == 0
    ensures FlagsOk(p, u)
  {}

  /**
  The control register a fault is recorded with shows the exceptions of its own
  instruction: on x64, of the handled ones, exactly those it raised.
  */
  lemma RecordShowsOwnFlags(p: Params, prog: Program, m: Machine, seed: Word, es: seq<Event>, events: bv32)
    requires ParamsOk(p) && ProgramOk(p, prog) && Initial(p, prog, m, seed) && Run(p, prog, m, es).Some?
    requires p.arch.X64? && Faults(p.arch, Run(p, prog, m, es).value.t.uc, events)
    ensures var u := FaultFlags(p.arch, Run(p, prog, m, es).value.t.uc, events);
      && FpCsr(p.arch, u) & p.handled == events & p.handled && events & p.handled != 0
  {
    RunFlags(p, prog, m, seed, es);
    var u := Run(p, prog, m, es).value.t.uc;
    hide Run, ProgramOk, Initial, FlagsOk, Enabled, HandledEvents, Faults, FaultFlags, ParamsOk;
    OwnFlags(p, u, events);
  }

  lemma OwnFlags(p: Params, u: Ucontext, events: bv32)
    requires ParamsOk(p) && p.arch.X64? && FlagsOk(p, u) && Faults(p.arch, u, events)
    ensures FpCsr(p.arch, FaultFlags(p.arch, u, events)) & p.handled == events & p.handled && events & p.handled != 0
  {
    NoBits(events);
    assert HandledFlags(p, u) == 0;
    RaiseBits(u.control, p.handled, events);
  }
}
