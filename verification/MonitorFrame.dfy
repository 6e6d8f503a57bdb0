/**
What the handlers leave alone: they touch the handled flags and masks, the
rounding field where they may, and the single-step bit.
*/
module MonitorFrame {
  import opened Lcg
  import opened Trace
  import opened FpControl
  import opened Monitor
  import opened MonitorMachine

  /** Bits of the control register that handlers may change. */
  function Touchable(p: Params): bv32 {
    if p.arch.X64? then p.handled | MaskField(p.handled) | (if p.controlRound then 0xe040 else 0) else p.handled
  }

  /** a and b differ in no bit outside m. */
  predicate Within(a: bv32, b: bv32, m: bv32) {
    (a ^ b) & !m == 0
  }

  predicate Within64(a: bv64, b: bv64, m: bv64) {
    (a ^ b) & !m == 0
  }

  predicate Contained(p: Params, u: Ucontext, v: Ucontext) {
    && v.pc == u.pc && Within(u.control, v.control, Touchable(p))
    && (if p.arch.X64? then v.status == u.status && Within64(u.efl, v.efl, 0x100)
        else v.efl == u.efl && Within(u.status, v.status, StatusField(p.handled)))
  }

  predicate Inside(m: bv32, n: bv32) {
    m & !n == 0
  }

  lemma WithinChain(a: bv32, b: bv32, c: bv32, m: bv32)
    requires Within(a, b, m) && Within(b, c, m)
    ensures Within(a, c, m)
  {}

  lemma Within64Chain(a: bv64, b: bv64, c: bv64, m: bv64)
    requires Within64(a, b, m) && Within64(b, c, m)
    ensures Within64(a, c, m)
  {}

  lemma WithinSame(a: bv32, m: bv32)
    ensures Within(a, a, m)
  {}

  lemma Within64Same(a: bv64, m: bv64)
    ensures Within64(a, a, m)
  {}

  lemma WithinClear(a: bv32, m: bv32, n: bv32)
    ensures Within(a, a & !m, m | n)
  {}

  lemma WithinSet(a: bv32, m: bv32, n: bv32)
    ensures Within(a, a | m, m | n)
  {}

  lemma WithinTouchable(p: Params, a: bv32, b: bv32, m: bv32)
    requires Within(a, b, m | Touchable(p)) && Inside(m, Touchable(p))
    ensures Within(a, b, Touchable(p))
  {
    hide Touchable;
  }

  lemma HandledTouchable(p: Params)
    ensures Inside(p.handled, Touchable(p))
    ensures p.arch.X64? ==> Inside(MaskField(p.handled), Touchable(p))
    ensures p.arch.X64? && p.controlRound ==> Inside(0xe040, Touchable(p))
  {
    hide MaskField;
  }

  lemma WithinRound(a: bv32, round: bv32, n: bv32)
    requires round & !0xe040 == 0
    ensures Within(a, (a & !0xe040) | round, 0xe040 | n)
  {}

  lemma Within64Trap(e: bv64)
    ensures Within64(e, e | 0x100, 0x100)
    ensures Within64(e, e & !0x100, 0x100)
  {}

  lemma Compose(p: Params, u: Ucontext, v: Ucontext, w: Ucontext)
    requires Contained(p, u, v) && Contained(p, v, w)
    ensures Contained(p, u, w)
  {
    hide Touchable, StatusField, Within, Within64, Inside;
    WithinChain(u.control, v.control, w.control, Touchable(p));
    if p.arch.X64? {
      Within64Chain(u.efl, v.efl, w.efl, 0x100);
    } else {
      WithinChain(u.status, v.status, w.status, StatusField(p.handled));
    }
  }

  /** A change confined to some touchable bits of the control register. */
  lemma ControlContained(p: Params, u: Ucontext, v: Ucontext, m: bv32)
    requires v == u.(control := v.control) && Within(u.control, v.control, m | Touchable(p)) && Inside(m, Touchable(p))
    ensures Contained(p, u, v)
  {
    WithinTouchable(p, u.control, v.control, m);
    hide Touchable, StatusField, Within, Within64, Inside;
    Within64Same(u.efl, 0x100);
    WithinSame(u.status, StatusField(p.handled));
  }

  lemma Unchanged(p: Params, u: Ucontext)
    ensures Contained(p, u, u)
  {
    hide Touchable, StatusField, Within, Within64, Inside;
    WithinSame(u.control, Touchable(p));
    Within64Same(u.efl, 0x100);
    WithinSame(u.status, StatusField(p.handled));
  }

  lemma StatusCleared(a: bv32, m: bv32)
    ensures Within(a, a & !m, m)
  {}

  lemma ClearContained(p: Params, u: Ucontext)
    ensures Contained(p, u, ClearExceptions(p.arch, p.handled, u))
  {
    HandledTouchable(p);
    hide Touchable, StatusField, Within, Within64, Inside;
    if p.arch.X64? {
      WithinClear(u.control, p.handled, Touchable(p));
      ControlContained(p, u, ClearExceptions(p.arch, p.handled, u), p.handled);
    } else {
      StatusCleared(u.status, StatusField(p.handled));
      WithinSame(u.control, Touchable(p));
    }
  }

  lemma MaskContained(p: Params, u: Ucontext)
    ensures Contained(p, u, MaskTraps(p.arch, p.handled, u))
  {
    HandledTouchable(p);
    match p.arch
    case X64 => MaskContainedX64(p, u);
    case Arm64 =>
      hide Touchable, StatusField, MaskField, Within, Within64, Inside, Contained;
      WithinClear(u.control, p.handled, Touchable(p));
      ControlContained(p, u, MaskTraps(p.arch, p.handled, u), p.handled);
  }

  lemma MaskContainedX64(p: Params, u: Ucontext)
    requires p.arch.X64?
    ensures Contained(p, u, MaskTraps(p.arch, p.handled, u))
  {
    HandledTouchable(p);
    hide Touchable, StatusField, MaskField, Within, Within64, Inside, Contained;
    var m := MaskField(p.handled);
    WithinSet(u.control, m, Touchable(p));
    ControlContained(p, u, u.(control := u.control | m), m);
  }

  lemma UnmaskContained(p: Params, u: Ucontext)
    ensures Contained(p, u, UnmaskTraps(p.arch, p.handled, u))
  {
    HandledTouchable(p);
    hide Touchable, StatusField, MaskField, Within, Within64, Inside;
    if p.arch.X64? {
      WithinClear(u.control, MaskField(p.handled), Touchable(p));
      ControlContained(p, u, UnmaskTraps(p.arch, p.handled, u), MaskField(p.handled));
    } else {
      WithinSet(u.control, p.handled, Touchable(p));
      ControlContained(p, u, UnmaskTraps(p.arch, p.handled, u), p.handled);
    }
  }

  lemma RoundedContained(p: Params, u: Ucontext, round: bv32)
    requires RoundConfig(p, round)
    ensures Contained(p, u, Rounded(p, u, round))
  {
    HandledTouchable(p);
    hide Touchable, StatusField, Within, Within64, Inside, Contained;
    if p.controlRound && p.arch.X64? {
      WithinRound(u.control, round, Touchable(p));
      ControlContained(p, u, Rounded(p, u, round), 0xe040);
    } else {
      Unchanged(p, u);
    }
  }

  predicate TrapOnly(p: Params, u: Ucontext, v: Ucontext) {
    if p.arch.X64? then v == u.(efl := v.efl) && Within64(u.efl, v.efl, 0x100) else v == u.(text := v.text)
  }

  lemma TrapIs(p: Params, u: Ucontext, state: bv64)
    ensures TrapOnly(p, u, SetTrapMode(p.arch, u).0)
    ensures TrapOnly(p, u, ResetTrapMode(p.arch, u, state).0)
  {
    hide TrapFlag, TrapInst, EncodeTrap, Within64;
    Within64Trap(u.efl);
  }

  lemma TrapContained(p: Params, u: Ucontext, state: bv64)
    ensures Contained(p, u, SetTrapMode(p.arch, u).0)
    ensures Contained(p, u, ResetTrapMode(p.arch, u, state).0)
  {
    TrapIs(p, u, state);
    hide SetTrapMode, ResetTrapMode, Touchable, StatusField, Within, Within64, Inside;
    WithinSame(u.control, Touchable(p));
    WithinSame(u.status, StatusField(p.handled));
  }

  lemma QuietContained(p: Params, u: Ucontext)
    ensures Contained(p, u, Quiet(p, u)) && Contained(p, u, Listen(p, u))
  {
    hide Contained, ClearExceptions, MaskTraps, UnmaskTraps;
    var v := ClearExceptions(p.arch, p.handled, u);
    ClearContained(p, u);
    MaskContained(p, v);
    UnmaskContained(p, v);
    Compose(p, u, v, Quiet(p, u));
    Compose(p, u, v, Listen(p, u));
  }

  lemma RestoreContained(p: Params, t: Thread)
    requires RoundConfig(p, t.origRound)
    ensures Contained(p, t.uc, Restore(p, t).uc)
  {
    hide Contained, Quiet, Rounded, ResetTrapMode, RoundConfig;
    var u := Quiet(p, t.uc);
    var v := Rounded(p, u, t.origRound);
    QuietContained(p, t.uc);
    RoundedContained(p, u, t.origRound);
    TrapContained(p, v, t.trapMode);
    Compose(p, t.uc, u, v);
    Compose(p, t.uc, v, Restore(p, t).uc);
  }

  lemma UpdateContained(p: Params, t: Thread)
    ensures Contained(p, t.uc, UpdateSampler(p, t).uc)
  {
    hide Contained, Quiet, Listen, ResetTrapMode, NextExp, SetTimer;
    var u := if t.sampler.on then Quiet(p, t.uc) else Listen(p, t.uc);
    QuietContained(p, t.uc);
    TrapContained(p, u, t.trapMode);
    Compose(p, t.uc, u, UpdateSampler(p, t).uc);
  }

  lemma RearmedContained(p: Params, t: Thread, u: Ucontext, round: bv32, state: bv64)
    requires RoundConfig(p, round) && (u == Quiet(p, t.uc) || u == Listen(p, t.uc))
    ensures Contained(p, t.uc, Rounded(p, u, round))
    ensures Contained(p, t.uc, ResetTrapMode(p.arch, Rounded(p, u, round), state).0)
    ensures Contained(p, t.uc, SetTrapMode(p.arch, Rounded(p, u, round)).0)
  {
    hide Contained, Quiet, Listen, Rounded, ResetTrapMode, SetTrapMode, RoundConfig;
    var v := Rounded(p, u, round);
    QuietContained(p, t.uc);
    RoundedContained(p, u, round);
    TrapContained(p, v, state);
    Compose(p, t.uc, u, v);
    Compose(p, t.uc, v, ResetTrapMode(p.arch, v, state).0);
    Compose(p, t.uc, v, SetTrapMode(p.arch, v).0);
  }

  lemma AbortContained(p: Params, t: Thread, time: Word)
    requires RoundConfig(p, t.origRound)
    ensures Contained(p, t.uc, Abort(p, t, time).uc)
  {
    hide Restore, RoundConfig;
    RestoreContained(p, Push(p, t.(state := ABORT), AbortRecord(time)));
    Unchanged(p, t.uc);
  }

  /** Whatever the state, a handler changes no other bit of the control registers, and no pc. */
  lemma HandlersContained(p: Params, t: Thread, info: Info)
    requires ParamsOk(p) && RoundConfig(p, t.origRound)
    ensures Contained(p, t.uc, BrkTrap(p, t, info.time).uc)
    ensures Contained(p, t.uc, FpTrap(p, t, info).uc)
    ensures Contained(p, t.uc, SigAlrm(p, t).uc)
  {
    BrkContained(p, t, info.time);
    FpContained(p, t, info);
    hide Contained, BrkTrap, FpTrap, UpdateSampler;
    UpdateContained(p, t);
    Unchanged(p, t.uc);
  }

  lemma StartingContained(p: Params, t: Thread)
    requires ParamsOk(p)
    ensures Contained(p, t.uc, Starting(p, t).uc)
  {
    assert RoundConfig(p, p.ourRound);
    hide Contained, Listen, Rounded, ResetTrapMode, RoundConfig, GetRound, HandledOk;
    RearmedContained(p, t, Listen(p, t.uc), p.ourRound, t.trapMode);
  }

  lemma ResumeContained(p: Params, t: Thread)
    requires ParamsOk(p) && RoundConfig(p, t.origRound)
    ensures Contained(p, t.uc, Resume(p, t).uc)
  {
    assert RoundConfig(p, p.ourRound);
    hide Contained, Quiet, Listen, Rounded, ResetTrapMode, RoundConfig, Enough, HandledOk;
    RearmedContained(p, t, Quiet(p, t.uc), t.origRound, t.trapMode);
    RearmedContained(p, t, Listen(p, t.uc), p.ourRound, t.trapMode);
  }

  lemma SurpriseContained(p: Params, t: Thread, time: Word)
    requires RoundConfig(p, t.origRound)
    ensures Contained(p, t.uc, Abort(p, Restore(p, t).(abortingInTrap := true), time).uc)
  {
    RestoreKeepsRound(p, t);
    hide Contained, Restore, RoundConfig, Abort;
    RestoreContained(p, t);
    var t1 := Restore(p, t).(abortingInTrap := true);
    AbortContained(p, t1, time);
    Compose(p, t.uc, t1.uc, Abort(p, t1, time).uc);
  }

  lemma BrkContained(p: Params, t: Thread, time: Word)
    requires ParamsOk(p) && RoundConfig(p, t.origRound)
    ensures Contained(p, t.uc, BrkTrap(p, t, time).uc)
  {
    ResumeSampler(p, t);
    hide Contained, Restore, Starting, Resume, UpdateSampler, RoundConfig, Abort;
    match t.state
    case ABORT => RestoreContained(p, t);
    case INIT => StartingContained(p, t);
    case AWAIT_TRAP =>
      ResumeContained(p, t);
      if t.sampler.delayed {
        UpdateContained(p, Resume(p, t));
        Compose(p, t.uc, Resume(p, t).uc, UpdateSampler(p, Resume(p, t)).uc);
      }
    case AWAIT_FPE => SurpriseContained(p, t, time);
  }

  lemma ResumeSampler(p: Params, t: Thread)
    ensures Resume(p, t).sampler == t.sampler
  {
    hide Rearmed, ResetTrapMode;
  }

  lemma RestoreKeepsRound(p: Params, t: Thread)
    ensures Restore(p, t).origRound == t.origRound
  {}

  lemma FpContained(p: Params, t: Thread, info: Info)
    requires ParamsOk(p) && RoundConfig(p, t.origRound)
    ensures Contained(p, t.uc, FpTrap(p, t, info).uc)
  {
    assert RoundConfig(p, p.ourRound);
    hide Contained, Quiet, Listen, Rounded, SetTrapMode, Restore, RoundConfig, Abort, FaultRecord;
    var t1 := if t.count % p.period == 0 then Push(p, t, FaultRecord(p, t.uc, info)) else t;
    if t.state.AWAIT_FPE? {
      RearmedContained(p, t, Quiet(p, t.uc), p.ourRound, t.trapMode);
    } else {
      RestoreContained(p, t1);
      RestoreKeepsRound(p, t1);
      AbortContained(p, Restore(p, t1), info.time);
      Compose(p, t.uc, Restore(p, t1).uc, Abort(p, Restore(p, t1), info.time).uc);
    }
  }
}
