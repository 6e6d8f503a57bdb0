/**
The handlers as the library runs them, editing the interrupted context, the
program text and the thread's monitoring context in place.
*/
module MonitorHandlers {
  import opened Lcg
  import opened Trace
  import opened FpControl
  import opened Monitor

  /** The ucontext a handler is given, and the text it can patch. */
  class Context {
    var control: bv32
    var status: bv32
    var efl: bv64
    const pc: Word
    const text: array<bv32>

    constructor (control: bv32, status: bv32, efl: bv64, pc: Word, text: array<bv32>)
      ensures this.control == control && this.status == status && this.efl == efl && this.pc == pc && this.text == text
    {
      this.control, this.status, this.efl, this.pc, this.text := control, status, efl, pc, text;
    }

    function Value(): Ucontext
      reads this, text
    {
      Ucontext(control, status, efl, pc, text[..])
    }
  }

  class MonitoringContext {
    const p: Params
    const buffer: Buffer
    const rand: RandState
    var state: Phase
    var abortingInTrap: bool
    var count: nat
    var trapMode: bv64
    var on: bool
    var delayed: bool
    var origRound: bv32
    var aborted: bool
    var timer: nat

    ghost predicate Valid()
      reads this, buffer, buffer.fd, buffer.records
    {
      && p.period > 0 && buffer.Valid()
      && forall text, pc :: |p.fetch(text, pc)| == MaxInstrSize
    }

    /** The text is not the trace buffer. */
    predicate Apart(uc: Context)
      reads {}
    {
      uc.text as object != buffer.records as object
    }

    /** The thread and its context as one value. */
    ghost function Thread(uc: Context): Monitor.Thread
      reads this, rand, buffer, uc, uc.text
    {
      Monitor.Thread(state, abortingInTrap, count, trapMode, Sampler(on, delayed, rand.xi), origRound, aborted, timer,
                     buffer.pushed, uc.Value())
    }

    /**
    bringup_monitoring_context() and init_sampler(), with an open trace file, for
    the thread in the context `uc` that config_round_daz_ftz() has looked at.
    */
    constructor (p: Params, uc: Context, seed: Word, buflen: nat, results: nat -> int)
      requires p.period > 0 && forall text, pc :: |p.fetch(text, pc)| == MaxInstrSize
      ensures Valid() && this.p == p && fresh(buffer) && fresh(rand) && fresh(buffer.fd) && fresh(buffer.records)
      ensures state == INIT && !abortingInTrap && count == 0 && trapMode == 0 && origRound == OrigRound(p, uc.Value()) && !aborted
      ensures buffer.pushed == [] && (Sampler(on, delayed, rand.xi), timer) == InitSampler(p, seed, 0)
    {
      this.p := p;
      buffer := new Buffer(buflen, results);
      rand := new RandState(seed);
      state, abortingInTrap, count, trapMode, aborted := INIT, false, 0, 0, false;
      origRound := OrigRound(p, uc.Value());
      on, delayed, timer := true, false, 0;
      new;
      if p.timers {
        var n := NextInterval(p.onMean);
        SetITimer(n / 1_000_000, n % 1_000_000);
      }
    }

    /** next_exp() */
    method NextInterval(mean: nat) returns (n: Word)
      modifies rand
      ensures (rand.xi, n) == NextExp(p, old(rand.xi), mean)
    {
      var r := rand.PumpRand();
      n := p.draw(r - r % 2, mean);
    }

    /** setitimer(); a failure is only logged. */
    method SetITimer(sec: nat, usec: nat)
      modifies this`timer
      ensures timer == SetTimer(old(timer), sec, usec)
    {
      if usec < 1_000_000 {
        timer := sec * 1_000_000 + usec;
      }
    }

    /** arch_clear_fp_exceptions() */
    method ClearFpExceptions(uc: Context)
      modifies uc
      ensures uc.Value() == ClearExceptions(p.arch, p.handled, old(uc.Value()))
    {
      if p.arch.X64? {
        uc.control := uc.control & !p.handled;
      } else {
        uc.status := uc.status & !(p.handled >> 8);
      }
    }

    /** arch_mask_fp_traps() */
    method MaskFpTraps(uc: Context)
      modifies uc
      ensures uc.Value() == MaskTraps(p.arch, p.handled, old(uc.Value()))
    {
      if p.arch.X64? {
        uc.control := uc.control | (p.handled << 7);
      } else {
        uc.control := uc.control & !p.handled;
      }
    }

    /** arch_unmask_fp_traps() */
    method UnmaskFpTraps(uc: Context)
      modifies uc
      ensures uc.Value() == UnmaskTraps(p.arch, p.handled, old(uc.Value()))
    {
      if p.arch.X64? {
        uc.control := uc.control & !(p.handled << 7);
      } else {
        uc.control := uc.control | p.handled;
      }
    }

    /** arch_set_round_config(), where the configuration is controlled at all. */
    method SetRoundConfig(uc: Context, config: bv32)
      modifies uc
      ensures uc.Value() == Rounded(p, old(uc.Value()), config)
    {
      if p.controlRound && p.arch.X64? {
        ghost var u := uc.Value();
        uc.control := (uc.control & !0xe040) | config;
        assert uc.Value() == u.(control := uc.control);
      }
    }

    /** arch_set_trap_mode() */
    method SetTrap(uc: Context)
      requires p.arch.Arm64? ==> uc.pc + 1 < uc.text.Length
      modifies this`trapMode, uc, uc.text
      ensures (uc.Value(), trapMode) == SetTrapMode(p.arch, old(uc.Value()))
    {
      if p.arch.X64? {
        uc.efl := uc.efl | 0x100;
        trapMode := TRAP_MODE_ON as bv64;
      } else {
        trapMode := EncodeTrap(uc.text[uc.pc + 1], TRAP_MODE_ON);
        uc.text[uc.pc + 1] := BRK_INSTR;
      }
    }

    /** A breakpoint that is to be taken out lies in the text. */
    predicate InText(uc: Context)
      reads this`trapMode
    {
      p.arch.Arm64? && TrapFlag(trapMode) == TRAP_MODE_ON ==> uc.pc < uc.text.Length
    }

    /** arch_reset_trap_mode() */
    method ResetTrapMode(uc: Context)
      requires InText(uc)
      modifies this`trapMode, uc, uc.text
      ensures InText(uc)
      ensures (uc.Value(), trapMode) == FpControl.ResetTrapMode(p.arch, old(uc.Value()), old(trapMode))
    {
      ghost var u := uc.Value();
      if p.arch.X64? {
        uc.efl := uc.efl & !0x100;
        trapMode := TRAP_MODE_OFF as bv64;
        assert uc.Value() == u.(efl := uc.efl);
        return;
      }
      TrapRoundTrip(0, TRAP_MODE_OFF);
      hide TrapFlag, TrapInst, EncodeTrap;
      var flag := TrapFlag(trapMode);
      if flag == TRAP_MODE_INIT {
        trapMode := EncodeTrap(0, TRAP_MODE_OFF);
      } else if flag == TRAP_MODE_ON {
        uc.text[uc.pc] := TrapInst(trapMode);
        trapMode := EncodeTrap(0, TRAP_MODE_OFF);
        assert uc.Value() == u.(text := uc.text[..]);
      }
    }

    /** Exceptions cleared and masked, rounding as it was, trap mode off. */
    method RestoreContext(uc: Context)
      requires InText(uc)
      modifies this`trapMode, uc, uc.text
      ensures InText(uc) && Thread(uc) == Restore(p, old(Thread(uc)))
    {
      hide ClearExceptions, MaskTraps, Rounded, FpControl.ResetTrapMode, InText;
      ClearFpExceptions(uc);
      MaskFpTraps(uc);
      SetRoundConfig(uc, origRound);
      ResetTrapMode(uc);
    }

    /** The first half of update_sampler(): what the mask is to be in the state entered. */
    method SwitchTraps(uc: Context)
      modifies uc
      ensures uc.Value() == if on then Quiet(p, old(uc.Value())) else Listen(p, old(uc.Value()))
    {
      hide ClearExceptions, MaskTraps, UnmaskTraps;
      ClearFpExceptions(uc);
      if on {
        MaskFpTraps(uc);
      } else {
        UnmaskFpTraps(uc);
      }
    }

    /** The draw of update_sampler(), at least one and at most the cap of the state entered. */
    method BoundedInterval() returns (n: nat)
      modifies rand
      ensures var (xi, drawn) := NextExp(p, old(rand.xi), if on then p.offMean else p.onMean);
        rand.xi == xi && n == Interval(p, on, drawn)
    {
      hide NextExp;
      n := NextInterval(if on then p.offMean else p.onMean);
      if n == 0 {
        n := 1;
      }
      if !on && n > p.maxOn {
        n := p.maxOn;
      }
      if on && n > p.maxOff {
        n := p.maxOff;
      }
    }

    /** update_sampler() */
    method UpdateSampler(uc: Context)
      requires InText(uc)
      modifies this`trapMode, this`on, this`delayed, this`timer, rand, uc, uc.text
      ensures Thread(uc) == Monitor.UpdateSampler(p, old(Thread(uc)))
    {
      hide Quiet, Listen, FpControl.ResetTrapMode, TrapFlag, NextExp, SetTimer, Interval;
      SwitchTraps(uc);
      ResetTrapMode(uc);
      var n := BoundedInterval();
      on := !on;
      if delayed {
        delayed := false;
      }
      SetITimer(n / 1_000_000, n % 1_000_000);
    }

    /** push_trace_record() where there is a monitor file; a failure is only logged. */
    method PushRecord(r: Record)
      requires Valid() && Packed(r)
      modifies buffer.fd, buffer.records, buffer`count, buffer`pushed, buffer`failed
      ensures Valid() && buffer.pushed == if p.createFile then old(buffer.pushed) + [r] else old(buffer.pushed)
      ensures old(buffer.failed) ==> buffer.failed
    {
      if p.createFile {
        var rc := buffer.Push(r);
      }
    }

    /** abort_operation() */
    method AbortOperation(uc: Context, time: Word)
      requires Valid() && Apart(uc) && InText(uc)
      modifies this`state, this`trapMode, this`aborted, uc, uc.text
      modifies buffer.fd, buffer.records, buffer`count, buffer`pushed, buffer`failed
      ensures Valid() && Thread(uc) == Abort(p, old(Thread(uc)), time)
    {
      hide Restore, InText;
      if aborted {
        return;
      }
      state := ABORT;
      PushRecord(AbortRecord(time));
      if !abortingInTrap {
        RestoreContext(uc);
      }
      aborted := true;
    }

    /** brk_trap_handler() */
    method BrkTrapHandler(uc: Context, time: Word)
      requires Valid() && Apart(uc) && InText(uc)
      modifies this, rand, uc, uc.text
      modifies buffer.fd, buffer.records, buffer`count, buffer`pushed, buffer`failed
      ensures Valid() && Thread(uc) == BrkTrap(p, old(Thread(uc)), time)
    {
      hide Monitor.UpdateSampler, InText, Restore, Resume, Starting, Abort;
      if state == ABORT {
        RestoreContext(uc);
      } else if state == INIT {
        Start(uc);
      } else if state == AWAIT_TRAP {
        ResumeAfterTrap(uc);
        if delayed {
          UpdateSampler(uc);
        }
      } else {
        RestoreContext(uc);
        abortingInTrap := true;
        AbortOperation(uc, time);
      }
    }

    /** The INIT branch: the deferred start of the thread. */
    method Start(uc: Context)
      requires InText(uc)
      modifies this`origRound, this`state, this`trapMode, uc, uc.text
      ensures InText(uc) && Thread(uc) == Starting(p, old(Thread(uc)))
    {
      hide ClearExceptions, UnmaskTraps, Rounded, FpControl.ResetTrapMode, InText, GetRound;
      origRound := GetRound(p.arch, uc.Value());
      ClearFpExceptions(uc);
      UnmaskFpTraps(uc);
      SetRoundConfig(uc, p.ourRound);
      ResetTrapMode(uc);
      state := AWAIT_FPE;
    }

    /** The first half of the AWAIT_TRAP branch, up to the sampler's delayed switch. */
    method ResumeAfterTrap(uc: Context)
      requires InText(uc)
      modifies this`count, this`state, this`trapMode, uc, uc.text
      ensures InText(uc) && Thread(uc) == Resume(p, old(Thread(uc)))
    {
      hide ClearExceptions, MaskTraps, UnmaskTraps, Rounded, FpControl.ResetTrapMode, InText;
      count := count + 1;
      ClearFpExceptions(uc);
      if p.maxcount != -1 && count >= (if p.maxcount < 0 then p.maxcount + Modulus else p.maxcount) {
        MaskFpTraps(uc);
        SetRoundConfig(uc, origRound);
      } else {
        UnmaskFpTraps(uc);
        SetRoundConfig(uc, p.ourRound);
      }
      ResetTrapMode(uc);
      state := AWAIT_FPE;
    }

    /** fp_trap_handler() */
    method FpTrapHandler(uc: Context, info: Info)
      requires Valid() && Apart(uc) && (p.arch.Arm64? ==> uc.pc + 1 < uc.text.Length)
      modifies this`state, this`trapMode, this`aborted, uc, uc.text
      modifies buffer.fd, buffer.records, buffer`count, buffer`pushed, buffer`failed
      ensures Valid() && Thread(uc) == FpTrap(p, old(Thread(uc)), info)
    {
      hide ClearExceptions, MaskTraps, Rounded, SetTrapMode, TrapFlag, Restore, Abort, FaultRecord;
      if count % p.period == 0 {
        PushRecord(RecordHere(uc, info));
      }
      if state == AWAIT_FPE {
        ClearFpExceptions(uc);
        MaskFpTraps(uc);
        SetRoundConfig(uc, p.ourRound);
        SetTrap(uc);
        state := AWAIT_TRAP;
      } else {
        RestoreContext(uc);
        AbortOperation(uc, info.time);
      }
    }

    /** sigalrm_handler() */
    method SigalrmHandler(uc: Context)
      requires InText(uc)
      modifies this`trapMode, this`on, this`delayed, this`timer, rand, uc, uc.text
      ensures Thread(uc) == SigAlrm(p, old(Thread(uc)))
    {
      hide Monitor.UpdateSampler, InText;
      if state != AWAIT_FPE {
        delayed := true;
      } else {
        UpdateSampler(uc);
      }
    }

    /** The record of the fault the context describes. */
    function RecordHere(uc: Context, info: Info): (r: Record)
      requires forall text, pc :: |p.fetch(text, pc)| == MaxInstrSize
      reads this, uc, uc.text
      ensures Packed(r)
    {
      FaultRecord(p, uc.Value(), info)
    }
  }
}
