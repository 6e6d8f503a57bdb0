/**
One monitored thread: what each signal handler makes of the thread's monitoring
context, its sampler and the interrupted ucontext.
*/
module Monitor {
  import opened Lcg
  import opened Trace
  import opened FpControl

  datatype Phase = INIT | AWAIT_FPE | AWAIT_TRAP | ABORT

  /** How the process was configured; `draw` is next_exp() applied to a random word and a mean. */
  datatype Params = Params(arch: Arch, handled: bv32, controlRound: bool, ourRound: bv32,
                           maxcount: int, period: nat, timers: bool, createFile: bool,
                           maxOn: nat, maxOff: nat, onMean: nat, offMean: nat,
                           draw: (Word, nat) -> Word,
                           fetch: (seq<bv32>, Word) -> seq<Byte>)

  datatype Sampler = Sampler(on: bool, delayed: bool, xi: Word)

  /** What the kernel tells a handler about a signal. */
  datatype Info = Info(time: Word, sp: Word, code: Word32)

  /** `timer` is the time left on the one-shot timer, 0 when it is not armed. */
  datatype Thread = Thread(state: Phase, abortingInTrap: bool, count: nat, trapMode: bv64, sampler: Sampler,
                           origRound: bv32, aborted: bool, timer: nat, pushed: seq<Record>, uc: Ucontext)

  predicate ParamsOk(p: Params) {
    && HandledOk(p.arch, p.handled) && p.ourRound & !RoundMask(p.arch) == 0
    && p.period > 0 && p.maxOn > 0 && p.maxOff > 0
  }

  // -- the sampler ---------------------------------------------------------

  /** setitimer() refuses a microsecond part of a second or more. */
  function SetTimer(timer: nat, sec: nat, usec: nat): nat {
    if usec >= 1_000_000 then timer else sec * 1_000_000 + usec
  }

  /** next_exp(): one step of the generator, lowest bit dropped, then the logarithm. */
  function NextExp(p: Params, xi: Word, mean: nat): (Word, Word) {
    var r := Next(xi);
    (r, p.draw(r - r % 2, mean))
  }

  /** The length of the next interval, given the state being left. */
  function Interval(p: Params, on: bool, drawn: nat): nat {
    var n := if drawn == 0 then 1 else drawn;
    var n := if !on && n > p.maxOn then p.maxOn else n;
    if on && n > p.maxOff then p.maxOff else n
  }

  function InitSampler(p: Params, seed: Word, timer: nat): (Sampler, nat) {
    if !p.timers then (Sampler(true, false, seed), timer) else
      var (xi, n) := NextExp(p, seed, p.onMean);
      (Sampler(true, false, xi), SetTimer(timer, n / 1_000_000, n % 1_000_000))
  }

  function ResetTrap(p: Params, t: Thread): Thread {
    var (u, state) := ResetTrapMode(p.arch, t.uc, t.trapMode);
    t.(uc := u, trapMode := state)
  }

  function Quiet(p: Params, u: Ucontext): Ucontext {
    MaskTraps(p.arch, p.handled, ClearExceptions(p.arch, p.handled, u))
  }

  function Listen(p: Params, u: Ucontext): Ucontext {
    UnmaskTraps(p.arch, p.handled, ClearExceptions(p.arch, p.handled, u))
  }

  function Rounded(p: Params, u: Ucontext, config: bv32): Ucontext {
    if p.controlRound then SetRound(p.arch, u, config) else u
  }

  /** config_round_daz_ftz() reads the thread's own field before rounding is controlled. */
  function OrigRound(p: Params, u: Ucontext): bv32 {
    if p.controlRound then GetRound(p.arch, u) else 0
  }

  function UpdateSampler(p: Params, t: Thread): Thread {
    var s := t.sampler;
    var t1 := ResetTrap(p, t.(uc := if s.on then Quiet(p, t.uc) else Listen(p, t.uc)));
    var (xi, drawn) := NextExp(p, s.xi, if s.on then p.offMean else p.onMean);
    var n := Interval(p, s.on, drawn);
    t1.(sampler := Sampler(!s.on, false, xi), timer := SetTimer(t.timer, n / 1_000_000, n % 1_000_000))
  }

  // -- the handlers --------------------------------------------------------

  function Push(p: Params, t: Thread, r: Record): Thread {
    if p.createFile then t.(pushed := t.pushed + [r]) else t
  }

  /** brk_trap_handler() in state ABORT: everything off. */
  function Restore(p: Params, t: Thread): Thread {
    ResetTrap(p, t.(uc := Rounded(p, Quiet(p, t.uc), t.origRound)))
  }

  /** abort_operation(); kick_self() runs the trap handler once more unless it is running already. */
  function Abort(p: Params, t: Thread, time: Word): Thread {
    if t.aborted then t else
      var t1 := Push(p, t.(state := ABORT), AbortRecord(time));
      (if t1.abortingInTrap then t1 else Restore(p, t1)).(aborted := true)
  }

  /** The target calls one of the intercepted functions of fenv.h. */
  function FenvCall(p: Params, t: Thread, time: Word): Thread {
    if t.aborted then t else Abort(p, t.(uc := DisableAll(p.arch, t.uc)), time)
  }

  /** `count >= maxcount` converts the int to uint64_t first. */
  predicate Enough(p: Params, count: nat) {
    p.maxcount != -1 && count >= (if p.maxcount < 0 then p.maxcount + Modulus else p.maxcount)
  }

  /** Listening again, unless enough has been recorded. */
  function Rearmed(p: Params, t: Thread): Ucontext {
    if Enough(p, t.count + 1) then Rounded(p, Quiet(p, t.uc), t.origRound) else Rounded(p, Listen(p, t.uc), p.ourRound)
  }

  /** The single-stepped instruction is done: wait for the next fault, if there is to be one. */
  function Resume(p: Params, t: Thread): Thread {
    ResetTrap(p, t.(count := t.count + 1, uc := Rearmed(p, t))).(state := AWAIT_FPE)
  }

  /** A thread's deferred start. */
  function Starting(p: Params, t: Thread): Thread {
    var t1 := t.(origRound := GetRound(p.arch, t.uc), uc := Rounded(p, Listen(p, t.uc), p.ourRound));
    ResetTrap(p, t1).(state := AWAIT_FPE)
  }

  /** brk_trap_handler() */
  function BrkTrap(p: Params, t: Thread, time: Word): Thread {
    match t.state
    case ABORT => Restore(p, t)
    case INIT =>
      Starting(p, t)
    case AWAIT_TRAP =>
      var t1 := Resume(p, t);
      if t1.sampler.delayed then UpdateSampler(p, t1) else t1
    case AWAIT_FPE =>
      Abort(p, Restore(p, t).(abortingInTrap := true), time)
  }

  /** arch_get_fp_csr(), of which a record keeps the low half: MXCSR, or FPSR. */
  function FpCsr(arch: Arch, u: Ucontext): bv32 {
    if arch.X64? then u.control else u.status
  }

  /** The record of a fault; its registers are those of the faulting instruction. */
  function FaultRecord(p: Params, u: Ucontext, info: Info): Record {
    Record(info.time, u.pc, info.sp, info.code, FpCsr(p.arch, u) as Word32, p.fetch(u.text, u.pc), 0)
  }

  function FpTrap(p: Params, t: Thread, info: Info): Thread
    requires p.period > 0
  {
    var t1 := if t.count % p.period == 0 then Push(p, t, FaultRecord(p, t.uc, info)) else t;
    if t.state.AWAIT_FPE? then
      var (u, state) := SetTrapMode(p.arch, Rounded(p, Quiet(p, t.uc), p.ourRound));
      t1.(uc := u, trapMode := state, state := AWAIT_TRAP)
    else
      Abort(p, Restore(p, t1), info.time)
  }

  function SigAlrm(p: Params, t: Thread): Thread {
    if !t.state.AWAIT_FPE? then t.(sampler := t.sampler.(delayed := true)) else UpdateSampler(p, t)
  }
}
