/**
The floating-point control state a signal handler edits in its ucontext, for
the two kinds of back end: MXCSR and RFLAGS.TF on x64, FPCR/FPSR and a
breakpoint written over the next instruction on arm64.
*/
module FpControl {
  import opened Lcg

  datatype Arch = X64 | Arm64

  /**
  On x64 `control` is MXCSR, which also holds the flags, and `status` is unused;
  on arm64 they are FPCR and FPSR. `pc` counts instructions of `text`.
  */
  datatype Ucontext = Ucontext(control: bv32, status: bv32, efl: bv64, pc: Word, text: seq<bv32>)

  const TRAP_MODE_INIT: bv32 := 0
  const TRAP_MODE_OFF: bv32 := 1
  const TRAP_MODE_ON: bv32 := 2
  const BRK_INSTR: bv32 := 0xd42002e0

  function EncodeTrap(inst: bv32, flag: bv32): bv64 {
    ((inst as bv64) << 32) | (flag as bv64)
  }

  function TrapInst(state: bv64): bv32 {
    (state >> 32) as bv32
  }

  function TrapFlag(state: bv64): bv32 {
    (state & 0xffff_ffff) as bv32
  }

  lemma TrapRoundTrip(inst: bv32, flag: bv32)
    ensures TrapInst(EncodeTrap(inst, flag)) == inst
    ensures TrapFlag(EncodeTrap(inst, flag)) == flag
  {}

  /** mxcsrmask_base or fpcr_enable_base: which exceptions are handled. */
  predicate HandledOk(arch: Arch, h: bv32) {
    h & (if arch.X64? then !0x3f else !0x9f00) == 0
  }

  /** The handled bits where MXCSR masks them, and where FPSR reports them. */
  function MaskField(h: bv32): bv32 {
    h << 7
  }

  function StatusField(h: bv32): bv32 {
    h >> 8
  }

  /** The handled exceptions, numbered as the status flags are. */
  function HandledEvents(arch: Arch, h: bv32): bv32 {
    if arch.X64? then h else StatusField(h)
  }

  function ClearExceptions(arch: Arch, h: bv32, u: Ucontext): Ucontext {
    if arch.X64? then u.(control := u.control & !h) else u.(status := u.status & !StatusField(h))
  }

  function MaskTraps(arch: Arch, h: bv32, u: Ucontext): Ucontext {
    if arch.X64? then u.(control := u.control | MaskField(h)) else u.(control := u.control & !h)
  }

  function UnmaskTraps(arch: Arch, h: bv32, u: Ucontext): Ucontext {
    if arch.X64? then u.(control := u.control & !MaskField(h)) else u.(control := u.control | h)
  }

  function RoundMask(arch: Arch): bv32 {
    if arch.X64? then 0xe040 else 0x1c00003
  }

  function GetRound(arch: Arch, u: Ucontext): bv32 {
    u.control & RoundMask(arch)
  }

  /** On arm64 the new value is computed but never stored back. */
  function SetRound(arch: Arch, u: Ucontext, config: bv32): Ucontext {
    if arch.X64? then u.(control := (u.control & !0xe040) | config) else u
  }

  /** arch_set_trap_mode(): the context and the thread's trap_mode_state afterwards. */
  function SetTrapMode(arch: Arch, u: Ucontext): (Ucontext, bv64) {
    if arch.X64? then (u.(efl := u.efl | 0x100), TRAP_MODE_ON as bv64)
    else if u.pc + 1 < |u.text| then
      (u.(text := u.text[u.pc + 1 := BRK_INSTR]), EncodeTrap(u.text[u.pc + 1], TRAP_MODE_ON))
    else (u, EncodeTrap(0, TRAP_MODE_ON))
  }

  /** arch_reset_trap_mode() */
  function ResetTrapMode(arch: Arch, u: Ucontext, state: bv64): (Ucontext, bv64) {
    if arch.X64? then (u.(efl := u.efl & !0x100), TRAP_MODE_OFF as bv64)
    else if TrapFlag(state) == TRAP_MODE_INIT then (u, EncodeTrap(0, TRAP_MODE_OFF))
    else if TrapFlag(state) == TRAP_MODE_ON && u.pc < |u.text| then
      (u.(text := u.text[u.pc := TrapInst(state)]), EncodeTrap(0, TRAP_MODE_OFF))
    else (u, state)
  }

  /** fedisableexcept(FE_ALL_EXCEPT) and feclearexcept(FE_ALL_EXCEPT), which leave denormals alone. */
  function DisableAll(arch: Arch, u: Ucontext): Ucontext {
    if arch.X64? then u.(control := (u.control | 0x1e80) & !0x3d)
    else u.(control := u.control & !0x1f00, status := u.status & !0x1f)
  }

  /** The hardware: which events fault, the single-step bit, the sticky flags. */
  function Enabled(arch: Arch, u: Ucontext): bv32 {
    if arch.X64? then !(u.control >> 7) & 0x3f else (u.control >> 8) & 0x9f
  }

  predicate SingleStep(u: Ucontext) {
    u.efl & 0x100 != 0
  }

  predicate Faults(arch: Arch, u: Ucontext, events: bv32) {
    events & Enabled(arch, u) != 0
  }

  function RaiseFlags(arch: Arch, u: Ucontext, events: bv32): Ucontext {
    if arch.X64? then u.(control := u.control | (events & 0x3f)) else u.(status := u.status | (events & 0x9f))
  }

  /** x64 sets the flags of an unmasked exception as well, arm64 delivers the trap instead. */
  function FaultFlags(arch: Arch, u: Ucontext, events: bv32): Ucontext {
    if arch.X64? then RaiseFlags(arch, u, events) else u
  }

  /** Only handled exceptions can ever be unmasked. */
  predicate OnlyHandled(arch: Arch, h: bv32, u: Ucontext) {
    Enabled(arch, u) & !HandledEvents(arch, h) == 0
  }

  /** Everything but the floating-point control registers is untouched. */
  predicate SameCode(u: Ucontext, v: Ucontext) {
    v.pc == u.pc && v.text == u.text && v.efl == u.efl
  }

  lemma ClearBits(c: bv32, h: bv32)
    requires h & !0x3f == 0
    ensures !((c & !h) >> 7) & 0x3f == !(c >> 7) & 0x3f
    ensures (c & !h) & 0xe040 == c & 0xe040
  {}

  lemma ClearEffect(arch: Arch, h: bv32, u: Ucontext)
    requires HandledOk(arch, h)
    ensures var v := ClearExceptions(arch, h, u);
      SameCode(u, v) && Enabled(arch, v) == Enabled(arch, u) && GetRound(arch, v) == GetRound(arch, u)
  {
    match arch
    case X64 => ClearX64(h, u);
    case Arm64 => SameControlBits(Arm64, u, ClearExceptions(Arm64, h, u));
  }

  lemma ClearX64(h: bv32, u: Ucontext)
    requires HandledOk(X64, h)
    ensures var v := ClearExceptions(X64, h, u);
      SameCode(u, v) && Enabled(X64, v) == Enabled(X64, u) && GetRound(X64, v) == GetRound(X64, u)
  {
    ClearBits(u.control, h);
  }

  lemma SameControlBits(arch: Arch, u: Ucontext, v: Ucontext)
    requires u.control == v.control
    ensures Enabled(arch, v) == Enabled(arch, u) && GetRound(arch, v) == GetRound(arch, u)
  {}

  lemma MaskBitsX64(c: bv32, h: bv32)
    requires h & !0x3f == 0
    ensures !((c | (h << 7)) >> 7) & 0x3f == (!(c >> 7) & 0x3f) & !h
    ensures (c | (h << 7)) & 0xe040 == c & 0xe040
  {}

  lemma MaskBitsArm64(c: bv32, h: bv32)
    requires h & !0x9f00 == 0
    ensures ((c & !h) >> 8) & 0x9f == ((c >> 8) & 0x9f) & !(h >> 8)
    ensures (c & !h) & 0x1c00003 == c & 0x1c00003
  {}

  lemma UnmaskBitsX64(c: bv32, h: bv32)
    requires h & !0x3f == 0
    ensures !((c & !(h << 7)) >> 7) & 0x3f == (!(c >> 7) & 0x3f) | h
    ensures (c & !(h << 7)) & 0xe040 == c & 0xe040
  {}

  lemma UnmaskBitsArm64(c: bv32, h: bv32)
    requires h & !0x9f00 == 0
    ensures ((c | h) >> 8) & 0x9f == ((c >> 8) & 0x9f) | (h >> 8)
    ensures (c | h) & 0x1c00003 == c & 0x1c00003
  {}

  lemma RoundBitsX64(c: bv32, r: bv32)
    requires r & !0xe040 == 0
    ensures !(((c & !0xe040) | r) >> 7) & 0x3f == !(c >> 7) & 0x3f
    ensures ((c & !0xe040) | r) & 0xe040 == r
  {}

  /** Masking takes exactly the handled exceptions out of the enabled ones. */
  lemma MaskEffect(arch: Arch, h: bv32, u: Ucontext)
    requires HandledOk(arch, h)
    ensures var v := MaskTraps(arch, h, u);
      && SameCode(u, v) && GetRound(arch, v) == GetRound(arch, u)
      && Enabled(arch, v) == Enabled(arch, u) & !HandledEvents(arch, h)
  {
    hide *;
    MaskRest(arch, h, u);
    match arch
    case X64 => MaskX64(h, u);
    case Arm64 => MaskArm64(h, u);
  }

  lemma MaskRest(arch: Arch, h: bv32, u: Ucontext)
    requires HandledOk(arch, h)
    ensures SameCode(u, MaskTraps(arch, h, u)) && GetRound(arch, MaskTraps(arch, h, u)) == GetRound(arch, u)
  {
    match arch
    case X64 => MaskBitsX64(u.control, h);
    case Arm64 => MaskBitsArm64(u.control, h);
  }

  lemma MaskX64(h: bv32, u: Ucontext)
    requires HandledOk(X64, h)
    ensures Enabled(X64, MaskTraps(X64, h, u)) == Enabled(X64, u) & !HandledEvents(X64, h)
  {
    MaskBitsX64(u.control, h);
  }

  lemma MaskArm64(h: bv32, u: Ucontext)
    requires HandledOk(Arm64, h)
    ensures Enabled(Arm64, MaskTraps(Arm64, h, u)) == Enabled(Arm64, u) & !HandledEvents(Arm64, h)
  {
    MaskBitsArm64(u.control, h);
  }

  /** Unmasking adds exactly the handled exceptions to the enabled ones. */
  lemma UnmaskEffect(arch: Arch, h: bv32, u: Ucontext)
    requires HandledOk(arch, h)
    ensures var v := UnmaskTraps(arch, h, u);
      && SameCode(u, v) && GetRound(arch, v) == GetRound(arch, u)
      && Enabled(arch, v) == Enabled(arch, u) | HandledEvents(arch, h)
  {
    hide *;
    UnmaskRest(arch, h, u);
    match arch
    case X64 => UnmaskX64(h, u);
    case Arm64 => UnmaskArm64(h, u);
  }

  lemma UnmaskRest(arch: Arch, h: bv32, u: Ucontext)
    requires HandledOk(arch, h)
    ensures SameCode(u, UnmaskTraps(arch, h, u)) && GetRound(arch, UnmaskTraps(arch, h, u)) == GetRound(arch, u)
  {
    match arch
    case X64 => UnmaskBitsX64(u.control, h);
    case Arm64 => UnmaskBitsArm64(u.control, h);
  }

  lemma UnmaskX64(h: bv32, u: Ucontext)
    requires HandledOk(X64, h)
    ensures Enabled(X64, UnmaskTraps(X64, h, u)) == Enabled(X64, u) | HandledEvents(X64, h)
  {
    UnmaskBitsX64(u.control, h);
  }

  lemma UnmaskArm64(h: bv32, u: Ucontext)
    requires HandledOk(Arm64, h)
    ensures Enabled(Arm64, UnmaskTraps(Arm64, h, u)) == Enabled(Arm64, u) | HandledEvents(Arm64, h)
  {
    UnmaskBitsArm64(u.control, h);
  }

  /** Where only handled exceptions were enabled, none is afterwards. */
  lemma MaskHandled(arch: Arch, h: bv32, u: Ucontext)
    requires HandledOk(arch, h) && OnlyHandled(arch, h, u)
    ensures var v := MaskTraps(arch, h, u);
      && SameCode(u, v) && GetRound(arch, v) == GetRound(arch, u)
      && Enabled(arch, v) == 0 && OnlyHandled(arch, h, v)
  {
    hide SameCode, GetRound, Enabled, HandledEvents, MaskTraps, HandledOk;
    MaskEffect(arch, h, u);
    NoBits(!HandledEvents(arch, h));
  }

  /** Where only handled exceptions were enabled, exactly those are afterwards. */
  lemma UnmaskHandled(arch: Arch, h: bv32, u: Ucontext)
    requires HandledOk(arch, h) && OnlyHandled(arch, h, u)
    ensures var v := UnmaskTraps(arch, h, u);
      && SameCode(u, v) && GetRound(arch, v) == GetRound(arch, u)
      && Enabled(arch, v) == HandledEvents(arch, h) && OnlyHandled(arch, h, v)
  {
    hide *;
    UnmaskEffect(arch, h, u);
    OnlyHandledAdded(arch, h, u, UnmaskTraps(arch, h, u));
  }

  lemma OnlyHandledAdded(arch: Arch, h: bv32, u: Ucontext, v: Ucontext)
    requires OnlyHandled(arch, h, u) && Enabled(arch, v) == Enabled(arch, u) | HandledEvents(arch, h)
    ensures Enabled(arch, v) == HandledEvents(arch, h) && OnlyHandled(arch, h, v)
  {
    hide Enabled, HandledEvents;
    AddedBits(Enabled(arch, u), HandledEvents(arch, h));
  }

  lemma AddedBits(e: bv32, h: bv32)
    requires e & !h == 0
    ensures e | h == h && h & !h == 0
  {}

  lemma NoBits(x: bv32)
    ensures x & 0 == 0 && 0 & x == 0
  {}

  lemma SetRoundEffect(arch: Arch, u: Ucontext, config: bv32)
    requires config & !RoundMask(arch) == 0
    ensures var v := SetRound(arch, u, config);
      && SameCode(u, v) && Enabled(arch, v) == Enabled(arch, u)
      && GetRound(arch, v) == if arch.X64? then config else GetRound(arch, u)
  {
    hide Enabled, GetRound;
    match arch
    case X64 => SetRoundX64(u, config);
    case Arm64 =>
  }

  lemma SetRoundX64(u: Ucontext, config: bv32)
    requires config & !0xe040 == 0
    ensures var v := SetRound(X64, u, config);
      SameCode(u, v) && Enabled(X64, v) == Enabled(X64, u) && GetRound(X64, v) == config
  {
    RoundBitsX64(u.control, config);
  }

  lemma DisableBitsX64(c: bv32)
    ensures var d := (c | 0x1e80) & !0x3d;
      !(d >> 7) & 0x3f == (!(c >> 7) & 0x3f) & 0x02 && d & 0xe040 == c & 0xe040
  {}

  lemma DisableBitsArm64(c: bv32)
    ensures ((c & !0x1f00) >> 8) & 0x9f == ((c >> 8) & 0x9f) & 0x80
    ensures (c & !0x1f00) & 0x1c00003 == c & 0x1c00003
  {}

  /** The exceptions fedisableexcept() does not know of stay as they are. */
  lemma DisableMasks(arch: Arch, u: Ucontext)
    ensures var v := DisableAll(arch, u);
      && SameCode(u, v) && GetRound(arch, v) == GetRound(arch, u)
      && Enabled(arch, v) == Enabled(arch, u) & (if arch.X64? then 0x02 else 0x80)
  {
    match arch
    case X64 => DisableBitsX64(u.control);
    case Arm64 => DisableBitsArm64(u.control);
  }

  lemma FewerBits(e: bv32, k: bv32, h: bv32)
    ensures e & !h == 0 ==> (e & k) & !h == 0
    ensures e == 0 ==> e & k == 0
  {}

  lemma DisableEffect(arch: Arch, h: bv32, u: Ucontext)
    requires OnlyHandled(arch, h, u)
    ensures var v := DisableAll(arch, u);
      && SameCode(u, v) && OnlyHandled(arch, h, v) && GetRound(arch, v) == GetRound(arch, u)
      && (Enabled(arch, u) == 0 ==> Enabled(arch, v) == 0)
  {
    hide SameCode, GetRound, Enabled, HandledEvents, DisableAll;
    DisableMasks(arch, u);
    FewerBits(Enabled(arch, u), if arch.X64? then 0x02 else 0x80, HandledEvents(arch, h));
  }

  lemma RaiseBits(c: bv32, events: bv32)
    ensures !((c | (events & 0x3f)) >> 7) & 0x3f == !(c >> 7) & 0x3f
    ensures (c | (events & 0x3f)) & 0xe040 == c & 0xe040
  {}

  lemma RaiseEffect(arch: Arch, u: Ucontext, events: bv32)
    ensures var v := RaiseFlags(arch, u, events);
      SameCode(u, v) && Enabled(arch, v) == Enabled(arch, u) && GetRound(arch, v) == GetRound(arch, u)
  {
    match arch
    case X64 => RaiseBits(u.control, events);
    case Arm64 => SameControlBits(Arm64, u, RaiseFlags(Arm64, u, events));
  }

  lemma FlagsEffect(arch: Arch, u: Ucontext, events: bv32)
    ensures var v := RaiseFlags(arch, u, events);
      SameCode(u, v) && Enabled(arch, v) == Enabled(arch, u) && GetRound(arch, v) == GetRound(arch, u)
    ensures var v := FaultFlags(arch, u, events);
      SameCode(u, v) && Enabled(arch, v) == Enabled(arch, u) && GetRound(arch, v) == GetRound(arch, u)
  {
    hide SameCode, Enabled, GetRound, RaiseFlags;
    RaiseEffect(arch, u, events);
    assert SameCode(u, u) by { SameSelf(u); }
  }

  lemma SameSelf(u: Ucontext)
    ensures SameCode(u, u)
  {}

  lemma SetTrapEffect(arch: Arch, u: Ucontext)
    requires arch.Arm64? ==> u.pc + 1 < |u.text|
    ensures var (v, state) := SetTrapMode(arch, u);
      && v.control == u.control && v.status == u.status && v.pc == u.pc
      && TrapFlag(state) == TRAP_MODE_ON
      && (arch.X64? ==> SingleStep(v) && v.text == u.text)
      && (arch.Arm64? ==> v.efl == u.efl && v.text == u.text[u.pc + 1 := BRK_INSTR] && TrapInst(state) == u.text[u.pc + 1])
  {}

  lemma ResetTrapEffect(arch: Arch, u: Ucontext, state: bv64)
    requires arch.Arm64? ==> TrapFlag(state) in {TRAP_MODE_INIT, TRAP_MODE_OFF} || (TrapFlag(state) == TRAP_MODE_ON && u.pc < |u.text|)
    ensures var (v, state') := ResetTrapMode(arch, u, state);
      && v.control == u.control && v.status == u.status && v.pc == u.pc
      && TrapFlag(state') == TRAP_MODE_OFF
      && (arch.X64? ==> !SingleStep(v) && v.text == u.text)
      && (arch.Arm64? ==> v.efl == u.efl)
      && (arch.Arm64? ==> v.text == if TrapFlag(state) == TRAP_MODE_ON then u.text[u.pc := TrapInst(state)] else u.text)
  {}

  /** Setting a trap and resetting it at the next instruction leaves memory and state as they were. */
  lemma SetThenReset(u: Ucontext, w: Ucontext)
    requires u.pc + 1 < |u.text| && w.pc == u.pc + 1
    requires w.text == SetTrapMode(Arm64, u).0.text
    ensures ResetTrapMode(Arm64, w, SetTrapMode(Arm64, u).1) == (w.(text := u.text), EncodeTrap(0, TRAP_MODE_OFF))
  {
    hide EncodeTrap, TrapInst, TrapFlag;
    TrapRoundTrip(u.text[u.pc + 1], TRAP_MODE_ON);
    assert u.text[u.pc + 1 := BRK_INSTR][w.pc := u.text[u.pc + 1]] == u.text;
  }
}
