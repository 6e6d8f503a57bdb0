/**
The way round the kernel's signal delivery on x64: the kernel module redirects a
faulting thread to an entry stub, which saves the registers on the thread's own
stack, calls the handler, and returns with iret.
*/
module Trampoline {
  /** Memory by the address of a word; every access below is of aligned words. */
  type Memory = map<int, int>

  /** General registers in the order of gregset_t: r8..r15, rdi, rsi, rbp, rbx, rdx, rax, rcx. */
  const Registers: nat := 15
  const RDI: nat := 8
  const RAX: nat := 13

  /** The words of the interrupted code: its red zone and what lies above. */
  ghost predicate SameAbove(m: Memory, n: Memory, bound: int) {
    forall a :: a in m && a + 8 > bound ==> a in n && n[a] == m[a]
  }

  /** The address of the k-th word of the saved registers. */
  function At(base: int, k: nat): int {
    base + 8 * k
  }

  predicate Holds(m: Memory, a: int, v: int) {
    a in m && m[a] == v
  }

  /** The word saved for the k-th general register, the stack pointer, the pc and the flags. */
  ghost predicate Saved(m: Memory, base: int, r: seq<int>, rsp: int, rip: int, rflags: int) {
    && |r| == Registers
    && (forall k: nat :: k < Registers ==> At(base, k) in m && m[At(base, k)] == r[k])
    && base + 120 in m && m[base + 120] == rsp
    && base + 128 in m && m[base + 128] == rip
    && base + 136 in m && m[base + 136] == rflags
  }

  /** The general registers from the first-th on are on the stack. */
  ghost predicate Pushed(m: Memory, base: int, r: seq<int>, first: nat) {
    && |r| == Registers && first <= Registers
    && forall k: nat :: first <= k < Registers ==> At(base, k) in m && m[At(base, k)] == r[k]
  }

  class Cpu {
    var r: seq<int>
    var rsp: int
    var rip: int
    var rflags: int
    var mem: Memory
    const cs: int
    const ss: int

    /** the_fpvm_hook(): room below the red zone, aligned, for the stack pointer and the pc. */
    method Redirect(handler: int)
      modifies this`rsp, this`rip, this`mem
      ensures rip == handler && rsp % 16 == 0 && rsp + 176 <= old(rsp)
      ensures rsp in mem && mem[rsp] == old(rsp) && rsp + 8 in mem && mem[rsp + 8] == old(rip)
      ensures SameAbove(old(mem), mem, old(rsp) - 160)
    {
      var oldSp := rsp;
      rsp := rsp - 152;
      rsp := rsp - 0x8;
      rsp := rsp - rsp % 16;
      rsp := rsp - 0x10;
      mem := mem[rsp := oldSp][rsp + 8 := rip];
      rip := handler;
    }

    method Push(v: int)
      modifies this`rsp, this`mem
      ensures rsp == old(rsp) - 8 && mem == old(mem)[rsp := v]
    {
      rsp := rsp - 8;
      mem := mem[rsp := v];
    }

    /** pushq %register, which extends what has been pushed by one. */
    method PushRegister(k: nat, ghost base: int, ghost m: Memory)
      requires k < Registers && Pushed(mem, base, r, k + 1) && rsp == At(base, k + 1) && SameAbove(m, mem, base + 120)
      modifies this`rsp, this`mem
      ensures Pushed(mem, base, r, k) && rsp == At(base, k) && SameAbove(m, mem, base + 120)
    {
      Push(r[k]);
    }

    /** The pushes of _user_fpspy_entry. */
    method SaveRegisters()
      requires |r| == Registers && rsp in mem && rsp + 8 in mem
      modifies this`rsp, this`mem
      ensures rsp == old(rsp) - 144
      ensures Saved(mem, rsp, r, old(mem)[old(rsp)], old(mem)[old(rsp) + 8], rflags)
      ensures SameAbove(old(mem), mem, old(rsp))
    {
      hide Pushed, SameAbove, At;
      ghost var m0, sp := mem, rsp;
      Push(rflags);
      Push(mem[rsp + 16]);
      Push(mem[rsp + 16]);
      ghost var m1, base := mem, rsp - 120;
      SpecialWords(m0, m1, sp, rflags);
      NothingPushed(mem, base, r);
      PushAll(base);
      SavedWords(m0, m1, mem, sp, base, r, rflags);
    }

    /** The general registers, from the last of gregset_t to the first. */
    method PushAll(ghost base: int)
      requires Pushed(mem, base, r, 15) && rsp == base + 120
      modifies this`rsp, this`mem
      ensures Pushed(mem, base, r, 0) && rsp == base && SameAbove(old(mem), mem, old(rsp))
    {
      ghost var m := mem;
      PushArguments(base, m);
      PushNumbered(base, m);
    }

    /** rcx, rax, rdx, rbx, rbp, rsi, rdi */
    method PushArguments(ghost base: int, ghost m: Memory)
      requires Pushed(mem, base, r, 15) && rsp == At(base, 15) && SameAbove(m, mem, base + 120)
      modifies this`rsp, this`mem
      ensures Pushed(mem, base, r, 8) && rsp == At(base, 8) && SameAbove(m, mem, base + 120)
    {
      hide Pushed, SameAbove, At;
      PushRegister(14, base, m);
      PushRegister(13, base, m);
      PushRegister(12, base, m);
      PushRegister(11, base, m);
      PushRegister(10, base, m);
      PushRegister(9, base, m);
      PushRegister(8, base, m);
    }

    /** r15 to r8 */
    method PushNumbered(ghost base: int, ghost m: Memory)
      requires Pushed(mem, base, r, 8) && rsp == At(base, 8) && SameAbove(m, mem, base + 120)
      modifies this`rsp, this`mem
      ensures Pushed(mem, base, r, 0) && rsp == At(base, 0) && SameAbove(m, mem, base + 120)
    {
      hide Pushed, SameAbove, At;
      PushRegister(7, base, m);
      PushRegister(6, base, m);
      PushRegister(5, base, m);
      PushRegister(4, base, m);
      PushRegister(3, base, m);
      PushRegister(2, base, m);
      PushRegister(1, base, m);
      PushRegister(0, base, m);
    }

    /**
    The call of the handler. It sees the saved words through rdi, may use the
    stack below and all registers, and leaves the words as they are except for
    the flags.
    */
    method CallHandler(after: Memory, clobbered: seq<int>, flags: int)
      requires rsp % 16 == 0 && |clobbered| == Registers && SameAbove(mem, after, rsp)
      requires rsp + 136 in mem && |r| == Registers
      modifies this`r, this`mem
      ensures r == clobbered && mem == after[rsp + 136 := flags]
    {
      r := r[RDI := rsp];
      mem := after[rsp + 136 := flags];
      r := clobbered;
    }

    /** popq %register */
    method Pop(k: nat, ghost base: int, ghost want: seq<int>, ghost sp: int, ghost ip: int, ghost flags: int)
      requires k < Registers == |r| && rsp == At(base, k) && Saved(mem, base, want, sp, ip, flags) && r[..k] == want[..k]
      modifies this`r, this`rsp
      ensures |r| == Registers && rsp == At(base, k + 1) && r[..k + 1] == want[..k + 1]
    {
      r := r[k := mem[rsp]];
      rsp := rsp + 8;
    }

    /** The pops of return_from_handler. */
    method RestoreRegisters(ghost want: seq<int>, ghost sp: int, ghost ip: int, ghost flags: int)
      requires |r| == Registers && Saved(mem, rsp, want, sp, ip, flags)
      modifies this`r, this`rsp
      ensures r == want && rsp == old(rsp) + 120
    {
      ghost var base := rsp;
      PopNumbered(base, want, sp, ip, flags);
      PopArguments(base, want, sp, ip, flags);
      assert r == r[..15] && want == want[..15];
    }

    /** r8 to r15 */
    method PopNumbered(ghost base: int, ghost want: seq<int>, ghost sp: int, ghost ip: int, ghost flags: int)
      requires Registers == |r| && rsp == At(base, 0) && Saved(mem, base, want, sp, ip, flags)
      modifies this`r, this`rsp
      ensures |r| == Registers && rsp == At(base, 8) && r[..8] == want[..8]
    {
      assert |want| == Registers && r[..0] == want[..0];
      hide Saved, At;
      Pop(0, base, want, sp, ip, flags);
      Pop(1, base, want, sp, ip, flags);
      Pop(2, base, want, sp, ip, flags);
      Pop(3, base, want, sp, ip, flags);
      Pop(4, base, want, sp, ip, flags);
      Pop(5, base, want, sp, ip, flags);
      Pop(6, base, want, sp, ip, flags);
      Pop(7, base, want, sp, ip, flags);
    }

    /** rdi, rsi, rbp, rbx, rdx, rax, rcx */
    method PopArguments(ghost base: int, ghost want: seq<int>, ghost sp: int, ghost ip: int, ghost flags: int)
      requires Registers == |r| && rsp == At(base, 8) && Saved(mem, base, want, sp, ip, flags) && r[..8] == want[..8]
      modifies this`r, this`rsp
      ensures |r| == Registers && rsp == At(base, 15) && r[..15] == want[..15]
    {
      assert |want| == Registers;
      hide Saved, At;
      Pop(8, base, want, sp, ip, flags);
      Pop(9, base, want, sp, ip, flags);
      Pop(10, base, want, sp, ip, flags);
      Pop(11, base, want, sp, ip, flags);
      Pop(12, base, want, sp, ip, flags);
      Pop(13, base, want, sp, ip, flags);
      Pop(14, base, want, sp, ip, flags);
    }

    method Store(a: int, v: int)
      modifies this`mem
      ensures mem == old(mem)[a := v]
    {
      mem := mem[a := v];
    }

    /** iret_to_dest_user_64: a frame built below the stack pointer with the help of rax only. */
    method ReturnByIret()
      requires |r| == Registers && rsp in mem && rsp + 8 in mem && rsp + 16 in mem
      modifies this
      ensures r == old(r) && rsp == old(mem)[old(rsp)] && rip == old(mem)[old(rsp) + 8] && rflags == old(mem)[old(rsp) + 16]
      ensures SameAbove(old(mem), mem, old(rsp))
    {
      ClearFrame();
      FillFrame(old(r)[RAX]);
      assert r == old(r);
      rsp := rsp - 128;
      Iret();
    }

    /** rax put aside, the frame cleared, the segments as they are. */
    method ClearFrame()
      requires |r| == Registers
      modifies this`mem
      ensures SameAbove(old(mem), mem, rsp) && Holds(mem, rsp - 8, r[RAX])
      ensures Holds(mem, rsp - 120, cs) && Holds(mem, rsp - 96, ss)
    {
      Store(rsp - 8, r[RAX]);
      Store(rsp - 128, 0);
      Store(rsp - 120, 0);
      Store(rsp - 112, 0);
      Store(rsp - 104, 0);
      Store(rsp - 96, 0);
      Store(rsp - 120, cs);
      Store(rsp - 96, ss);
    }

    /** The pc, the flags and the stack pointer copied through rax, and rax taken back. */
    method FillFrame(ghost rax: int)
      requires |r| == Registers && rsp in mem && rsp + 8 in mem && rsp + 16 in mem
      requires Holds(mem, rsp - 8, rax) && Holds(mem, rsp - 120, cs) && Holds(mem, rsp - 96, ss)
      modifies this`r, this`mem
      ensures r == old(r)[RAX := rax] && SameAbove(old(mem), mem, rsp)
      ensures Holds(mem, rsp - 128, old(mem)[rsp + 8]) && Holds(mem, rsp - 112, old(mem)[rsp + 16])
      ensures Holds(mem, rsp - 104, old(mem)[rsp]) && Holds(mem, rsp - 120, cs) && Holds(mem, rsp - 96, ss)
    {
      r := r[RAX := mem[rsp + 8]];
      Store(rsp - 128, r[RAX]);
      r := r[RAX := mem[rsp + 16]];
      Store(rsp - 112, r[RAX]);
      r := r[RAX := mem[rsp]];
      Store(rsp - 104, r[RAX]);
      r := r[RAX := mem[rsp - 8]];
    }

    /** iretq: the pc, the code segment, the flags, the stack pointer and the stack segment. */
    method Iret()
      requires rsp in mem && rsp + 8 in mem && rsp + 16 in mem && rsp + 24 in mem && rsp + 32 in mem
      requires mem[rsp + 8] == cs && mem[rsp + 32] == ss
      modifies this`rsp, this`rip, this`rflags
      ensures rip == mem[old(rsp)] && rflags == mem[old(rsp) + 16] && rsp == mem[old(rsp) + 24]
    {
      rip := mem[rsp];
      rflags := mem[rsp + 16];
      rsp := mem[rsp + 24];
    }

    /**
    From the fault to the return: whatever the handler does to registers and to
    the stack below it, the thread goes on where it was, with every register and
    its own part of the stack as before, and the flags as the handler left them.
    */
    method DeliverFault(handler: int, scratch: Memory, clobbered: seq<int>, flags: int)
      requires |r| == Registers && |clobbered| == Registers
      modifies this
      ensures r == old(r) && rsp == old(rsp) && rip == old(rip) && rflags == flags
      ensures SameAbove(old(mem), mem, old(rsp) - 160)
    {
      ghost var r0, sp0, ip0, fl0, m0 := r, rsp, rip, rflags, mem;
      Redirect(handler);
      ghost var m1, bottom := mem, rsp;
      SaveRegisters();
      ghost var m2 := mem;
      var after := Scribble(mem, rsp, scratch);
      CallHandler(after, clobbered, flags);
      HandlerKeeps(m2, after, mem, rsp, r0, sp0, ip0, fl0, flags);
      RestoreRegisters(r0, sp0, ip0, flags);
      ghost var m3 := mem;
      ReturnByIret();
      StackKept(m0, m1, m2, m3, mem, sp0, bottom);
    }
  }

  lemma NothingPushed(m: Memory, top: int, r: seq<int>)
    requires |r| == Registers
    ensures Pushed(m, top, r, 15)
  {}

  lemma SpecialWords(m0: Memory, m1: Memory, sp: int, rflags: int)
    requires sp in m0 && sp + 8 in m0
    requires m1 == m0[sp - 8 := rflags][sp - 16 := m0[sp + 8]][sp - 24 := m0[sp]]
    ensures SameAbove(m0, m1, sp)
  {}

  lemma SavedWords(m0: Memory, m1: Memory, m: Memory, sp: int, base: int, r: seq<int>, rflags: int)
    requires sp in m0 && sp + 8 in m0 && base == sp - 144
    requires m1 == m0[sp - 8 := rflags][sp - 16 := m0[sp + 8]][sp - 24 := m0[sp]]
    requires SameAbove(m0, m1, sp) && SameAbove(m1, m, sp - 24) && Pushed(m, base, r, 0)
    ensures Saved(m, base, r, m0[sp], m0[sp + 8], rflags) && SameAbove(m0, m, sp)
  {}

  /** Memory with anything at all below the stack pointer. */
  function Scribble(m: Memory, rsp: int, scratch: Memory): (n: Memory)
    ensures SameAbove(m, n, rsp)
  {
    map a | a in m.Keys + scratch.Keys :: if a + 8 > rsp && a in m then m[a] else if a in scratch then scratch[a] else m[a]
  }

  lemma HandlerKeeps(m: Memory, after: Memory, n: Memory, base: int, r: seq<int>, sp: int, ip: int, old_: int, flags: int)
    requires Saved(m, base, r, sp, ip, old_) && SameAbove(m, after, base) && n == after[base + 136 := flags]
    ensures Saved(n, base, r, sp, ip, flags)
  {}

  lemma StackKept(m0: Memory, m1: Memory, m2: Memory, m3: Memory, m4: Memory, sp: int, bottom: int)
    requires SameAbove(m0, m1, sp - 160) && bottom + 176 <= sp && SameAbove(m1, m2, bottom)
    requires SameAbove(m2, m3, sp - 160) && SameAbove(m3, m4, bottom - 24)
    ensures SameAbove(m0, m4, sp - 160)
  {}
}
