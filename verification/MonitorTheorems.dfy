/**
The theorems about whole monitored runs.
*/
module MonitorTheorems {
  import opened Lcg
  import opened Trace
  import opened FpControl
  import opened Monitor
  import opened MonitorMachine
  import opened MonitorRuns
  import opened MonitorSteps
  import opened Options

  // -- the unmonitored program ---------------------------------------------

  /** An instruction that has retired. */
  datatype Instruction = Instruction(pc: Word, word: bv32, events: bv32)

  /** The program on its own: its data, its pc and the instructions it has retired. */
  datatype Native = Native(data: Data, pc: Word, done: seq<Instruction>)

  function NativeStep(prog: Program, round: bv32, s: Native): Option<Native> {
    if s.pc >= |prog.text| then None
    else
      var o := prog.exec(prog.text[s.pc], s.pc, s.data, round);
      Some(Native(o.data, o.next, s.done + [Instruction(s.pc, prog.text[s.pc], o.events)]))
  }

  function NativeRun(prog: Program, round: bv32, s: Native, n: nat): Option<Native> {
    if n == 0 then Some(s)
    else
      var t :- NativeRun(prog, round, s, n - 1);
      NativeStep(prog, round, t)
  }

  /** The instructions a monitored run retired. */
  function Executed(marks: seq<Mark>): seq<Instruction> {
    if marks == [] then []
    else
      var k := marks[|marks| - 1];
      Executed(marks[..|marks| - 1]) + if k.Retire? then [Instruction(k.pc, k.word, k.events)] else []
  }

  lemma ExecutedSnoc(marks: seq<Mark>, k: Mark)
    ensures Executed(marks + [k]) == Executed(marks) + if k.Retire? then [Instruction(k.pc, k.word, k.events)] else []
  {
    assert (marks + [k])[..|marks|] == marks;
  }

  /** The monitored run so far is a native run. */
  ghost predicate Simulates(p: Params, prog: Program, m: Machine, s: Native, round: bv32) {
    && GetRound(p.arch, m.t.uc) == round
    && NativeRun(prog, round, s, |Executed(m.marks)|) == Some(Native(m.data, m.t.uc.pc, Executed(m.marks)))
  }

  lemma StepSimulates(p: Params, prog: Program, m: Machine, n: Machine, s: Native, round: bv32)
    requires p.period > 0 && Moved(p, prog, m, n) && Simulates(p, prog, m, s, round)
    requires !Forces(p)
    ensures Simulates(p, prog, n, s, round)
  {
    hide Enabled, HandledEvents, Faults, GetRound, Executed, After, Before, SameWakeUps, Enough, NativeRun, Forces;
    if Retired(p, prog, m, n) {
      var k := Retire(m.t.uc.pc, prog.text[m.t.uc.pc], Exec(p, prog, m).events, m.t.sampler.on);
      ExecutedSnoc(m.marks, k);
      NativeNext(prog, round, s, |Executed(m.marks)|);
    } else if |n.marks| > |m.marks| {
      ExecutedSnoc(m.marks, n.marks[|m.marks|]);
      assert Executed(n.marks) == Executed(m.marks);
    }
  }

  lemma NativeNext(prog: Program, round: bv32, s: Native, n: nat)
    requires NativeRun(prog, round, s, n).Some?
    ensures NativeRun(prog, round, s, n + 1) == NativeStep(prog, round, NativeRun(prog, round, s, n).value)
  {}

  // -- every fault is stepped over -------------------------------------------

  /** A fault is followed by its instruction and that by a trap, and traps have no other cause. */
  predicate ShapedAt(marks: seq<Mark>, i: nat) {
    i < |marks| ==>
      && (marks[i].Fault? && i + 1 < |marks| ==> marks[i + 1].Retire? && marks[i + 1].pc == marks[i].record.rip)
      && (marks[i].Fault? && i + 2 < |marks| ==> marks[i + 2].Trap?)
      && (marks[i].Trap? ==> i >= 2 && marks[i - 2].Fault?)
  }

  ghost predicate Shaped(marks: seq<Mark>) {
    forall i: nat :: ShapedAt(marks, i)
  }

  /** Marks beside the window of Good that Shaped needs. */
  lemma StepShaped(p: Params, prog: Program, m: Machine, n: Machine)
    requires p.period > 0 && Moved(p, prog, m, n) && Good(p, prog, m) && Shaped(m.marks)
    ensures Shaped(n.marks)
  {
    hide Enabled, HandledEvents, Faults, GetRound, SameWakeUps, Enough, Safe, Flags, ParamsOk, Forces;
    forall i: nat ensures ShapedAt(n.marks, i) {
      assert ShapedAt(m.marks, i);
      if m.t.state.AWAIT_TRAP? && i + 2 >= |m.marks| {
        LastFaultAt(m.marks);
      }
    }
  }

  lemma LastFaultAt(marks: seq<Mark>)
    ensures marks != [] && marks[|marks| - 1].Fault? ==> LastFault(marks) == marks[|marks| - 1].record.rip
    ensures |marks| >= 2 && !marks[|marks| - 1].Fault? && marks[|marks| - 2].Fault? ==>
              LastFault(marks) == marks[|marks| - 2].record.rip
  {}

  // -- the trace ---------------------------------------------------------------

  function FaultRecords(marks: seq<Mark>): seq<Record> {
    if marks == [] then []
    else
      var k := marks[|marks| - 1];
      FaultRecords(marks[..|marks| - 1]) + if k.Fault? then [k.record] else []
  }

  lemma FaultRecordsSnoc(marks: seq<Mark>, k: Mark)
    ensures FaultRecords(marks + [k]) == FaultRecords(marks) + if k.Fault? then [k.record] else []
  {
    assert (marks + [k])[..|marks|] == marks;
  }

  /** Elements 0, p, 2p, ... */
  function EveryNth(s: seq<Record>, p: nat): seq<Record>
    requires p > 0
  {
    if s == [] then []
    else EveryNth(s[..|s| - 1], p) + if (|s| - 1) % p == 0 then [s[|s| - 1]] else []
  }

  lemma EveryNthSnoc(s: seq<Record>, p: nat, r: Record)
    requires p > 0
    ensures EveryNth(s + [r], p) == EveryNth(s, p) + if |s| % p == 0 then [r] else []
  {
    assert (s + [r])[..|s|] == s;
  }

  lemma Multiples(n: nat, p: nat)
    requires p > 0
    ensures (n + p) / p == n / p + 1
    ensures n % p == 0 ==> (n + p - 1) / p == n / p && n == n / p * p
    ensures n % p != 0 ==> (n + p - 1) / p == n / p + 1
  {
    var q, r := n / p, n % p;
    assert n == q * p + r;
    Quotient(n + p, p, q + 1, r);
    if r == 0 {
      Quotient(n + p - 1, p, q, p - 1);
    } else {
      Quotient(n + p - 1, p, q + 1, r - 1);
    }
  }

  lemma Quotient(n: nat, p: nat, q: nat, r: nat)
    requires p > 0 && r < p && n == q * p + r
    ensures n / p == q
  {
    var d := n / p - q;
    assert n == (n / p) * p + n % p;
    assert p * d == r - n % p by {
      assert p * d == p * (n / p) - p * q;
    }
    Multiple(p, d, r - n % p);
  }

  /** The n-th element of the selection, and how many there are: n / p rounded up. */
  lemma {:induction false} EveryNthMeans(s: seq<Record>, p: nat)
    requires p > 0
    ensures |EveryNth(s, p)| == (|s| + p - 1) / p
    ensures forall i :: 0 <= i < |EveryNth(s, p)| ==> i * p < |s| && EveryNth(s, p)[i] == s[i * p]
  {
    if s == [] {
      Quotient(p - 1, p, 0, p - 1);
    } else {
      var init := s[..|s| - 1];
      EveryNthMeans(init, p);
      Multiples(|init|, p);
      var e := EveryNth(init, p);
      forall i | 0 <= i < |EveryNth(s, p)| ensures i * p < |s| && EveryNth(s, p)[i] == s[i * p] {
        if i < |e| {
          assert e[i] == init[i * p];
        }
      }
    }
  }

  /** How far the count of finished events has got, and what has been pushed. */
  predicate Recorded(p: Params, m: Machine)
    requires p.period > 0
  {
    var faults := FaultRecords(m.marks);
    var chosen := if p.createFile then EveryNth(faults, p.period) else [];
    && m.t.count + Count(m.t.state.AWAIT_TRAP?) == |faults|
    && (m.t.aborted && p.createFile ==>
          |m.t.pushed| > 0 && m.t.pushed == chosen + [AbortRecord(m.t.pushed[|m.t.pushed| - 1].time)])
    && (!m.t.aborted || !p.createFile ==> m.t.pushed == chosen)
  }

  lemma StepRecorded(p: Params, prog: Program, m: Machine, n: Machine)
    requires p.period > 0 && Moved(p, prog, m, n) && Flags(p, m) && Recorded(p, m)
    ensures Recorded(p, n)
  {
    hide Enabled, HandledEvents, Faults, GetRound, SameWakeUps, Enough, Before, After, RoundConfig, FaultRecords, EveryNth, Forces;
    if |n.marks| > |m.marks| {
      var k := n.marks[|m.marks|];
      FaultRecordsSnoc(m.marks, k);
      if k.Fault? {
        EveryNthSnoc(FaultRecords(m.marks), p.period, k.record);
        assert Faulted(p, prog, m, n) && FaultRecords(n.marks) == FaultRecords(m.marks) + [k.record];
      } else {
        assert FaultRecords(n.marks) == FaultRecords(m.marks);
      }
    }
  }

  // -- the sampler's wake-up -----------------------------------------------------

  lemma StepWakeUps(p: Params, prog: Program, m: Machine, n: Machine, wakeUps: nat)
    requires p.period > 0 && Moved(p, prog, m, n) && WakeUps(m) == wakeUps && wakeUps <= 1
    ensures WakeUps(n) == wakeUps
  {
    hide Enabled, HandledEvents, Faults, GetRound, Enough, Before, After, Forces;
  }

  // -- rounding ------------------------------------------------------------------

  /** The rounding bits in force: the monitor's from the start until enough has been recorded, otherwise the thread's own. */
  function InForce(p: Params, t: Thread, own: bv32): bv32 {
    if Forces(p) && (t.state.AWAIT_TRAP? || (t.state.AWAIT_FPE? && !(t.count > 0 && Enough(p, t.count)))) then p.ourRound
    else own
  }

  predicate RoundOk(p: Params, m: Machine, round: bv32) {
    && (Forces(p) || m.kicked ==> m.t.origRound == round) && (m.t.state.INIT? ==> m.t.count == 0)
    && GetRound(p.arch, m.t.uc) == InForce(p, m.t, round)
  }

  lemma StartedRound(p: Params, prog: Program, m: Machine, n: Machine, round: bv32)
    requires p.period > 0 && Started(p, m, n) && Flags(p, m) && RoundOk(p, m, round)
    ensures RoundOk(p, n, round)
  {
    hide Enabled, HandledEvents, Faults, GetRound, Before, After, SameWakeUps, Forces, RoundConfig, Enough;
  }

  lemma ResumedRound(p: Params, prog: Program, m: Machine, n: Machine, round: bv32)
    requires p.period > 0 && Resumed(p, m, n) && Flags(p, m) && RoundOk(p, m, round)
    ensures RoundOk(p, n, round)
  {
    hide Enabled, HandledEvents, Faults, GetRound, Before, After, SameWakeUps, Forces, RoundConfig, Enough;
  }

  lemma FaultedRound(p: Params, prog: Program, m: Machine, n: Machine, round: bv32)
    requires p.period > 0 && Faulted(p, prog, m, n) && Flags(p, m) && RoundOk(p, m, round)
    ensures RoundOk(p, n, round)
  {
    hide Enabled, HandledEvents, Faults, GetRound, Before, After, SameWakeUps, Forces, RoundConfig, Enough;
  }

  lemma RetiredRound(p: Params, prog: Program, m: Machine, n: Machine, round: bv32)
    requires p.period > 0 && Retired(p, prog, m, n) && Flags(p, m) && RoundOk(p, m, round)
    ensures RoundOk(p, n, round)
  {
    hide Enabled, HandledEvents, Faults, GetRound, Before, After, SameWakeUps, Forces, RoundConfig, Enough;
  }

  lemma TickedRound(p: Params, prog: Program, m: Machine, n: Machine, round: bv32)
    requires p.period > 0 && Ticked(p, m, n) && Flags(p, m) && RoundOk(p, m, round)
    ensures RoundOk(p, n, round)
  {
    hide Enabled, HandledEvents, Faults, GetRound, Before, After, SameWakeUps, Forces, RoundConfig, Enough;
  }

  lemma StepRoundOk(p: Params, prog: Program, m: Machine, n: Machine, round: bv32)
    requires p.period > 0 && Moved(p, prog, m, n) && Flags(p, m) && RoundOk(p, m, round)
    ensures RoundOk(p, n, round)
  {
    hide Started, Resumed, Faulted, Retired, Ticked, RoundOk, Flags;
    if Started(p, m, n) {
      StartedRound(p, prog, m, n, round);
    } else if Resumed(p, m, n) {
      ResumedRound(p, prog, m, n, round);
    } else if Faulted(p, prog, m, n) {
      FaultedRound(p, prog, m, n, round);
    } else if Retired(p, prog, m, n) {
      RetiredRound(p, prog, m, n, round);
    } else {
      TickedRound(p, prog, m, n, round);
    }
  }

  // -- listening and limits -----------------------------------------------------------

  /**
  What is unmasked while waiting for a fault: what is handled while the sampler is
  on, until enough has been recorded. Then it is nothing, unless the sampler has
  been switched on since.
  */
  predicate Listening(p: Params, m: Machine) {
    m.t.state.AWAIT_FPE? ==>
      var enabled, handled := Enabled(p.arch, m.t.uc), HandledEvents(p.arch, p.handled);
      if !m.t.sampler.on then enabled == 0
      else if m.t.count > 0 && Enough(p, m.t.count) then enabled == 0 || (WakeUps(m) > 0 && enabled == handled)
      else enabled == handled
  }

  /** The most faults a run may take: maxcount as a 64-bit number, but one at least. */
  function Limit(p: Params): nat {
    var limit := if p.maxcount < 0 then p.maxcount + Modulus else p.maxcount;
    if limit > 1 then limit else 1
  }

  predicate Bounded(p: Params, m: Machine) {
    p.maxcount != -1 && WakeUps(m) == 0 ==> m.t.count + Count(m.t.state.AWAIT_TRAP?) <= Limit(p)
  }

  lemma StepListening(p: Params, prog: Program, m: Machine, n: Machine)
    requires p.period > 0 && Moved(p, prog, m, n) && Flags(p, m) && SamplerOk(p, m.t) && Listening(p, m)
    requires m.t.state.INIT? ==> m.t.count == 0
    ensures Listening(p, n)
  {
    hide GetRound, Before, After, Forces, RoundConfig, Enough, Enabled, HandledEvents, Faults;
  }

  lemma StepBounded(p: Params, prog: Program, m: Machine, n: Machine)
    requires p.period > 0 && Moved(p, prog, m, n) && Listening(p, m) && Bounded(p, m) && WakeUps(m) == WakeUps(n)
    ensures Bounded(p, n)
  {
    hide GetRound, Before, After, Forces, RoundConfig, Enabled, HandledEvents, Faults, Switched, SameWakeUps, Listening, WakeUps, Enough, Limit;
    if Faulted(p, prog, m, n) && WakeUps(m) == 0 {
      FaultWithinLimit(p, prog, m);
    }
  }

  /** A thread without wake-ups that takes a fault has not recorded enough. */
  lemma FaultWithinLimit(p: Params, prog: Program, m: Machine)
    requires p.period > 0 && Listening(p, m) && m.t.state.AWAIT_FPE? && m.t.uc.pc < |prog.text|
    requires Faults(p.arch, m.t.uc, Exec(p, prog, m).events) && WakeUps(m) == 0
    ensures p.maxcount != -1 ==> m.t.count + 1 <= Limit(p)
  {
    var events := Exec(p, prog, m).events;
    NoBits(events);
    hide GetRound, Enabled, HandledEvents, WakeUps;
    assert Enabled(p.arch, m.t.uc) != 0;
  }

  // -- nothing goes unrecorded -------------------------------------------------------

  predicate Handled(p: Params, events: bv32) {
    events & HandledEvents(p.arch, p.handled) != 0
  }

  /** The instructions retired since the start that raised a handled event. */
  function Raised(p: Params, marks: seq<Mark>): seq<Word> {
    if marks == [] then []
    else
      var k := marks[|marks| - 1];
      if k.Start? then []
      else Raised(p, marks[..|marks| - 1]) + if k.Retire? && Handled(p, k.events) then [k.pc] else []
  }

  lemma RaisedSnoc(p: Params, marks: seq<Mark>, k: Mark)
    ensures Raised(p, marks + [k]) ==
      if k.Start? then [] else Raised(p, marks) + if k.Retire? && Handled(p, k.events) then [k.pc] else []
  {
    assert (marks + [k])[..|marks|] == marks;
  }

  /** Those of them that retired while the sampler was on. */
  function Sampled(p: Params, marks: seq<Mark>): seq<Word> {
    if marks == [] then []
    else
      var k := marks[|marks| - 1];
      if k.Start? then []
      else Sampled(p, marks[..|marks| - 1]) + if k.Retire? && k.on && Handled(p, k.events) then [k.pc] else []
  }

  lemma SampledSnoc(p: Params, marks: seq<Mark>, k: Mark)
    ensures Sampled(p, marks + [k]) ==
      if k.Start? then [] else Sampled(p, marks) + if k.Retire? && k.on && Handled(p, k.events) then [k.pc] else []
  {
    assert (marks + [k])[..|marks|] == marks;
  }

  function Addresses(rs: seq<Record>): seq<Word> {
    seq(|rs|, i requires 0 <= i < |rs| => rs[i].rip)
  }

  /** The faults are the sampled events, in order; the last one may still have to run. */
  predicate Complete(p: Params, prog: Program, m: Machine) {
    var seen := Addresses(FaultRecords(m.marks));
    match m.t.state
    case INIT => seen == []
    case AWAIT_FPE => seen == Sampled(p, m.marks)
    case AWAIT_TRAP =>
      if Before(p, prog, m) then
        seen == Sampled(p, m.marks) + [m.t.uc.pc] && Handled(p, Exec(p, prog, m).events)
      else seen == Sampled(p, m.marks)
    case ABORT => true
  }

  lemma RetiredComplete(p: Params, prog: Program, m: Machine, n: Machine)
    requires p.period > 0 && Retired(p, prog, m, n) && SamplerOk(p, m.t) && Listening(p, m)
    requires p.maxcount == -1 && Complete(p, prog, m)
    ensures Complete(p, prog, n)
  {
    hide GetRound, Forces, Enabled, HandledEvents, FaultRecords, Sampled, LastFault, SameWakeUps;
    var k := n.marks[|m.marks|];
    FaultRecordsSnoc(m.marks, k);
    SampledSnoc(p, m.marks, k);
  }

  lemma FaultedComplete(p: Params, prog: Program, m: Machine, n: Machine, round: bv32)
    requires p.period > 0 && Faulted(p, prog, m, n) && Listening(p, m) && RoundOk(p, m, round)
    requires p.maxcount == -1 && Complete(p, prog, m)
    ensures Complete(p, prog, n)
  {
    hide Forces, Enabled, HandledEvents, FaultRecords, Sampled, LastFault, SameWakeUps;
    var k := n.marks[|m.marks|];
    FaultRecordsSnoc(m.marks, k);
    SampledSnoc(p, m.marks, k);
    var s, t := Addresses(FaultRecords(m.marks)), Addresses(FaultRecords(n.marks));
    assert t == s + [m.t.uc.pc];
  }

  lemma OtherwiseComplete(p: Params, prog: Program, m: Machine, n: Machine)
    requires p.period > 0 && (Started(p, m, n) || Resumed(p, m, n) || Ticked(p, m, n)) && Flags(p, m)
    requires Complete(p, prog, m)
    ensures Complete(p, prog, n)
  {
    hide GetRound, Forces, RoundConfig, Enabled, HandledEvents, FaultRecords, Sampled, LastFault, Switched, SameWakeUps, Handled, Enough;
    if |n.marks| > |m.marks| {
      var k := n.marks[|m.marks|];
      FaultRecordsSnoc(m.marks, k);
      SampledSnoc(p, m.marks, k);
    }
  }

  lemma StepComplete(p: Params, prog: Program, m: Machine, n: Machine, round: bv32)
    requires p.period > 0 && Moved(p, prog, m, n) && Good(p, prog, m) && Listening(p, m) && RoundOk(p, m, round)
    requires p.maxcount == -1 && Complete(p, prog, m)
    ensures Complete(p, prog, n)
  {
    assert SamplerOk(p, m.t);
    hide Started, Resumed, Faulted, Retired, Ticked, Complete, Listening, RoundOk, Safe, Window, Flags, SamplerOk;
    if Retired(p, prog, m, n) {
      RetiredComplete(p, prog, m, n);
    } else if Faulted(p, prog, m, n) {
      FaultedComplete(p, prog, m, n, round);
    } else {
      OtherwiseComplete(p, prog, m, n);
    }
  }

  /** Without timers the sampler is always on. */
  predicate Unsampled(p: Params, m: Machine) {
    !p.timers ==> Sampled(p, m.marks) == Raised(p, m.marks)
  }

  lemma StepUnsampled(p: Params, prog: Program, m: Machine, n: Machine)
    requires p.period > 0 && Moved(p, prog, m, n) && SamplerOk(p, m.t) && Unsampled(p, m)
    ensures Unsampled(p, n)
  {
    hide GetRound, Forces, RoundConfig, Enabled, HandledEvents, Raised, Sampled, Handled, Switched, SameWakeUps, Faults, Before, After, Enough;
    if |n.marks| > |m.marks| {
      var k := n.marks[|m.marks|];
      RaisedSnoc(p, m.marks, k);
      SampledSnoc(p, m.marks, k);
    }
  }

  // -- whole runs ----------------------------------------------------------------------

  ghost predicate Whole(p: Params, prog: Program, m: Machine, s: Native, round: bv32, wakeUps: nat)
    requires p.period > 0
  {
    && Good(p, prog, m) && Shaped(m.marks) && Recorded(p, m) && WakeUps(m) == wakeUps && wakeUps <= 1
    && RoundOk(p, m, round) && (!Forces(p) ==> Simulates(p, prog, m, s, round))
    && (m.t.state.INIT? ==> m.t.count == 0)
    && Listening(p, m) && Unsampled(p, m) && Bounded(p, m)
    && (p.maxcount == -1 ==> Complete(p, prog, m))
  }

  lemma StepWhole(p: Params, prog: Program, m: Machine, e: Event, s: Native, round: bv32, wakeUps: nat)
    requires ParamsOk(p) && ProgramOk(p, prog) && Whole(p, prog, m, s, round, wakeUps) && Do(p, prog, m, e).Some?
    ensures Whole(p, prog, Do(p, prog, m, e).value, s, round, wakeUps)
  {
    var n := Do(p, prog, m, e).value;
    assert p.period > 0;
    hide Do, Shaped, Recorded, WakeUps, RoundOk, Simulates, Listening, Unsampled, Bounded, Complete, ProgramOk, ParamsOk, Forces,
      Started, Resumed, Faulted, Retired, Ticked, Window, CodeOk, MaskOk, RoundConfig;
    StepGood(p, prog, m, e);
    StepMoved(p, prog, m, e);
    StepShaped(p, prog, m, n);
    StepRecorded(p, prog, m, n);
    StepWakeUps(p, prog, m, n, wakeUps);
    StepRoundOk(p, prog, m, n, round);
    StepInit(p, prog, m, n);
    if !Forces(p) {
      StepSimulates(p, prog, m, n, s, round);
    }
    StepListening(p, prog, m, n);
    StepUnsampled(p, prog, m, n);
    StepBounded(p, prog, m, n);
    if p.maxcount == -1 {
      StepComplete(p, prog, m, n, round);
    }
  }

  lemma StepInit(p: Params, prog: Program, m: Machine, n: Machine)
    requires p.period > 0 && Moved(p, prog, m, n) && (m.t.state.INIT? ==> m.t.count == 0)
    ensures n.t.state.INIT? ==> n.t.count == 0
  {
    hide Enabled, HandledEvents, Faults, GetRound, Before, After, SameWakeUps, Forces, Enough;
  }

  /** The unmonitored program, started where the machine is. */
  function Alone(m: Machine): Native {
    Native(m.data, m.t.uc.pc, [])
  }

  lemma InitialWhole(p: Params, prog: Program, m: Machine, seed: Word)
    requires ParamsOk(p) && Initial(p, prog, m, seed)
    ensures Whole(p, prog, m, Alone(m), GetRound(p.arch, m.t.uc), Count(m.t.timer > 0))
  {
    InitialGood(p, prog, m, seed);
    hide GetRound, Good, Enabled, ParamsOk;
  }

  lemma {:induction false} RunWhole(p: Params, prog: Program, m: Machine, seed: Word, es: seq<Event>)
    requires ParamsOk(p) && ProgramOk(p, prog) && Initial(p, prog, m, seed) && Run(p, prog, m, es).Some?
    ensures Whole(p, prog, Run(p, prog, m, es).value, Alone(m), GetRound(p.arch, m.t.uc), Count(m.t.timer > 0))
  {
    hide Whole, ProgramOk, Initial, Do, GetRound;
    if es == [] {
      InitialWhole(p, prog, m, seed);
    } else {
      RunWhole(p, prog, m, seed, es[..|es| - 1]);
      var n := Run(p, prog, m, es[..|es| - 1]).value;
      StepWhole(p, prog, n, es[|es| - 1], Alone(m), GetRound(p.arch, m.t.uc), Count(m.t.timer > 0));
    }
  }

  /**
  Monitoring is invisible: what the monitored program has retired, its data and
  its pc are those of the program on its own after as many instructions.
  */
  lemma Transparent(p: Params, prog: Program, m: Machine, seed: Word, es: seq<Event>)
    requires ParamsOk(p) && ProgramOk(p, prog) && Initial(p, prog, m, seed) && Run(p, prog, m, es).Some?
    requires !Forces(p)
    ensures var n := Run(p, prog, m, es).value;
      NativeRun(prog, GetRound(p.arch, m.t.uc), Alone(m), |Executed(n.marks)|)
        == Some(Native(n.data, n.t.uc.pc, Executed(n.marks)))
  {
    RunWhole(p, prog, m, seed, es);
  }

  /** Every fault is re-executed once, masked, and then trapped; no trap has another cause. */
  lemma FaultsAreStepped(p: Params, prog: Program, m: Machine, seed: Word, es: seq<Event>, i: nat)
    requires ParamsOk(p) && ProgramOk(p, prog) && Initial(p, prog, m, seed) && Run(p, prog, m, es).Some?
    ensures ShapedAt(Run(p, prog, m, es).value.marks, i)
  {
    RunWhole(p, prog, m, seed, es);
    hide Good, Recorded, WakeUps, RoundOk, Simulates, Listening, Bounded, Complete, ShapedAt;
  }

  /** The invariants of the state machine, its breakpoints and its sampler. */
  lemma StateMachineSafety(p: Params, prog: Program, m: Machine, seed: Word, es: seq<Event>)
    requires ParamsOk(p) && ProgramOk(p, prog) && Initial(p, prog, m, seed) && Run(p, prog, m, es).Some?
    ensures var n := Run(p, prog, m, es).value;
      && (n.t.state.AWAIT_TRAP? ==> n.t.sampler.on)
      && (n.t.state.AWAIT_TRAP? || n.t.state.ABORT? || !n.t.sampler.on ==> Enabled(p.arch, n.t.uc) == 0)
      && (p.arch.X64? ==> SingleStep(n.t.uc) == n.t.state.AWAIT_TRAP?)
      && (p.arch.Arm64? ==> (TrapFlag(n.t.trapMode) == TRAP_MODE_ON) == n.t.state.AWAIT_TRAP?)
      && !n.t.abortingInTrap
  {
    RunGood(p, prog, m, seed, es);
    hide Window, LastFault, Enabled, TrapInst, ParamsOk, ProgramOk, Initial, Run, OnlyHandled, RoundConfig;
  }

  /** Neither "surprise state" branch can be taken. */
  lemma NoSurprise(p: Params, prog: Program, m: Machine, seed: Word, es: seq<Event>)
    requires ParamsOk(p) && ProgramOk(p, prog) && Initial(p, prog, m, seed) && Run(p, prog, m, es).Some?
    ensures var n := Run(p, prog, m, es).value;
      && (n.trapPending ==> n.t.state.AWAIT_TRAP?)
      && (p.arch.Arm64? && !n.trapPending && n.t.uc.pc < |n.t.uc.text| && n.t.uc.text[n.t.uc.pc] == BRK_INSTR ==> n.t.state.AWAIT_TRAP?)
      && (forall events :: Faults(p.arch, n.t.uc, events) ==> n.t.state.AWAIT_FPE?)
  {
    RunGood(p, prog, m, seed, es);
    var n := Run(p, prog, m, es).value;
    hide ParamsOk, ProgramOk, Initial, Run, Safe, LastFault, Faults, RoundConfig;
    forall events | Faults(p.arch, n.t.uc, events) ensures n.t.state.AWAIT_FPE? {
      FaultMeansListening(p, prog, n, events);
    }
    if !n.trapPending && n.t.uc.pc < |n.t.uc.text| {
      Fetch(p, prog, n);
    }
  }

  /**
  On arm64 the text is the program's own except while waiting for a trap, when
  one word holds the breakpoint and the thread remembers what it replaced.
  */
  lemma TextIntact(p: Params, prog: Program, m: Machine, seed: Word, es: seq<Event>)
    requires ParamsOk(p) && ProgramOk(p, prog) && Initial(p, prog, m, seed) && Run(p, prog, m, es).Some?
    ensures var n := Run(p, prog, m, es).value;
      if p.arch.Arm64? && n.t.state.AWAIT_TRAP? then
        && At(n) + 1 < |prog.text| && n.t.uc.text == prog.text[At(n) + 1 := BRK_INSTR]
        && TrapInst(n.t.trapMode) == prog.text[At(n) + 1]
      else n.t.uc.text == prog.text
  {
    RunGood(p, prog, m, seed, es);
    hide Window, LastFault, Enabled, TrapFlag, TrapInst, SingleStep, ParamsOk, ProgramOk, Initial, Run, MaskOk, RoundConfig;
  }

  /** The trace is every p-th fault, and after an abort one record more. */
  lemma TraceIsSample(p: Params, prog: Program, m: Machine, seed: Word, es: seq<Event>)
    requires ParamsOk(p) && ProgramOk(p, prog) && Initial(p, prog, m, seed) && Run(p, prog, m, es).Some?
    requires p.createFile
    ensures var n := Run(p, prog, m, es).value;
      var faults := FaultRecords(n.marks);
      && |n.t.pushed| == (|faults| + p.period - 1) / p.period + Count(n.t.aborted)
      && (forall i :: 0 <= i < |n.t.pushed| - Count(n.t.aborted) ==> i * p.period < |faults| && n.t.pushed[i] == faults[i * p.period])
      && (n.t.aborted ==> exists time :: n.t.pushed[|n.t.pushed| - 1] == AbortRecord(time))
      && n.t.count == |faults| - Count(n.t.state.AWAIT_TRAP?)
  {
    RunWhole(p, prog, m, seed, es);
    var n := Run(p, prog, m, es).value;
    hide ParamsOk, ProgramOk, Initial, Run, Good, Shaped, WakeUps, RoundOk, Simulates, Listening, Bounded, Complete,
      FaultRecords, EveryNth;
    EveryNthMeans(FaultRecords(n.marks), p.period);
  }

  /**
  Without a limit, a thread waiting for a fault listens to what is handled exactly
  while the sampler is on, and the faults so far are exactly the instructions that
  raised a handled event while it was.
  */
  lemma SampledExactly(p: Params, prog: Program, m: Machine, seed: Word, es: seq<Event>)
    requires ParamsOk(p) && ProgramOk(p, prog) && Initial(p, prog, m, seed) && Run(p, prog, m, es).Some?
    requires p.maxcount == -1
    ensures var n := Run(p, prog, m, es).value;
      n.t.state.AWAIT_FPE? ==>
        && Enabled(p.arch, n.t.uc) == (if n.t.sampler.on then HandledEvents(p.arch, p.handled) else 0)
        && Addresses(FaultRecords(n.marks)) == Sampled(p, n.marks)
  {
    RunWhole(p, prog, m, seed, es);
    hide ParamsOk, ProgramOk, Initial, Run, Good, Shaped, WakeUps, RoundOk, Simulates, Bounded, FaultRecords, Sampled, Recorded,
      Unsampled, Enabled, HandledEvents;
  }

  /**
  Without timers and a limit, the faults of a run that is not aborted are
  exactly the instructions that raised a handled event since the start.
  */
  lemma NothingMissed(p: Params, prog: Program, m: Machine, seed: Word, es: seq<Event>)
    requires ParamsOk(p) && ProgramOk(p, prog) && Initial(p, prog, m, seed) && Run(p, prog, m, es).Some?
    requires !p.timers && p.maxcount == -1
    ensures var n := Run(p, prog, m, es).value;
      n.t.state.AWAIT_FPE? ==> Addresses(FaultRecords(n.marks)) == Raised(p, n.marks)
  {
    RunWhole(p, prog, m, seed, es);
    hide ParamsOk, ProgramOk, Initial, Run, Good, Shaped, WakeUps, RoundOk, Simulates, Listening, Bounded,
      FaultRecords, Raised, Sampled, Recorded;
  }

  /** A thread without wake-ups, for lack of timers or of a first interval, takes no more faults than maxcount, or one. */
  lemma FaultsLimited(p: Params, prog: Program, m: Machine, seed: Word, es: seq<Event>)
    requires ParamsOk(p) && ProgramOk(p, prog) && Initial(p, prog, m, seed) && Run(p, prog, m, es).Some?
    requires p.maxcount != -1 && (p.timers ==> NextExp(p, seed, p.onMean).1 == 0)
    ensures |FaultRecords(Run(p, prog, m, es).value.marks)| <= Limit(p)
  {
    RunWhole(p, prog, m, seed, es);
    assert m.t.timer == 0;
    hide ParamsOk, ProgramOk, Initial, Run, Good, Shaped, WakeUps, RoundOk, Simulates, Listening, Complete,
      FaultRecords, EveryNth;
  }

  /**
  With timers, exactly one of armed timer, pending alarm and delayed switch
  holds throughout if the first interval drawn is not zero, and none ever if it is.
  */
  lemma WakeUpKept(p: Params, prog: Program, m: Machine, seed: Word, es: seq<Event>)
    requires ParamsOk(p) && ProgramOk(p, prog) && Initial(p, prog, m, seed) && Run(p, prog, m, es).Some?
    requires p.timers
    ensures WakeUps(Run(p, prog, m, es).value) == if NextExp(p, seed, p.onMean).1 == 0 then 0 else 1
  {
    RunWhole(p, prog, m, seed, es);
    hide ParamsOk, ProgramOk, Run, Good, Shaped, RoundOk, Simulates, Listening, Complete, Recorded, Bounded, NextExp, Enabled;
    TimerSet(0, NextExp(p, seed, p.onMean).1);
  }

  /** A drawn number of microseconds, made at least one and at most the cap. */
  function Confined(drawn: nat, cap: nat): nat {
    if drawn < 1 then 1 else if drawn > cap then cap else drawn
  }

  /**
  Every interval set by the sampler is drawn for the mean of the state entered,
  from the next word of the generator with its lowest bit cleared, and confined
  to the cap of that state.
  */
  lemma IntervalsDrawn(p: Params, t: Thread)
    requires ParamsOk(p)
    ensures var t1 := UpdateSampler(p, t);
      && t1.sampler.on == !t.sampler.on && t1.sampler.xi == Next(t.sampler.xi)
      && exists w: Word :: w % 2 == 0 && w / 2 == t1.sampler.xi / 2
           && t1.timer == if t1.sampler.on then Confined(p.draw(w, p.onMean), p.maxOn) else Confined(p.draw(w, p.offMean), p.maxOff)
  {
    hide ResetTrap, SetTimer, Next;
    var xi := Next(t.sampler.xi);
    var w: Word := xi - xi % 2;
    assert w % 2 == 0 && w / 2 == xi / 2;
    var n := Interval(p, t.sampler.on, NextExp(p, t.sampler.xi, if t.sampler.on then p.offMean else p.onMean).1);
    TimerSet(t.timer, n);
  }

  /**
  Where the monitor forces the rounding configuration, it is in force from the
  start until enough has been recorded; before, afterwards and after every abort
  the thread has its own.
  */
  lemma RoundingRestored(p: Params, prog: Program, m: Machine, seed: Word, es: seq<Event>)
    requires ParamsOk(p) && ProgramOk(p, prog) && Initial(p, prog, m, seed) && Run(p, prog, m, es).Some?
    ensures var n := Run(p, prog, m, es).value;
      && GetRound(p.arch, n.t.uc) == InForce(p, n.t, GetRound(p.arch, m.t.uc))
      && (n.t.state.ABORT? ==> GetRound(p.arch, n.t.uc) == GetRound(p.arch, m.t.uc))
  {
    RunWhole(p, prog, m, seed, es);
    hide ParamsOk, ProgramOk, Initial, Run, Good, Shaped, WakeUps, Simulates, Listening, Complete, Recorded, Bounded, GetRound, Forces;
  }

  // -- progress -----------------------------------------------------------------------------

  lemma RunSnoc(p: Params, prog: Program, m: Machine, es: seq<Event>, e: Event)
    requires p.period > 0 && Run(p, prog, m, es).Some?
    ensures Run(p, prog, m, es + [e]) == Do(p, prog, Run(p, prog, m, es).value, e)
  {
    assert (es + [e])[..|es|] == es;
  }

  /** Where no trap is due the processor is not stuck, and a masked instruction retires. */
  lemma CpuProgress(p: Params, prog: Program, m: Machine, info: Info)
    requires ParamsOk(p) && ProgramOk(p, prog) && Good(p, prog, m) && !m.trapPending && m.t.uc.pc < |prog.text|
    ensures Do(p, prog, m, Cpu(info)).Some?
    ensures var n := Do(p, prog, m, Cpu(info)).value;
      && Good(p, prog, n)
      && (if m.t.state.AWAIT_TRAP? && After(p, m) then Resumed(p, m, n)
          else Retired(p, prog, m, n) || (!m.t.state.AWAIT_TRAP? && Faulted(p, prog, m, n)))
  {
    Fetch(p, prog, m);
    hide ProgramOk, Safe, Flags, BrkTrap, FpTrap, FenvCall, LastFault, Faults, GetRound, Forces, Enabled;
    CpuMoved(p, prog, m, info);
    CpuGood(p, prog, m, info);
  }

  lemma ResumeProgress(p: Params, prog: Program, m: Machine, info: Info) returns (e: Event)
    requires ParamsOk(p) && ProgramOk(p, prog) && Good(p, prog, m) && m.t.uc.pc < |prog.text|
    requires m.t.state.AWAIT_TRAP? && After(p, m)
    ensures Do(p, prog, m, e).Some?
    ensures Good(p, prog, Do(p, prog, m, e).value) && Resumed(p, m, Do(p, prog, m, e).value)
  {
    if p.arch.X64? {
      e := Step(info.time);
      hide BrkTrap, Good, Resumed;
      TrapGood(p, prog, m, Do(p, prog, m, e).value, info.time);
      ResumedBy(p, prog, m, Do(p, prog, m, e).value, info.time);
    } else {
      e := Cpu(info);
      CpuProgress(p, prog, m, info);
    }
  }

  function Retirements(p: Params, prog: Program, m: Machine, es: seq<Event>): nat
    requires p.period > 0 && Run(p, prog, m, es).Some?
  {
    |Executed(Run(p, prog, m, es).value.marks)|
  }

  /** One more event of the processor, after which the next instruction has retired unless it faulted. */
  lemma CpuNext(p: Params, prog: Program, m: Machine, es: seq<Event>, info: Info)
    requires ParamsOk(p) && ProgramOk(p, prog) && Run(p, prog, m, es).Some?
    requires var n := Run(p, prog, m, es).value;
      Good(p, prog, n) && n.t.uc.pc < |prog.text| && !(n.t.state.AWAIT_TRAP? && After(p, n))
    ensures Run(p, prog, m, es + [Cpu(info)]).Some?
    ensures var n, n1 := Run(p, prog, m, es).value, Run(p, prog, m, es + [Cpu(info)]).value;
      || Retirements(p, prog, m, es + [Cpu(info)]) == Retirements(p, prog, m, es) + 1
      || (Retirements(p, prog, m, es + [Cpu(info)]) == Retirements(p, prog, m, es)
          && !n.t.state.AWAIT_TRAP? && Good(p, prog, n1) && Before(p, prog, n1) && n1.t.uc.pc < |prog.text|)
  {
    var n := Run(p, prog, m, es).value;
    assert p.period > 0;
    hide ProgramOk, ParamsOk, Good, Do, Executed, LastFault, GetRound, Faults, Forces, Enabled, HandledEvents, Enough,
      SameWakeUps, Before, After, Run;
    NotDue(p, prog, n);
    CpuProgress(p, prog, n, info);
    RunSnoc(p, prog, m, es, Cpu(info));
    var n1 := Do(p, prog, n, Cpu(info)).value;
    ExecutedSnoc(n.marks, n1.marks[|n.marks|]);
  }

  /**
  The monitor never holds the program up: from every state between or around
  faults, the next instruction retires within three events.
  */
  lemma Progress(p: Params, prog: Program, m: Machine, info: Info) returns (es: seq<Event>)
    requires ParamsOk(p) && ProgramOk(p, prog) && Good(p, prog, m) && m.t.uc.pc < |prog.text|
    ensures |es| <= 3 && Run(p, prog, m, es).Some?
    ensures Retirements(p, prog, m, es) == |Executed(m.marks)| + 1
  {
    es := [];
    if m.t.state.AWAIT_TRAP? && After(p, m) {
      es := ResumeFirst(p, prog, m, info);
    }
    hide ProgramOk, ParamsOk, Good, Do, Executed, LastFault, Before, After, Run;
    CpuNext(p, prog, m, es, info);
    var k := Retirements(p, prog, m, es);
    es := es + [Cpu(info)];
    if Retirements(p, prog, m, es) == k {
      BeforeNotDue(p, prog, Run(p, prog, m, es).value);
      CpuNext(p, prog, m, es, info);
      es := es + [Cpu(info)];
    }
  }

  lemma ResumeFirst(p: Params, prog: Program, m: Machine, info: Info) returns (es: seq<Event>)
    requires ParamsOk(p) && ProgramOk(p, prog) && Good(p, prog, m) && m.t.uc.pc < |prog.text|
    requires m.t.state.AWAIT_TRAP? && After(p, m)
    ensures |es| == 1 && Run(p, prog, m, es).Some? && Retirements(p, prog, m, es) == |Executed(m.marks)|
    ensures var n := Run(p, prog, m, es).value;
      Good(p, prog, n) && n.t.uc.pc == m.t.uc.pc && !n.t.state.AWAIT_TRAP?
  {
    var e := ResumeProgress(p, prog, m, info);
    hide ProgramOk, ParamsOk, Good, Do, Executed, LastFault, GetRound, Forces, Enabled, HandledEvents, Enough, SameWakeUps, After;
    RunSnoc(p, prog, m, [], e);
    es := [] + [e];
    ExecutedSnoc(m.marks, Trap);
  }

  lemma NotDue(p: Params, prog: Program, m: Machine)
    requires Good(p, prog, m) && !(m.t.state.AWAIT_TRAP? && After(p, m))
    ensures !m.trapPending
  {
    hide Safe, Flags, LastFault;
  }

  lemma BeforeNotDue(p: Params, prog: Program, m: Machine)
    requires Before(p, prog, m)
    ensures !m.trapPending && !After(p, m)
  {}
}
