// The single-hart CPU of cpu_single_hart.cpp: run() seeds the stack pointer
// x2 with the memory size and then ticks the hart until it halts or, when a
// limit is given, until the instruction counter reaches the limit.
//
// A program can loop forever (`jal x0, 0`) and, with no limit, run() then
// never returns. A Dafny method must terminate, so the model takes a bound
// `fuel` on the number of ticks; FuelIrrelevant shows that a run which stops
// within its fuel ends in the same state with any larger fuel.

module Cpu {
  import opened Word
  import opened Regs
  import opened HartSpec
  import HartProps
  import Machine

  /** regs.set(2, mem.get_size()): only x2 changes. */
  function Seed(s: State): (t: State)
    requires Valid(s)
    ensures Valid(t)
  {
    SetKeepsWellformed(s.regs, 2, |s.mem| as bv32);
    s.(regs := RegSet(s.regs, 2, |s.mem| as bv32))
  }

  /** Whether the loops of run() stop in state s: the hart is halted, or a
      limit is set and the counter has reached it. */
  predicate Stopped(s: State, limit: nat)
  {
    s.halt || (limit != 0 && s.insnCounter == limit)
  }

  /** What the loops of run() rely on about a tick: it keeps the state
      well-formed, keeps mhartid and the memory size, and either counts one
      instruction or counts none and halts (a misaligned pc). The hart's
      TickAny has these properties (TickAnyTicks). */
  ghost predicate Ticks(step: State -> State)
  {
    forall s {:trigger step(s)} :: Valid(s) ==>
      && Valid(step(s))
      && step(s).mhartid == s.mhartid
      && |step(s).mem| == |s.mem|
      && (|| step(s).insnCounter == s.insnCounter + 1
          || (step(s).insnCounter == s.insnCounter && step(s).halt))
  }

  /** The loops of run() with the transition step, at most fuel turns. */
  function Loop(step: State -> State, s: State, limit: nat, fuel: nat): State
    decreases fuel
  {
    if Stopped(s, limit) || fuel == 0 then s
    else Loop(step, step(s), limit, fuel - 1)
  }

  /** run(exec_limit), with at most fuel ticks. */
  function RunSpec(s: State, limit: nat, fuel: nat): State
    requires Valid(s)
  {
    Loop(TickAny, Seed(s), limit, fuel)
  }

  /** run(exec_limit) on the hart h: seed x2, then the loop for a zero limit
      or the loop for a non-zero limit. The final messages are output and are
      not modelled. */
  method Run(h: Machine.Hart, execLimit: nat, fuel: nat)
    requires h.Valid()
    modifies h, h.regs, h.mem
    ensures h.Valid() && h.Abs() == RunSpec(old(h.Abs()), execLimit, fuel)
  {
    h.regs.Set(2, h.mem.GetSize());
    assert h.Abs() == Seed(old(h.Abs()));
    if execLimit == 0 {
      RunUnlimited(h, fuel);
    } else {
      RunLimited(h, execLimit, fuel);
    }
  }

  /** The loop of run() without a limit: tick until the hart halts. */
  method RunUnlimited(h: Machine.Hart, fuel: nat)
    requires h.Valid()
    modifies h, h.regs, h.mem
    ensures h.Valid() && h.Abs() == Loop(TickAny, old(h.Abs()), 0, fuel)
  {
    ghost var target := Loop(TickAny, h.Abs(), 0, fuel);
    var n := fuel;
    while !h.IsHalted() && n > 0
      invariant h.Valid()
      invariant Loop(TickAny, h.Abs(), 0, n) == target
      decreases n
    {
      h.Tick();
      n := n - 1;
    }
  }

  /** The loop of run() with a limit: tick until the hart halts or the
      counter reaches the limit. */
  method RunLimited(h: Machine.Hart, execLimit: nat, fuel: nat)
    requires h.Valid() && execLimit != 0
    modifies h, h.regs, h.mem
    ensures h.Valid() && h.Abs() == Loop(TickAny, old(h.Abs()), execLimit, fuel)
  {
    ghost var target := Loop(TickAny, h.Abs(), execLimit, fuel);
    var n := fuel;
    while !h.IsHalted() && h.GetInsnCounter() != execLimit && n > 0
      invariant h.Valid()
      invariant Loop(TickAny, h.Abs(), execLimit, n) == target
      decreases n
    {
      h.Tick();
      n := n - 1;
    }
  }

  // ---------------------------------------------------------------------
  // Properties of run()

  /** The hart's tick has what the loops rely on. */
  lemma TickAnyTicks()
    ensures Ticks(TickAny)
  {
    forall s | Valid(s)
      ensures Valid(TickAny(s)) && TickAny(s).mhartid == s.mhartid && |TickAny(s).mem| == |s.mem|
      ensures || TickAny(s).insnCounter == s.insnCounter + 1
              || (TickAny(s).insnCounter == s.insnCounter && TickAny(s).halt)
    {
      HartProps.TickCounts(s);
      if s.pc & 3 != 0 {
        HartProps.TickMisaligned(s);
      }
    }
  }

  /** The loops keep the state well-formed, mhartid and the memory size. */
  lemma {:induction false} LoopKeeps(step: State -> State, s: State, limit: nat, fuel: nat)
    requires Ticks(step) && Valid(s)
    ensures var t := Loop(step, s, limit, fuel);
      Valid(t) && t.mhartid == s.mhartid && |t.mem| == |s.mem|
    decreases fuel
  {
    if !(Stopped(s, limit) || fuel == 0) {
      LoopKeeps(step, step(s), limit, fuel - 1);
    }
  }

  /** Seeding writes the memory size into x2 and touches nothing else. */
  lemma SeedWritesSp(s: State)
    requires Valid(s)
    ensures var t := Seed(s);
      && RegGet(t.regs, 2) == |s.mem| as bv32
      && (forall r :: 0 <= r < Count && r != 2 ==> RegGet(t.regs, r) == RegGet(s.regs, r))
      && t == s.(regs := t.regs)
  {
    var t := Seed(s);
    forall r | 0 <= r < Count && r != 2
      ensures RegGet(t.regs, r) == RegGet(s.regs, r)
    {
      SetGet(s.regs, 2, |s.mem| as bv32, r);
    }
    SetGet(s.regs, 2, |s.mem| as bv32, 2);
  }

  /** A hart that is halted on entry is not ticked: only x2 changes. */
  lemma HaltedOnEntry(s: State, limit: nat, fuel: nat)
    requires Valid(s) && s.halt
    ensures RunSpec(s, limit, fuel) == Seed(s)
  {
  }

  /** The loops stop in a stopped state, whatever the fuel. */
  lemma StoppedStays(step: State -> State, s: State, limit: nat, fuel: nat)
    requires Stopped(s, limit)
    ensures Loop(step, s, limit, fuel) == s
  {
  }

  /** Each tick raises the counter by at most one, so the counter never
      decreases and grows by at most the number of ticks. */
  lemma {:induction false} CounterGrows(step: State -> State, s: State, limit: nat, fuel: nat)
    requires Ticks(step) && Valid(s)
    ensures s.insnCounter <= Loop(step, s, limit, fuel).insnCounter <= s.insnCounter + fuel
    decreases fuel
  {
    if !(Stopped(s, limit) || fuel == 0) {
      CounterGrows(step, step(s), limit, fuel - 1);
    }
  }

  /** With a limit, a counter at or below the limit stays at or below it:
      the loop stops the moment the counter reaches the limit. */
  lemma {:induction false} CounterBound(step: State -> State, s: State, limit: nat, fuel: nat)
    requires Ticks(step) && Valid(s) && limit != 0 && s.insnCounter <= limit
    ensures Loop(step, s, limit, fuel).insnCounter <= limit
    decreases fuel
  {
    if !(Stopped(s, limit) || fuel == 0) {
      CounterBound(step, step(s), limit, fuel - 1);
    }
  }

  /** How the loops end: the hart halted, or the counter reached the limit,
      or every tick of the fuel ran and counted one instruction. A tick that
      counts nothing (misaligned pc) halts the hart. */
  lemma {:induction false} Outcome(step: State -> State, s: State, limit: nat, fuel: nat)
    requires Ticks(step) && Valid(s)
    ensures var t := Loop(step, s, limit, fuel);
      Stopped(t, limit) || t.insnCounter == s.insnCounter + fuel
    decreases fuel
  {
    if !(Stopped(s, limit) || fuel == 0) {
      Outcome(step, step(s), limit, fuel - 1);
    }
  }

  /** With a limit and fuel enough to reach it, the loop ends halted or
      exactly at the limit. */
  lemma EnoughFuel(step: State -> State, s: State, limit: nat, fuel: nat)
    requires Ticks(step) && Valid(s) && limit != 0 && s.insnCounter <= limit
    requires limit - s.insnCounter <= fuel
    ensures var t := Loop(step, s, limit, fuel);
      t.halt || t.insnCounter == limit
  {
    CounterBound(step, s, limit, fuel);
    Outcome(step, s, limit, fuel);
  }

  /** Once the loop has stopped within its fuel, more fuel changes nothing:
      the bounded model and the unbounded loop of run() agree. */
  lemma {:induction false} FuelIrrelevant(step: State -> State, s: State, limit: nat, fuel: nat, more: nat)
    requires Stopped(Loop(step, s, limit, fuel), limit)
    ensures Loop(step, s, limit, fuel + more) == Loop(step, s, limit, fuel)
    decreases fuel
  {
    if !(Stopped(s, limit) || fuel == 0) {
      FuelIrrelevant(step, step(s), limit, fuel - 1, more);
    }
  }

  /** run() keeps the hart well-formed, its mhartid and its memory size. */
  lemma RunKeeps(s: State, limit: nat, fuel: nat)
    requires Valid(s)
    ensures var t := RunSpec(s, limit, fuel);
      Valid(t) && t.mhartid == s.mhartid && |t.mem| == |s.mem|
  {
    TickAnyTicks();
    LoopKeeps(TickAny, Seed(s), limit, fuel);
  }

  /** With a limit, run() does not count past it; given fuel enough to
      reach it, run() ends halted or exactly at the limit. */
  lemma RunCounterBound(s: State, limit: nat, fuel: nat)
    requires Valid(s) && limit != 0 && s.insnCounter <= limit
    ensures var t := RunSpec(s, limit, fuel);
      && t.insnCounter <= limit
      && (limit - s.insnCounter <= fuel ==> t.halt || t.insnCounter == limit)
  {
    TickAnyTicks();
    CounterBound(TickAny, Seed(s), limit, fuel);
    if limit - s.insnCounter <= fuel {
      EnoughFuel(TickAny, Seed(s), limit, fuel);
    }
  }
}
