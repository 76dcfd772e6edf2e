// The hart's general-purpose registers (registerfile.cpp): 32 int32_t
// registers in a vector, x0 hard-wired to zero. A write to x0 is dropped and
// a read of x0 yields 0; an index beyond the vector makes `at()` throw, which
// here is a precondition. Reset fills x1..x31 with the sentinel 0xf0f0f0f0.

module Regs {
  import opened Word

  /** The number of registers. */
  const Count := 32

  /** The value reset leaves in x1..x31. */
  const ResetValue: bv32 := 0xf0f0f0f0

  /** A register vector as the hart sees it: 32 slots, slot 0 never written. */
  predicate Wellformed(regs: seq<bv32>)
  {
    |regs| == Count && regs[0] == 0
  }

  /** get(r). */
  function RegGet(regs: seq<bv32>, r: nat): bv32
    requires r < |regs|
  {
    if r != 0 then regs[r] else 0
  }

  /** set(r, val). */
  function RegSet(regs: seq<bv32>, r: nat, val: bv32): (res: seq<bv32>)
    requires r < |regs|
    ensures |res| == |regs|
  {
    if r != 0 then regs[r := val] else regs
  }

  /** The registers after reset: x0 zero and every other register the sentinel. */
  function Initial(): (regs: seq<bv32>)
    ensures Wellformed(regs)
  {
    seq(Count, k => if k == 0 then 0 else ResetValue)
  }

  /** std::vector::resize: truncate, or extend with value-initialised zeros. */
  function Resize(s: seq<bv32>, n: nat): (r: seq<bv32>)
    ensures |r| == n
    ensures forall k :: 0 <= k < n && k < |s| ==> r[k] == s[k]
    ensures forall k :: |s| <= k < n ==> r[k] == 0
  {
    if |s| >= n then s[..n] else s + seq(n - |s|, _ => 0)
  }

  class RegisterFile {
    var regs: seq<bv32>

    ghost predicate Valid()
      reads this
    {
      Wellformed(regs)
    }

    /** registerfile(): an empty vector, then reset(). */
    constructor ()
      ensures Valid() && regs == Initial()
    {
      regs := [];
      new;
      Reset();
    }

    /** reset(): resize to 32, the no-op `set(regs.at(0), 0)`, then the sentinel
        into x1..x31. The result does not depend on the previous contents, so a
        second reset changes nothing. */
    method Reset()
      requires |regs| == 0 || regs[0] == 0
      modifies this
      ensures Valid() && regs == Initial()
    {
      regs := Resize(regs, Count);
      Set(regs[0] as int, 0);
      var r := 1;
      while r < |regs|
        invariant 1 <= r <= Count && Wellformed(regs)
        invariant forall k :: 1 <= k < r ==> regs[k] == ResetValue
      {
        Set(r, ResetValue);
        r := r + 1;
      }
      assert forall k :: 0 <= k < Count ==> regs[k] == Initial()[k];
    }

    method Set(r: nat, val: bv32)
      requires |regs| == Count && r < Count
      modifies this
      ensures regs == RegSet(old(regs), r, val)
    {
      if r != 0 {
        regs := regs[r := val];
      }
    }

    function Get(r: nat): bv32
      reads this
      requires |regs| == Count && r < Count
    {
      RegGet(regs, r)
    }
  }

  // ---------------------------------------------------------------------
  // Properties

  /** x0 reads as zero whatever the vector holds. */
  lemma GetZero(regs: seq<bv32>)
    requires |regs| == Count
    ensures RegGet(regs, 0) == 0
  {
  }

  /** A write changes only register r, and a write to x0 changes nothing. */
  lemma SetGet(regs: seq<bv32>, r: nat, val: bv32, q: nat)
    requires |regs| == Count && r < Count && q < Count
    ensures RegGet(RegSet(regs, r, val), q) == if q == r && r != 0 then val else RegGet(regs, q)
    ensures r == 0 ==> RegSet(regs, r, val) == regs
  {
  }

  /** Slot 0 is never written, so a well-formed vector stays well-formed and
      reading a register is reading its slot. */
  lemma SetKeepsWellformed(regs: seq<bv32>, r: nat, val: bv32)
    requires Wellformed(regs) && r < Count
    ensures Wellformed(RegSet(regs, r, val))
    ensures forall q :: 0 <= q < Count ==> RegGet(RegSet(regs, r, val), q) == RegSet(regs, r, val)[q]
  {
  }

  /** After reset x0 is 0 and x1..x31 read 0xf0f0f0f0, which as int32_t is
      -252645136. */
  lemma InitialValues()
    ensures |Initial()| == Count && RegGet(Initial(), 0) == 0
    ensures forall r :: 1 <= r < Count ==> RegGet(Initial(), r) == ResetValue
    ensures ToSigned(ResetValue) == -252645136
  {
  }
}
