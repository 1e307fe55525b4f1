/** The ticket generator xoroshiro128++: internal/crypto/xoroshiro.go. */
module Xoroshiro {
  datatype State = State(s0: bv64, s1: bv64)

  const ZERO := State(0, 0)

  /** `NewXoroshiroFromMaster` on the two words of the seed hash. */
  function Seeded(s0: bv64, s1: bv64): (s: State)
    ensures s != ZERO
    ensures s == if s0 == 0 && s1 == 0 then State(0, 1) else State(s0, s1)
  {
    if s0 == 0 && s1 == 0 then State(0, 1) else State(s0, s1)
  }

  // `rotl` at the three amounts the generator uses, and at the three that undo them.
  function Rotl17(x: bv64): bv64 { (x << 17) | (x >> 47) }
  function Rotl28(x: bv64): bv64 { (x << 28) | (x >> 36) }
  function Rotl49(x: bv64): bv64 { (x << 49) | (x >> 15) }
  function Rotl47(x: bv64): bv64 { (x << 47) | (x >> 17) }
  function Rotl15(x: bv64): bv64 { (x << 15) | (x >> 49) }
  function Rotl36(x: bv64): bv64 { (x << 36) | (x >> 28) }

  // The machine operations behind names, so that proofs can leave them closed.
  function Xor(a: bv64, b: bv64): bv64 { a ^ b }
  function Shl21(a: bv64): bv64 { a << 21 }
  function Plus(a: bv64, b: bv64): bv64 { a + b }
  function Minus(a: bv64, b: bv64): bv64 { a - b }
  function Spread(t: bv64): bv64 { Xor(t, Shl21(t)) }

  // One step, word by word: with t = s1 ^ s0 the new words are rotl(s0, 49) ^ t ^ (t << 21) and
  // rotl(t, 28). Backwards, the rotation of the second word is undone first, then the mixing.
  function Emit(s0: bv64, s1: bv64): bv64 { Plus(Rotl17(Plus(s0, s1)), s0) }
  function Next0(s0: bv64, s1: bv64): bv64 { Xor(Rotl49(s0), Spread(Xor(s1, s0))) }
  function Next1(s0: bv64, s1: bv64): bv64 { Rotl28(Xor(s1, s0)) }
  function Previous0(s0: bv64, s1: bv64): bv64 { Rotl15(Xor(s0, Spread(Rotl36(s1)))) }
  function Previous1(s0: bv64, s1: bv64): bv64 { Xor(Rotl36(s1), Previous0(s0, s1)) }

  function Next(s: State): State {
    State(Next0(s.s0, s.s1), Next1(s.s0, s.s1))
  }

  function Previous(s: State): State {
    State(Previous0(s.s0, s.s1), Previous1(s.s0, s.s1))
  }

  class Generator {
    var s0: bv64
    var s1: bv64

    function Words(): State
      reads this
    {
      State(s0, s1)
    }

    constructor (h0: bv64, h1: bv64)
      ensures Words() == Seeded(h0, h1)
    {
      s0 := h0;
      s1 := if h0 == 0 && h1 == 0 then 1 else h1;
    }

    /** The three assignments in place amount to one reversible step, and no word of the old state is lost:
        the new state gives both back, and the result with the first word gives the second back. */
    method NextU64() returns (result: bv64)
      modifies this
      ensures result == Emit(old(s0), old(s1)) && Words() == Next(old(Words()))
      ensures Previous(Words()) == old(Words()) && SecondWord(result, old(s0)) == old(s1)
    {
      ghost var was0, was1 := s0, s1;
      hide Rotl17, Rotl28, Rotl49, Xor, Shl21, Plus, Previous0, Previous1, SecondWord;
      XorAssociates(Rotl49(s0), Xor(s1, s0), Shl21(Xor(s1, s0)));
      result := Plus(Rotl17(Plus(s0, s1)), s0);
      s1 := Xor(s1, s0);
      s0 := Xor(Xor(Rotl49(s0), s1), Shl21(s1));
      s1 := Rotl28(s1);
      StepUndone(was0, was1);
      EmitReveals(was0, was1);
    }
  }

  lemma XorAssociates(a: bv64, b: bv64, c: bv64)
    ensures Xor(Xor(a, b), c) == Xor(a, Xor(b, c))
  {
  }

  /** The second word of a state, from its output and its first word. */
  function SecondWord(result: bv64, s0: bv64): bv64 { Minus(Rotl47(Minus(result, s0)), s0) }

  lemma EmitReveals(s0: bv64, s1: bv64)
    ensures SecondWord(Emit(s0, s1), s0) == s1
  {
    hide Rotl17, Rotl47, Plus, Minus;
    RotationsCancel(Plus(s0, s1));
    SumCancels(Rotl17(Plus(s0, s1)), s0);
    SumCancels(s1, s0);
  }

  lemma SumCancels(a: bv64, b: bv64)
    ensures Minus(Plus(a, b), b) == a && Minus(Plus(b, a), b) == a
  {
  }

  lemma RotationsCancel(x: bv64)
    ensures Rotl36(Rotl28(x)) == x && Rotl28(Rotl36(x)) == x
    ensures Rotl15(Rotl49(x)) == x && Rotl49(Rotl15(x)) == x
    ensures Rotl47(Rotl17(x)) == x
  {
  }

  lemma XorCancels(a: bv64, b: bv64)
    ensures Xor(Xor(a, b), b) == a
  {
  }

  lemma StepUndone(s0: bv64, s1: bv64)
    ensures Previous0(Next0(s0, s1), Next1(s0, s1)) == s0
    ensures Previous1(Next0(s0, s1), Next1(s0, s1)) == s1
  {
    hide Xor, Spread, Rotl15, Rotl28, Rotl36, Rotl49;
    var t := Xor(s1, s0);
    RotationsCancel(t);
    XorCancels(Rotl49(s0), Spread(t));
    RotationsCancel(s0);
    XorCancels(s1, s0);
  }

  lemma StepRedone(s0: bv64, s1: bv64)
    ensures Next0(Previous0(s0, s1), Previous1(s0, s1)) == s0
    ensures Next1(Previous0(s0, s1), Previous1(s0, s1)) == s1
  {
    hide Xor, Spread, Rotl15, Rotl28, Rotl36, Rotl49;
    var t := Rotl36(s1);
    RotationsCancel(s1);
    RotationsCancel(Xor(s0, Spread(t)));
    XorCancels(s0, Spread(t));
    XorCancels(t, Previous0(s0, s1));
  }

  /** The step is a bijection on 128-bit states. */
  lemma StepBijective(s: State)
    ensures Previous(Next(s)) == s && Next(Previous(s)) == s
  {
    hide Next0, Next1, Previous0, Previous1;
    StepUndone(s.s0, s.s1);
    StepRedone(s.s0, s.s1);
  }

  function Run(s: State, n: nat): State {
    if n == 0 then s else Next(Run(s, n - 1))
  }

  lemma {:induction false} RunsNeverMerge(s: State, t: State, n: nat)
    requires Run(s, n) == Run(t, n)
    ensures s == t
  {
    if n > 0 {
      StepBijective(Run(s, n - 1));
      StepBijective(Run(t, n - 1));
      RunsNeverMerge(s, t, n - 1);
    }
  }

  lemma {:induction false} RunFromZero(n: nat)
    ensures Run(ZERO, n) == ZERO
  {
    if n > 0 {
      RunFromZero(n - 1);
      assert Next(ZERO) == ZERO;
    }
  }

  /** From the guarded seed, no run of any length reaches the all-zero fixed point. */
  lemma SeededRunNeverZero(s0: bv64, s1: bv64, n: nat)
    ensures Run(Seeded(s0, s1), n) != ZERO
  {
    RunFromZero(n);
    if Run(Seeded(s0, s1), n) == ZERO {
      RunsNeverMerge(Seeded(s0, s1), ZERO, n);
    }
  }

  lemma {:induction false} RunAdds(s: State, m: nat, n: nat)
    ensures Run(Run(s, m), n) == Run(s, m + n)
  {
    if n > 0 {
      RunAdds(s, m, n - 1);
    }
  }

  /** A state sequence that ever repeats repeats from its very start: there is no lead-in. */
  lemma RepeatsFromTheSeed(s: State, i: nat, j: nat)
    requires i < j && Run(s, i) == Run(s, j)
    ensures Run(s, j - i) == s
  {
    RunAdds(s, j - i, i);
    RunsNeverMerge(Run(s, j - i), s, i);
  }

  /** The first outputs from the state (1, 2), as published with the reference implementation. */
  lemma ReferenceOutputs()
    ensures Emit(1, 2) == 393217
    ensures Next(State(1, 2)) == State(0x2000000600003, 0x30000000)
    ensures Emit(0x2000000600003, 0x30000000) == 669327710093319
    ensures Next(State(0x2000000600003, 0x30000000)) == State(0x20c04300000c3, 0x306000030002000)
    ensures Emit(0x20c04300000c3, 0x306000030002000) == 1732421326133921491
  {
  }
}
