/** The 64-bit words of the allocation bitmap, bit by bit. The operations on words have
    names, so that facts about words and facts about bit indices can be kept apart. */
module Words {

  const FULL_WORD: bv64 := 0xFFFF_FFFF_FFFF_FFFF

  function And(x: bv64, y: bv64): bv64 { x & y }

  function Or(x: bv64, y: bv64): bv64 { x | y }

  function Not(x: bv64): bv64 { !x }

  /** `1 << a`. */
  function OneAt(a: bv6): bv64 { (1 as bv64) << a }

  /** The ones below bit `a`. */
  function OnesBelow(a: bv6): bv64 { OneAt(a) - 1 }

  /** A bit index as a shift amount. */
  function Shift(i: nat): bv6
    requires i < 64
  {
    i as bv6
  }

  function Mask(i: nat): bv64
    requires i < 64
  {
    OneAt(Shift(i))
  }

  predicate Bit(w: bv64, i: nat)
    requires i < 64
  {
    And(w, Mask(i)) != 0
  }

  function WithBit(w: bv64, i: nat): bv64
    requires i < 64
  {
    Or(w, Mask(i))
  }

  function WithoutBit(w: bv64, i: nat): bv64
    requires i < 64
  {
    And(w, Not(Mask(i)))
  }

  // ----- Facts about words alone -----

  lemma OnesDisjoint(a: bv6, b: bv6)
    requires a != b
    ensures And(OneAt(a), OneAt(b)) == 0
  {
  }

  lemma OneNonZero(a: bv6)
    ensures And(OneAt(a), OneAt(a)) != 0
  {
  }

  lemma OneBit(w: bv64, a: bv6)
    ensures And(w, OneAt(a)) == 0 <==> And(Not(w), OneAt(a)) != 0
  {
  }

  lemma DistributeLeft(w: bv64, x: bv64, y: bv64)
    ensures And(Or(w, x), y) == (w | x) & y
  {
  }

  lemma DistributeRight(w: bv64, x: bv64, y: bv64)
    ensures Or(And(w, y), And(x, y)) == (w & y) | (x & y)
  {
  }

  lemma DistributePlain(w: bv64, x: bv64, y: bv64)
    ensures (w | x) & y == (w & y) | (x & y)
  {
  }

  lemma Distribute(w: bv64, x: bv64, y: bv64)
    ensures And(Or(w, x), y) == Or(And(w, y), And(x, y))
  {
    hide And, Or;
    DistributeLeft(w, x, y);
    DistributeRight(w, x, y);
    DistributePlain(w, x, y);
  }

  lemma OrNonZero(x: bv64, y: bv64)
    ensures Or(x, y) != 0 <==> x != 0 || y != 0
  {
  }

  lemma AndOfOr(w: bv64, x: bv64, y: bv64)
    ensures And(Or(w, x), y) != 0 <==> And(w, y) != 0 || And(x, y) != 0
  {
    hide And, Or;
    Distribute(w, x, y);
    OrNonZero(And(w, y), And(x, y));
  }

  lemma ClearSelf(w: bv64, x: bv64)
    ensures And(And(w, Not(x)), x) == 0
  {
  }

  lemma ClearOther(w: bv64, x: bv64, y: bv64)
    requires And(x, y) == 0
    ensures And(And(w, Not(x)), y) == And(w, y)
  {
  }

  lemma Undo(w: bv64, x: bv64)
    requires And(w, x) == 0
    ensures And(Or(w, x), Not(x)) == w
  {
  }

  lemma AndOrZero(w: bv64, x: bv64, y: bv64)
    requires And(w, x) == 0 && And(w, y) == 0
    ensures And(w, Or(x, y)) == 0
  {
  }

  lemma AndEnds(w: bv64)
    ensures And(w, FULL_WORD) == And(FULL_WORD, w) == w && And(w, 0) == And(0, w) == 0
  {
  }

  lemma NotFull(w: bv64)
    ensures Not(w) == 0 <==> w == FULL_WORD
  {
  }

  lemma BelowStep(a: bv6)
    requires a < 63
    ensures Or(OnesBelow(a), OneAt(a)) == OnesBelow(a + 1)
  {
  }

  lemma BelowEnds()
    ensures OnesBelow(0) == 0 && Or(OnesBelow(63), OneAt(63)) == FULL_WORD
  {
  }

  lemma TailWord(t: bv6, j: bv6)
    requires 0 < t
    ensures And(Not(OnesBelow(t)), OneAt(j)) != 0 <==> t <= j
  {
  }

  // ----- Bit indices as numbers and as words -----

  lemma ShiftBack(i: nat)
    requires i < 64
    ensures Shift(i) as nat == i
  {
  }

  lemma ShiftDistinct(i: nat, j: nat)
    requires i < 64 && j < 64 && i != j
    ensures Shift(i) != Shift(j)
  {
    hide Shift;
    ShiftBack(i);
    ShiftBack(j);
  }

  lemma WordNext(a: bv6, b: bv6)
    requires a as nat + 1 == b as nat
    ensures b == a + 1 && a < 63
  {
  }

  lemma ShiftNext(i: nat)
    requires i < 63
    ensures Shift(i + 1) == Shift(i) + 1 && Shift(i) < 63
  {
    hide Shift;
    ShiftBack(i);
    ShiftBack(i + 1);
    WordNext(Shift(i), Shift(i + 1));
  }

  lemma WordOrder(a: bv6, b: bv6)
    ensures a <= b <==> a as nat <= b as nat
  {
  }

  lemma ShiftOrder(i: nat, j: nat)
    requires i < 64 && j < 64
    ensures Shift(i) <= Shift(j) <==> i <= j
  {
    hide Shift;
    ShiftBack(i);
    ShiftBack(j);
    WordOrder(Shift(i), Shift(j));
  }

  lemma ShiftEnds()
    ensures Shift(0) == 0 && Shift(63) == 63
  {
  }

  lemma ShiftPositive(i: nat)
    requires 0 < i < 64
    ensures 0 < Shift(i)
  {
  }

  // ----- Setting, clearing and finding bits -----

  lemma MaskBit(i: nat, j: nat)
    requires i < 64 && j < 64
    ensures Bit(Mask(i), j) == (i == j)
  {
    hide Shift, And, OneAt;
    OneNonZero(Shift(i));
    if i != j {
      ShiftDistinct(i, j);
      OnesDisjoint(Shift(i), Shift(j));
    }
  }

  lemma OrBit(w: bv64, x: bv64, j: nat)
    requires j < 64
    ensures Bit(Or(w, x), j) == (Bit(w, j) || Bit(x, j))
  {
    hide Mask, And, Or;
    AndOfOr(w, x, Mask(j));
  }

  lemma NotBit(w: bv64, i: nat)
    requires i < 64
    ensures Bit(Not(w), i) == !Bit(w, i)
  {
    hide Shift, And, Not, OneAt;
    OneBit(w, Shift(i));
  }

  lemma SetBit(w: bv64, i: nat, j: nat)
    requires i < 64 && j < 64
    ensures Bit(WithBit(w, i), j) == (Bit(w, j) || i == j)
  {
    hide Mask, Bit, Or;
    OrBit(w, Mask(i), j);
    MaskBit(i, j);
  }

  lemma ClearBit(w: bv64, i: nat, j: nat)
    requires i < 64 && j < 64
    ensures Bit(WithoutBit(w, i), j) == (Bit(w, j) && i != j)
  {
    hide Mask, And, Not;
    if i == j {
      ClearSelf(w, Mask(i));
    } else {
      MaskBit(i, j);
      ClearOther(w, Mask(i), Mask(j));
    }
  }

  /** Clearing a bit that was not set before undoes setting it. */
  lemma ClearUndoesSet(w: bv64, i: nat)
    requires i < 64 && !Bit(w, i)
    ensures WithoutBit(WithBit(w, i), i) == w
  {
    hide Mask, And, Or, Not;
    Undo(w, Mask(i));
  }

  /** The lowest `i` bits. */
  function Low(i: nat): bv64
    requires i <= 64
  {
    if i == 0 then 0 else Or(Low(i - 1), Mask(i - 1))
  }

  lemma {:induction false} LowIsBelow(i: nat)
    requires i < 64
    ensures Low(i) == OnesBelow(Shift(i))
  {
    hide Shift, Or, OneAt, OnesBelow;
    if i == 0 {
      ShiftEnds();
      BelowEnds();
    } else {
      LowIsBelow(i - 1);
      ShiftNext(i - 1);
      BelowStep(Shift(i - 1));
    }
  }

  lemma LowIsFull()
    ensures Low(64) == FULL_WORD
  {
    hide Shift, Or, OneAt, OnesBelow;
    LowIsBelow(63);
    ShiftEnds();
    BelowEnds();
  }

  lemma {:induction false} LowClear(w: bv64, i: nat)
    requires i <= 64
    requires forall j {:trigger Bit(w, j)} :: 0 <= j < i ==> !Bit(w, j)
    ensures And(w, Low(i)) == 0
  {
    hide Mask, And, Or;
    if i == 0 {
      AndEnds(w);
    } else {
      LowClear(w, i - 1);
      assert !Bit(w, i - 1);
      AndOrZero(w, Low(i - 1), Mask(i - 1));
    }
  }

  lemma NoFreeBit(w: bv64)
    requires forall i {:trigger Bit(Not(w), i)} :: 0 <= i < 64 ==> !Bit(Not(w), i)
    ensures w == FULL_WORD
  {
    hide And, Not, Bit, Low;
    LowClear(Not(w), 64);
    LowIsFull();
    AndEnds(Not(w));
    NotFull(w);
  }

  lemma FullBit(i: nat)
    requires i < 64
    ensures Bit(FULL_WORD, i) && !Bit(0, i)
  {
    hide Mask, And;
    AndEnds(Mask(i));
    MaskBit(i, i);
  }

  /** A word is full exactly when all its bits are set. */
  lemma FullWord(w: bv64)
    ensures w == FULL_WORD <==> forall i {:trigger Bit(w, i)} :: 0 <= i < 64 ==> Bit(w, i)
  {
    hide Bit, Not;
    forall i | 0 <= i < 64 ensures w == FULL_WORD ==> Bit(w, i) { FullBit(i); }
    if forall i {:trigger Bit(w, i)} :: 0 <= i < 64 ==> Bit(w, i) {
      forall i {:trigger Bit(Not(w), i)} | 0 <= i < 64 ensures !Bit(Not(w), i) { NotBit(w, i); }
      NoFreeBit(w);
    }
  }

  /** countr_zero: the number of zero bits below the lowest one. */
  function CountTrailingZeros(w: bv64, i: nat): (r: nat)
    requires i <= 64
    ensures i <= r <= 64 && (forall j {:trigger Bit(w, j)} :: i <= j < r ==> !Bit(w, j)) && (r < 64 ==> Bit(w, r))
    decreases 64 - i
  {
    if i == 64 || Bit(w, i) then i else CountTrailingZeros(w, i + 1)
  }

  /** countr_zero of the free bits. */
  function FirstFreeBit(w: bv64): nat { CountTrailingZeros(Not(w), 0) }

  /** The lowest zero bit of a word that is not full. */
  lemma LowestFree(w: bv64)
    requires w != FULL_WORD
    ensures var b := FirstFreeBit(w);
            b < 64 && !Bit(w, b) && forall j {:trigger Bit(w, j)} :: 0 <= j < b ==> Bit(w, j)
  {
    hide Bit, Not;
    var b := FirstFreeBit(w);
    if b == 64 {
      NoFreeBit(w);
    } else {
      NotBit(w, b);
    }
    forall j | 0 <= j < b && j < 64 ensures Bit(w, j) { NotBit(w, j); }
  }

  /** The bits from `valid` on. */
  function Tail(valid: nat): bv64
    requires 0 < valid < 64
  {
    Not(OnesBelow(Shift(valid)))
  }

  function WithTail(w: bv64, valid: nat): bv64
    requires 0 < valid < 64
  {
    Or(w, Tail(valid))
  }

  lemma TailMask(valid: nat, j: nat)
    requires 0 < valid < 64 && j < 64
    ensures Bit(Tail(valid), j) == (j >= valid)
  {
    hide Shift, And, Not, OneAt, OnesBelow;
    ShiftPositive(valid);
    ShiftOrder(valid, j);
    TailWord(Shift(valid), Shift(j));
  }

  /** Masking the tail sets exactly the bits from `valid` on. */
  lemma TailBits(w: bv64, valid: nat, j: nat)
    requires 0 < valid < 64 && j < 64
    ensures Bit(WithTail(w, valid), j) == (Bit(w, j) || j >= valid)
  {
    hide Bit, Tail, Or;
    TailMask(valid, j);
    OrBit(w, Tail(valid), j);
  }
}
