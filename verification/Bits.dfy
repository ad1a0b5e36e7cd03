/** Single bits of a 64-bit word. */
module Bits {

  function Mask(i: nat): bv64
    requires i < 64
  {
    Shift(i as bv6)
  }

  function Shift(i: bv6): bv64 {
    (1 as bv64) << i
  }

  predicate Bit(w: bv64, i: nat)
    requires i < 64
  {
    Test(w, i as bv6)
  }

  predicate Test(w: bv64, i: bv6) {
    (w >> i) & 1 == 1
  }

  lemma ShiftTest(w: bv64, i: bv6)
    ensures Test(w, i) <==> w & Shift(i) != 0
  {
  }

  /** A bit is set exactly when its mask meets the word. */
  lemma MaskTest(w: bv64, i: nat)
    requires i < 64
    ensures Bit(w, i) <==> w & Mask(i) != 0
  {
    ShiftTest(w, i as bv6);
  }

  lemma SetTest(w: bv64, i: bv6, j: bv6)
    ensures Test(w | Shift(i), j) <==> Test(w, j) || i == j
  {
  }

  lemma ClearTest(w: bv64, i: bv6, j: bv6)
    ensures Test(w & !Shift(i), j) <==> Test(w, j) && i != j
  {
  }

  lemma IndexFits(i: nat)
    requires i < 64
    ensures (i as bv6) as nat == i
  {
  }

  lemma SameIndex(i: nat, j: nat)
    requires i < 64 && j < 64
    ensures i as bv6 == j as bv6 <==> i == j
  {
    IndexFits(i);
    IndexFits(j);
  }

  lemma SetBit(w: bv64, i: nat, j: nat)
    requires i < 64 && j < 64
    ensures Bit(w | Mask(i), j) <==> Bit(w, j) || i == j
  {
    SameIndex(i, j);
    SetTest(w, i as bv6, j as bv6);
  }

  lemma ClearBit(w: bv64, i: nat, j: nat)
    requires i < 64 && j < 64
    ensures Bit(w & !Mask(i), j) <==> Bit(w, j) && i != j
  {
    SameIndex(i, j);
    ClearTest(w, i as bv6, j as bv6);
  }

  const ALL_ONES: bv64 := 0xFFFF_FFFF_FFFF_FFFF

  lemma AllSet(i: nat)
    requires i < 64
    ensures Bit(ALL_ONES, i)
  {
  }

  /** A word as its 64 bits, lowest first. */
  type Word = w: seq<bool> | |w| == 64 witness seq(64, _ => false)

  const FULL: Word := seq(64, _ => true)

  ghost predicate Shows(word: Word, w: bv64) {
    forall i :: 0 <= i < 64 ==> word[i] == Bit(w, i)
  }

  lemma ShownAt(word: Word, w: bv64, x: bv6)
    requires Shows(word, w) && word == FULL
    ensures Test(w, x)
  {
    assert (x as nat) as bv6 == x;
    assert Bit(w, x as nat);
  }

  predicate Eight(w: bv64, x: bv6) {
    && Test(w, x) && Test(w, x + 1) && Test(w, x + 2) && Test(w, x + 3)
    && Test(w, x + 4) && Test(w, x + 5) && Test(w, x + 6) && Test(w, x + 7)
  }

  lemma AllEights(w: bv64)
    requires Eight(w, 0) && Eight(w, 8) && Eight(w, 16) && Eight(w, 24)
    requires Eight(w, 32) && Eight(w, 40) && Eight(w, 48) && Eight(w, 56)
    ensures w == ALL_ONES
  {
  }

  /** The all-ones word is the one with every bit set. */
  lemma FullWord(word: Word, w: bv64)
    requires Shows(word, w)
    ensures word == FULL <==> w == ALL_ONES
  {
    if word == FULL {
      forall x: bv6 ensures Test(w, x) {
        ShownAt(word, w, x);
      }
      AllEights(w);
    } else {
      forall i | 0 <= i < 64 ensures Bit(ALL_ONES, i) {
        AllSet(i);
      }
    }
  }

  lemma OneBit(word: Word, w: bv64, i: nat)
    requires Shows(word, w) && i < 64
    ensures Shows(word[i := true], w | Mask(i)) && Shows(word[i := false], w & !Mask(i))
    ensures word[i] <==> w & Mask(i) != 0
  {
    MaskTest(w, i);
    var t, f := word[i := true], word[i := false];
    forall j | 0 <= j < 64 ensures t[j] == Bit(w | Mask(i), j) && f[j] == Bit(w & !Mask(i), j) {
      SetBit(w, i, j);
      ClearBit(w, i, j);
    }
  }

  /** Testing, setting and clearing a bit of the machine word, and asking whether
      all are set, is the same on the list of bits. */
  lemma WordOps(word: Word, w: bv64, i: nat)
    requires Shows(word, w) && i < 64
    ensures Shows(word[i := true], w | Mask(i)) && Shows(word[i := false], w & !Mask(i))
    ensures word[i] <==> w & Mask(i) != 0
    ensures word == FULL <==> w == ALL_ONES
  {
    OneBit(word, w, i);
    FullWord(word, w);
  }
}
