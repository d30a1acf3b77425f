/**
 * The NES pad as both firmwares read it: after a latch pulse the pad shifts
 * its eight buttons out on the data line, one per clock pulse, in the order
 * A, B, Select, Start, Up, Down, Left, Right. A pressed button pulls the line
 * low. The read loops OR line `i` into bit `i` of a 16-bit word.
 */
module NesPad {
  import opened Common

  /** Number of lines shifted out by the pad. */
  const Lines := 8

  /** The word `base` with lines `0 .. n-1` of `levels` OR-ed in, line `i` into bit `i`. */
  function Levels(base: bv16, levels: seq<bool>, n: nat): bv16
    requires n <= |levels| && n <= 16
  {
    if n == 0 then base else Levels(base, levels, n - 1) | (Bit01(levels[n - 1]) << (n - 1))
  }

  /** One turn of a read loop: OR the level of line `i` into bit `i` of `w`. */
  method ShiftIn(w: bv16, ghost base: bv16, levels: seq<bool>, i: nat) returns (r: bv16)
    requires i < |levels| && i < 16
    requires w == Levels(base, levels, i)
    ensures r == Levels(base, levels, i + 1)
  {
    LevelsStep(base, levels, i);
    r := w | (Bit01(levels[i]) << i);
  }

  lemma LevelsStep(base: bv16, levels: seq<bool>, i: nat)
    requires i < |levels| && i < 16
    ensures Levels(base, levels, i + 1) == Levels(base, levels, i) | (Bit01(levels[i]) << i)
  {
  }

  lemma LevelsOfEight(base: bv16, levels: seq<bool>)
    requires |levels| == Lines
    ensures Levels(base, levels, 8) == base | (Bit01(levels[0]) << 0) | (Bit01(levels[1]) << 1)
      | (Bit01(levels[2]) << 2) | (Bit01(levels[3]) << 3) | (Bit01(levels[4]) << 4)
      | (Bit01(levels[5]) << 5) | (Bit01(levels[6]) << 6) | (Bit01(levels[7]) << 7)
  {
    LevelsStep(base, levels, 0);
    LevelsStep(base, levels, 1);
    LevelsStep(base, levels, 2);
    LevelsStep(base, levels, 3);
    LevelsStep(base, levels, 4);
    LevelsStep(base, levels, 5);
    LevelsStep(base, levels, 6);
    LevelsStep(base, levels, 7);
  }

  /** Bit `k` of the eight-line word is set iff line `k` was high. */
  lemma LineBit(levels: seq<bool>, k: nat)
    requires |levels| == Lines && k < Lines
    ensures Bit(Levels(0, levels, 8), k) <==> levels[k]
  {
    LevelsOfEight(0, levels);
    if k == 0 {
    } else if k == 1 {
    } else if k == 2 {
    } else if k == 3 {
    } else if k == 4 {
    } else if k == 5 {
    } else if k == 6 {
    } else {
    }
  }

  /** The word as the pad readers invert it: a pressed (low) line gives a set bit. */
  function Pressed(levels: seq<bool>): bv16
    requires |levels| == Lines
  {
    !Levels(0, levels, 8)
  }

  /** Bit `k` of the inverted word is set iff button `k` is pressed. */
  lemma PressedBit(levels: seq<bool>, k: nat)
    requires |levels| == Lines && k < Lines
    ensures Bit(Pressed(levels), k) <==> !levels[k]
  {
    LineBit(levels, k);
    NotBit(Levels(0, levels, 8), k);
  }

  /** Inverting a word flips each of its low eight bits. */
  lemma NotBit(w: bv16, k: nat)
    requires k < Lines
    ensures Bit(!w, k) <==> !Bit(w, k)
  {
    if k == 0 {
      assert Bit(!w, 0) <==> !Bit(w, 0);
    } else if k == 1 {
      assert Bit(!w, 1) <==> !Bit(w, 1);
    } else if k == 2 {
      assert Bit(!w, 2) <==> !Bit(w, 2);
    } else if k == 3 {
      assert Bit(!w, 3) <==> !Bit(w, 3);
    } else if k == 4 {
      assert Bit(!w, 4) <==> !Bit(w, 4);
    } else if k == 5 {
      assert Bit(!w, 5) <==> !Bit(w, 5);
    } else if k == 6 {
      assert Bit(!w, 6) <==> !Bit(w, 6);
    } else {
      assert Bit(!w, 7) <==> !Bit(w, 7);
    }
  }

  /** The eight-line word never reaches the upper byte. */
  lemma UpperByteClear(levels: seq<bool>)
    requires |levels| == Lines
    ensures Levels(0, levels, 8) & 0xff00 == 0
  {
    LevelsOfEight(0, levels);
  }

  /** After inversion the upper byte of the pad word is all ones. */
  lemma PressedUpperByte(levels: seq<bool>)
    requires |levels| == Lines
    ensures Pressed(levels) & 0xff00 == 0xff00
  {
    UpperByteClear(levels);
  }

  /** Starting from another word only ORs that word in. */
  lemma LevelsFromBase(base: bv16, levels: seq<bool>)
    requires |levels| == Lines
    ensures Levels(base, levels, 8) == base | Levels(0, levels, 8)
  {
    LevelsOfEight(base, levels);
    LevelsOfEight(0, levels);
  }
}
