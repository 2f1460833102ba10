/** The free map of fs.c: one bit per disk block, BPB bits to a bitmap block. */
module Bitmap {
  import opened Blocks

  const BPB := BSIZE * 8

  /** 1 << k. */
  function Mask(k: nat): (m: nat) {
    if k == 0 then 1 else 2 * Mask(k - 1)
  }

  /** (x & 1 << k) != 0. */
  predicate Bit(x: nat, k: nat) {
    if k == 0 then x % 2 == 1 else Bit(x / 2, k - 1)
  }

  /** Setting a clear bit with |= is adding its mask. */
  lemma {:induction false} BitSet(x: nat, k: nat, j: nat)
    requires !Bit(x, k)
    ensures Bit(x + Mask(k), j) == (j == k || Bit(x, j))
    decreases k
  {
    if k > 0 {
      assert (x + Mask(k)) / 2 == x / 2 + Mask(k - 1);
      if j > 0 { BitSet(x / 2, k - 1, j - 1); }
    }
  }

  /** Clearing a set bit with &= ~m is subtracting its mask. */
  lemma {:induction false} BitClear(x: nat, k: nat, j: nat)
    requires Bit(x, k)
    ensures Mask(k) <= x && Bit(x - Mask(k), j) == (j != k && Bit(x, j))
    decreases k
  {
    if k > 0 {
      BitClear(x / 2, k - 1, if j > 0 then j - 1 else 0);
      assert (x - Mask(k)) / 2 == x / 2 - Mask(k - 1);
    } else if j > 0 {
      assert (x - 1) / 2 == x / 2;
    }
  }

  lemma {:induction false} BitFits(x: nat, k: nat, m: nat)
    requires k < m && x < Mask(m) && !Bit(x, k)
    ensures x + Mask(k) < Mask(m)
  {
    if k > 0 { BitFits(x / 2, k - 1, m - 1); }
  }

  lemma ByteFits(x: byte, k: nat)
    requires k < 8 && !Bit(x, k)
    ensures x + Mask(k) < 256
  {
    assert Mask(8) == 256 by { assert Mask(4) == 16; }
    BitFits(x, k, 8);
  }

  // ----- bits of the map -----

  /** BBLOCK(b, sb) for a map that starts at block `start`. */
  function MapBlock(start: nat, b: nat): (r: nat) {
    b / BPB + start
  }

  function ByteOf(b: nat): (r: nat)
    ensures r < BSIZE
  {
    b % BPB / 8
  }

  /** Block b is marked in use. */
  predicate Marked(blocks: seq<Block>, start: nat, b: nat)
    requires MapBlock(start, b) < |blocks|
  {
    Bit(blocks[MapBlock(start, b)][ByteOf(b)], b % 8)
  }

  function SetByte(blocks: seq<Block>, n: nat, i: nat, x: byte): (r: seq<Block>)
    requires n < |blocks| && i < BSIZE
  {
    blocks[n := blocks[n][i := x]]
  }

  /** bp->data[bi/8] |= m, on a clear bit. */
  function Mark(blocks: seq<Block>, start: nat, b: nat): (r: seq<Block>)
    requires MapBlock(start, b) < |blocks| && !Marked(blocks, start, b)
  {
    SetByte(blocks, MapBlock(start, b), ByteOf(b), (blocks[MapBlock(start, b)][ByteOf(b)] + Mask(b % 8)) % 256)
  }

  /** bp->data[bi/8] &= ~m, on a set bit. */
  function Unmark(blocks: seq<Block>, start: nat, b: nat): (r: seq<Block>)
    requires MapBlock(start, b) < |blocks| && Marked(blocks, start, b)
  {
    SetByte(blocks, MapBlock(start, b), ByteOf(b), (blocks[MapBlock(start, b)][ByteOf(b)] - Mask(b % 8)) % 256)
  }

  lemma SameBit(b: nat, c: nat)
    requires b / BPB == c / BPB && ByteOf(b) == ByteOf(c) && b % 8 == c % 8
    ensures b == c
  {
    assert b % BPB == 8 * ByteOf(b) + b % 8;
    assert c % BPB == 8 * ByteOf(c) + c % 8;
  }

  lemma MarkedMark(blocks: seq<Block>, start: nat, b: nat, c: nat)
    requires MapBlock(start, b) < |blocks| && MapBlock(start, c) < |blocks| && !Marked(blocks, start, b)
    ensures Marked(Mark(blocks, start, b), start, c) == (c == b || Marked(blocks, start, c))
  {
    if MapBlock(start, b) == MapBlock(start, c) && ByteOf(b) == ByteOf(c) {
      if b % 8 == c % 8 { SameBit(b, c); }
      ByteFits(blocks[MapBlock(start, b)][ByteOf(b)], b % 8);
      BitSet(blocks[MapBlock(start, b)][ByteOf(b)], b % 8, c % 8);
    }
  }

  lemma MarkedUnmark(blocks: seq<Block>, start: nat, b: nat, c: nat)
    requires MapBlock(start, b) < |blocks| && MapBlock(start, c) < |blocks| && Marked(blocks, start, b)
    ensures Marked(Unmark(blocks, start, b), start, c) == (c != b && Marked(blocks, start, c))
  {
    if MapBlock(start, b) == MapBlock(start, c) && ByteOf(b) == ByteOf(c) {
      if b % 8 == c % 8 { SameBit(b, c); }
      BitClear(blocks[MapBlock(start, b)][ByteOf(b)], b % 8, c % 8);
    }
  }
}
