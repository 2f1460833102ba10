/** Disk blocks as byte sequences, with the little-endian 32-bit words that the
    log header, the on-disk inode and the indirect block store in them. */
module Blocks {

  const BSIZE := 512
  const NWORDS := 128
  const WORD_LIMIT := 0x1_0000_0000

  type byte = x: int | 0 <= x < 256
  type uint32 = x: int | 0 <= x < WORD_LIMIT
  type Block = b: seq<byte> | |b| == BSIZE witness seq(BSIZE, _ => 0)

  datatype Option<+T> = None | Some(value: T)

  function ZeroBlock(): (b: Block)
    ensures forall i :: 0 <= i < BSIZE ==> b[i] == 0
  {
    seq(BSIZE, _ => 0)
  }

  predicate Distinct<T(==)>(s: seq<T>) {
    forall i, j :: 0 <= i < j < |s| ==> s[i] != s[j]
  }

  /** Distinct members of a set are at most as many as its elements. */
  lemma {:induction false} Pigeonhole(s: seq<nat>, all: set<nat>)
    requires Distinct(s) && forall i :: 0 <= i < |s| ==> s[i] in all
    ensures |s| <= |all|
  {
    if s != [] {
      var n := |s| - 1;
      Pigeonhole(s[..n], all - {s[n]});
    }
  }

  function Le32(v: uint32): (s: seq<byte>) {
    [v % 256, v / 256 % 256, v / 65536 % 256, v / 16777216]
  }

  function FromLe32(s: seq<byte>): (v: uint32)
    requires |s| == 4
  {
    var b0: int, b1: int, b2: int, b3: int := s[0], s[1], s[2], s[3];
    b0 + 256 * b1 + 65536 * b2 + 16777216 * b3
  }

  lemma Le32RoundTrip(v: uint32)
    ensures FromLe32(Le32(v)) == v
  {
    assert v == v / 256 * 256 + v % 256;
    assert v / 256 == v / 65536 * 256 + v / 256 % 256;
    assert v / 65536 == v / 16777216 * 256 + v / 65536 % 256;
  }

  /** The i-th 32-bit word of a block. */
  function Word(b: Block, i: nat): (v: uint32)
    requires i < NWORDS
  {
    FromLe32(b[4 * i .. 4 * i + 4])
  }

  function PutWord(b: Block, i: nat, v: uint32): (r: Block)
    requires i < NWORDS
  {
    b[..4 * i] + Le32(v) + b[4 * i + 4..]
  }

  /** Storing a word changes that word and no other. */
  lemma WordPutWord(b: Block, i: nat, v: uint32, j: nat)
    requires i < NWORDS && j < NWORDS
    ensures Word(PutWord(b, i, v), j) == if j == i then v else Word(b, j)
  {
    var r := PutWord(b, i, v);
    if i == j {
      assert r[4 * j .. 4 * j + 4] == Le32(v);
      Le32RoundTrip(v);
    } else {
      forall k | 4 * j <= k < 4 * j + 4 ensures r[k] == b[k] {
      }
      assert r[4 * j .. 4 * j + 4] == b[4 * j .. 4 * j + 4];
    }
  }

  lemma ZeroWord(i: nat)
    requires i < NWORDS
    ensures Word(ZeroBlock(), i) == 0
  {
    assert ZeroBlock()[4 * i .. 4 * i + 4] == [0, 0, 0, 0];
  }

  /** One atomic block write. */
  datatype Write = Write(blockno: nat, data: Block)

  function Apply(disk: seq<Block>, ws: seq<Write>): (r: seq<Block>)
    requires forall i :: 0 <= i < |ws| ==> ws[i].blockno < |disk|
    ensures |r| == |disk|
    decreases |ws|
  {
    if ws == [] then disk
    else
      var n := |ws| - 1;
      Apply(disk, ws[..n])[ws[n].blockno := ws[n].data]
  }

  lemma {:induction false} ApplyConcat(disk: seq<Block>, a: seq<Write>, b: seq<Write>)
    requires forall i :: 0 <= i < |a| ==> a[i].blockno < |disk|
    requires forall i :: 0 <= i < |b| ==> b[i].blockno < |disk|
    ensures Apply(disk, a + b) == Apply(Apply(disk, a), b)
    decreases |b|
  {
    if b == [] {
      assert a + b == a;
    } else {
      var n := |b| - 1;
      assert (a + b)[..|a| + n] == a + b[..n];
      ApplyConcat(disk, a, b[..n]);
    }
  }

  /** Blocks that no write names keep their contents. */
  lemma {:induction false} ApplyElsewhere(disk: seq<Block>, ws: seq<Write>, n: nat)
    requires forall i :: 0 <= i < |ws| ==> ws[i].blockno < |disk| && ws[i].blockno != n
    requires n < |disk|
    ensures Apply(disk, ws)[n] == disk[n]
    decreases |ws|
  {
    if ws != [] {
      ApplyElsewhere(disk, ws[..|ws| - 1], n);
    }
  }

  /** Disk dk is what the first k of the writes make of disk d. */
  ghost predicate Applied(d: seq<Block>, ws: seq<Write>, k: nat, dk: seq<Block>) {
    k <= |ws| && (forall i :: 0 <= i < |ws| ==> ws[i].blockno < |d|) && dk == Apply(d, ws[..k])
  }

  lemma AppliedNext(d: seq<Block>, ws: seq<Write>, k: nat, dk: seq<Block>)
    requires k < |ws| && Applied(d, ws, k, dk)
    ensures ws[k].blockno < |dk| && Applied(d, ws, k + 1, dk[ws[k].blockno := ws[k].data])
  {
    assert ws[..k + 1][..k] == ws[..k];
  }

  lemma AppliedMore(d: seq<Block>, a: seq<Write>, h: Write, k: nat, dk: seq<Block>)
    requires Applied(d, a, k, dk) && h.blockno < |d|
    ensures Applied(d, a + [h], k, dk) && (a + [h])[..k] == a[..k] && |dk| == |d|
    ensures k == |a| ==> Applied(d, a + [h], k + 1, dk[h.blockno := h.data]) && (a + [h])[..k + 1] == a[..k] + [h]
  {
    assert (a + [h])[..k] == a[..k];
    if k == |a| {
      assert (a + [h])[k] == h;
      AppliedNext(d, a + [h], k, dk);
    }
  }

  lemma AppliedElsewhere(d: seq<Block>, ws: seq<Write>, k: nat, dk: seq<Block>, n: nat)
    requires Applied(d, ws, k, dk) && n < |d| && forall i :: 0 <= i < |ws| ==> ws[i].blockno != n
    ensures n < |dk| && dk[n] == d[n]
  {
    ApplyElsewhere(d, ws[..k], n);
  }

  lemma Fewer(a: set<nat>, b: set<nat>)
    requires a <= b
    ensures |a| <= |b|
  {
    assert b == a + (b - a);
  }
}
