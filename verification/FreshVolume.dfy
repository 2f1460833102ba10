/** A volume with no files satisfies everything the file-system code relies on. */
module FreshVolume {
  import opened Blocks
  import opened Bitmap
  import opened Inodes
  import Fs

  function NoInode(): (ip: Inode) {
    Inode(0, 0, 0, 0, 0, seq(NDIRECT + 1, _ => 0))
  }

  function ZeroDisk(n: nat): (blocks: seq<Block>) {
    seq(n, _ => ZeroBlock())
  }

  lemma ZeroInode(k: nat)
    requires k < IPB
    ensures DinodeAt(ZeroBlock(), k) == NoInode()
  {
    var z: seq<byte> := ZeroBlock();
    var s := z[DSIZE * k .. DSIZE * k + DSIZE];
    assert forall i :: 0 <= i < DSIZE ==> s[i] == z[DSIZE * k + i] == 0;
    forall j | 0 <= j < NDIRECT + 1 ensures FromLe32(s[12 + 4 * j .. 16 + 4 * j]) == 0 {
      assert s[12 + 4 * j .. 16 + 4 * j] == [0, 0, 0, 0];
    }
    assert s[0..2] == s[2..4] == s[4..6] == s[6..8] == [0, 0] && s[8..12] == [0, 0, 0, 0];
    assert Decode(s).addrs == NoInode().addrs;
  }

  /** A free map on which exactly the first k blocks are marked. */
  lemma {:induction false} MarkFirst(sb: Super, k: nat) returns (blocks: seq<Block>)
    requires sb.Wf() && k <= sb.datastart
    ensures |blocks| == sb.size && forall b :: 0 <= b < sb.size && !(sb.bmapstart <= b < sb.datastart) ==>
              blocks[b] == ZeroBlock()
    ensures forall b: nat :: b < sb.size ==>
              MapBlock(sb.bmapstart, b) < |blocks| && (Marked(blocks, sb.bmapstart, b) <==> b < k)
  {
    forall b: nat | b < sb.size ensures MapBlock(sb.bmapstart, b) < sb.size {
      MapInRange(sb, b);
    }
    if k == 0 {
      blocks := ZeroDisk(sb.size);
      forall b: nat | b < sb.size ensures !Marked(blocks, sb.bmapstart, b) {
        ZeroBit(b % 8);
      }
    } else {
      var was := MarkFirst(sb, k - 1);
      blocks := Mark(was, sb.bmapstart, k - 1);
      MapInRange(sb, k - 1);
      forall b: nat | b < sb.size ensures Marked(blocks, sb.bmapstart, b) <==> b < k {
        MarkedMark(was, sb.bmapstart, k - 1, b);
      }
    }
  }

  lemma {:induction false} ZeroBit(i: nat)
    requires i < 8
    ensures !Bit(0, i)
  {
    if i > 0 {
      ZeroBit(i - 1);
    }
  }

  lemma EmptyVolume(sb: Super) returns (v: Volume)
    requires sb.Wf()
    ensures Inv(sb, v, map[]) && Fs.AllCurrent(sb, v)
    ensures forall i :: 0 <= i < sb.ninodes ==> v.inodes[i] == NoInode()
  {
    var blocks := MarkFirst(sb, sb.datastart);
    v := Volume(blocks, seq(sb.ninodes, _ => NoInode()));
    assert Shape(sb, v);
    hide Marked, MapBlock;
    forall i: nat | i < sb.ninodes ensures NoHoles(sb, v, i) && Synced(sb, v, i) {
      InodeBlockInRange(sb, i);
      LayoutOrder(sb);
      ZeroInode(i % IPB);
    }
  }
}
