/** Inodes of fs.c: the on-disk record, the block map with its indirect block, and
    the ownership of data blocks. */
module Inodes {
  import opened Blocks
  import opened Bitmap

  const NDIRECT := 12
  const NINDIRECT := NWORDS
  const MAXFILE := NDIRECT + NINDIRECT
  const MAXBYTES := MAXFILE * BSIZE
  const IPB := 8
  const DSIZE := 64

  type uint16 = x: int | 0 <= x < 65536

  /** Fields of `struct dinode`; NDIRECT direct addresses and the indirect one. */
  datatype Inode = Inode(kind: uint16, major: uint16, minor: uint16, nlink: uint16,
                         size: uint32, addrs: seq<uint32>)

  predicate InodeWf(ip: Inode) {
    |ip.addrs| == NDIRECT + 1 && ip.size <= MAXBYTES
  }

  // ----- the on-disk record -----

  function Le16(v: uint16): (s: seq<byte>) {
    [v % 256, v / 256]
  }

  function FromLe16(s: seq<byte>): (v: uint16)
    requires |s| == 2
  {
    var lo: int, hi: int := s[0], s[1];
    lo + 256 * hi
  }

  function EncodeAddrs(a: seq<uint32>): (s: seq<byte>)
    ensures |s| == 4 * |a|
  {
    if a == [] then [] else Le32(a[0]) + EncodeAddrs(a[1..])
  }

  function Encode(ip: Inode): (s: seq<byte>)
    requires |ip.addrs| == NDIRECT + 1
    ensures |s| == DSIZE
  {
    Le16(ip.kind) + Le16(ip.major) + Le16(ip.minor) + Le16(ip.nlink) + Le32(ip.size) + EncodeAddrs(ip.addrs)
  }

  function Decode(s: seq<byte>): (ip: Inode)
    requires |s| == DSIZE
  {
    Inode(FromLe16(s[0..2]), FromLe16(s[2..4]), FromLe16(s[4..6]), FromLe16(s[6..8]), FromLe32(s[8..12]),
          seq(NDIRECT + 1, (j: nat) requires j < NDIRECT + 1 => FromLe32(s[12 + 4 * j .. 16 + 4 * j])))
  }

  lemma {:induction false} EncodedAddr(a: seq<uint32>, j: nat)
    requires j < |a|
    ensures EncodeAddrs(a)[4 * j .. 4 * j + 4] == Le32(a[j])
  {
    if j > 0 {
      EncodedAddr(a[1..], j - 1);
      var rest := EncodeAddrs(a[1..]);
      assert EncodeAddrs(a)[4 * j .. 4 * j + 4] == rest[4 * (j - 1) .. 4 * (j - 1) + 4];
    }
  }

  lemma DecodeEncode(ip: Inode)
    requires |ip.addrs| == NDIRECT + 1
    ensures Decode(Encode(ip)) == ip
  {
    var s := Encode(ip);
    assert s[0..2] == Le16(ip.kind) && s[2..4] == Le16(ip.major) && s[4..6] == Le16(ip.minor)
      && s[6..8] == Le16(ip.nlink);
    assert s[8..12] == Le32(ip.size);
    Le32RoundTrip(ip.size);
    forall j: nat | j < NDIRECT + 1 ensures FromLe32(s[12 + 4 * j .. 16 + 4 * j]) == ip.addrs[j] {
      EncodedAddr(ip.addrs, j);
      assert s[12 + 4 * j .. 16 + 4 * j] == EncodeAddrs(ip.addrs)[4 * j .. 4 * j + 4];
      Le32RoundTrip(ip.addrs[j]);
    }
  }

  function DinodeAt(b: Block, k: nat): (ip: Inode)
    requires k < IPB
  {
    Decode(b[DSIZE * k .. DSIZE * k + DSIZE])
  }

  function PutDinode(b: Block, k: nat, ip: Inode): (r: Block)
    requires k < IPB && |ip.addrs| == NDIRECT + 1
  {
    b[..DSIZE * k] + Encode(ip) + b[DSIZE * k + DSIZE..]
  }

  lemma OutsideSplice(b: seq<byte>, at: nat, mid: seq<byte>, from: nat)
    requires at + |mid| <= |b| && from + |mid| <= |b|
    requires from + |mid| <= at || at + |mid| <= from
    ensures (b[..at] + mid + b[at + |mid|..])[from .. from + |mid|] == b[from .. from + |mid|]
  {
    var r := b[..at] + mid + b[at + |mid|..];
    assert |r| == |b|;
    forall k | from <= k < from + |mid| ensures r[k] == b[k] {
      if k >= at {
        assert r[k] == b[at + |mid|..][k - at - |mid|];
      }
    }
  }

  /** Storing an inode record changes that record of the block and no other. */
  lemma DinodePut(b: Block, k: nat, ip: Inode, j: nat)
    requires k < IPB && j < IPB && |ip.addrs| == NDIRECT + 1
    ensures DinodeAt(PutDinode(b, k, ip), j) == if j == k then ip else DinodeAt(b, j)
  {
    var r := PutDinode(b, k, ip);
    if j == k {
      assert r[DSIZE * j .. DSIZE * j + DSIZE] == Encode(ip);
      DecodeEncode(ip);
    } else {
      OutsideSplice(b, DSIZE * k, Encode(ip), DSIZE * j);
    }
  }

  // ----- volumes -----

  /** The superblock, with the first data block as mkfs lays the disk out:
      inode blocks, then the free map, then data. */
  datatype Super = Super(size: nat, ninodes: nat, inodestart: nat, bmapstart: nat, datastart: nat) {
    predicate Wf() {
      && 0 < ninodes && 0 < inodestart
      && inodestart + (ninodes - 1) / IPB < bmapstart
      && bmapstart + (size - 1) / BPB < datastart <= size < 0x8000_0000
    }

    /** IBLOCK(i, sb). */
    function InodeBlock(i: nat): (r: nat) {
      i / IPB + inodestart
    }
  }

  /** Logical block contents, and the in-memory inodes by number. */
  datatype Volume = Volume(blocks: seq<Block>, inodes: seq<Inode>)

  /** Slots of an inode: NDIRECT direct blocks, the indirect block, the blocks under it. */
  const SLOTS := NDIRECT + 1 + NINDIRECT

  predicate IsData(sb: Super, b: nat) {
    sb.datastart <= b < sb.size
  }

  predicate Shape(sb: Super, v: Volume) {
    && sb.Wf() && |v.blocks| == sb.size && |v.inodes| == sb.ninodes
    && (forall i :: 0 <= i < |v.inodes| ==> InodeWf(v.inodes[i]))
    && (forall i :: 0 <= i < |v.inodes| ==>
          v.inodes[i].addrs[NDIRECT] == 0 || IsData(sb, v.inodes[i].addrs[NDIRECT]))
  }

  /** The block number in slot k of inode i, 0 if none. */
  function Addr(sb: Super, v: Volume, i: nat, k: nat): (a: nat)
    requires Shape(sb, v) && i < sb.ninodes && k < SLOTS
  {
    if k <= NDIRECT then v.inodes[i].addrs[k]
    else if v.inodes[i].addrs[NDIRECT] == 0 then 0
    else Word(v.blocks[v.inodes[i].addrs[NDIRECT]], k - NDIRECT - 1)
  }

  /** The slot of the n-th block of a file. */
  function FileSlot(n: nat): (k: nat)
    requires n < MAXFILE
    ensures k < SLOTS && k != NDIRECT
  {
    if n < NDIRECT then n else n + 1
  }

  predicate InUse(sb: Super, v: Volume, b: nat)
    requires Shape(sb, v) && b < sb.size
  {
    MapBlock(sb.bmapstart, b) < |v.blocks| && Marked(v.blocks, sb.bmapstart, b)
  }

  lemma LayoutOrder(sb: Super)
    requires sb.Wf()
    ensures sb.inodestart < sb.bmapstart < sb.datastart <= sb.size
  {
  }

  lemma MapInRange(sb: Super, b: nat)
    requires sb.Wf() && b < sb.size
    ensures sb.bmapstart <= MapBlock(sb.bmapstart, b) < sb.datastart
  {
    assert b / BPB <= (sb.size - 1) / BPB;
  }

  lemma InodeBlockInRange(sb: Super, i: nat)
    requires sb.Wf() && i < sb.ninodes
    ensures sb.inodestart <= sb.InodeBlock(i) < sb.bmapstart
  {
    assert i / IPB <= (sb.ninodes - 1) / IPB;
  }

  type Owners = map<nat, (nat, nat)>

  ghost predicate SlotOwned(sb: Super, v: Volume, owner: Owners, i: nat, k: nat)
    requires Shape(sb, v) && i < sb.ninodes && k < SLOTS
  {
    var a := Addr(sb, v, i, k);
    a != 0 ==> IsData(sb, a) && a in owner && owner[a] == (i, k)
  }

  ghost predicate SlotsOwned(sb: Super, v: Volume, owner: Owners)
    requires Shape(sb, v)
  {
    forall i, k :: 0 <= i < sb.ninodes && 0 <= k < SLOTS ==> SlotOwned(sb, v, owner, i, k)
  }

  ghost predicate OwnerPoints(sb: Super, v: Volume, owner: Owners, b: nat)
    requires Shape(sb, v) && b in owner
  {
    IsData(sb, b) && owner[b].0 < sb.ninodes && owner[b].1 < SLOTS && Addr(sb, v, owner[b].0, owner[b].1) == b
  }

  ghost predicate OwnersPoint(sb: Super, v: Volume, owner: Owners)
    requires Shape(sb, v)
  {
    forall b :: b in owner ==> OwnerPoints(sb, v, owner, b)
  }

  ghost predicate MapExact(sb: Super, v: Volume, owner: Owners)
    requires Shape(sb, v)
  {
    forall b :: 0 <= b < sb.size ==> (InUse(sb, v, b) <==> b < sb.datastart || b in owner)
  }

  /** Every slot in use holds a data block of its own, and exactly those blocks and
      the metadata blocks are marked in the free map. */
  ghost predicate Owned(sb: Super, v: Volume, owner: Owners)
    requires Shape(sb, v)
  {
    SlotsOwned(sb, v, owner) && OwnersPoint(sb, v, owner) && MapExact(sb, v, owner)
  }

  ghost predicate Inv(sb: Super, v: Volume, owner: Owners) {
    Shape(sb, v) && Owned(sb, v, owner)
  }

  lemma SlotFacts(sb: Super, v: Volume, owner: Owners, i: nat, k: nat)
    requires Inv(sb, v, owner) && i < sb.ninodes && k < SLOTS
    ensures SlotOwned(sb, v, owner, i, k)
    ensures Addr(sb, v, i, k) != 0 ==> IsData(sb, Addr(sb, v, i, k)) && InUse(sb, v, Addr(sb, v, i, k))
  {
    assert SlotOwned(sb, v, owner, i, k);
  }

  lemma MetadataInUse(sb: Super, v: Volume, owner: Owners)
    requires Inv(sb, v, owner)
    ensures forall b :: 0 <= b < sb.datastart ==> InUse(sb, v, b)
  {
    forall b | 0 <= b < sb.datastart ensures InUse(sb, v, b) {
    }
  }

  /** Byte p of file i; a hole reads as zero. */
  function ByteAt(sb: Super, v: Volume, i: nat, p: nat): (x: byte)
    requires Shape(sb, v) && i < sb.ninodes && p < MAXBYTES
  {
    var a := Addr(sb, v, i, FileSlot(p / BSIZE));
    if a == 0 || a >= |v.blocks| then 0 else v.blocks[a][p % BSIZE]
  }

  // ----- allocating a block for a slot -----

  /** balloc: mark the block and zero it. */
  function Taken(sb: Super, v: Volume, b: nat): (r: seq<Block>)
    requires Shape(sb, v) && b < sb.size && !InUse(sb, v, b)
  {
    Mark(v.blocks, sb.bmapstart, b)[b := ZeroBlock()]
  }

  /** ip->addrs[k] = b. */
  function SetAddr(ip: Inode, k: nat, b: uint32): (r: Inode)
    requires k < |ip.addrs|
  {
    Inode(ip.kind, ip.major, ip.minor, ip.nlink, ip.size, ip.addrs[k := b])
  }

  predicate CanGrow(sb: Super, v: Volume, i: nat, k: nat, b: nat) {
    && Shape(sb, v) && i < sb.ninodes && k < SLOTS && IsData(sb, b) && !InUse(sb, v, b)
    && (k > NDIRECT ==> v.inodes[i].addrs[NDIRECT] != 0)
  }

  /** bmap: give slot k of inode i the free block b. */
  function Grow(sb: Super, v: Volume, i: nat, k: nat, b: nat): (v': Volume)
    requires CanGrow(sb, v, i, k, b)
  {
    if k <= NDIRECT then
      Volume(Taken(sb, v, b), v.inodes[i := SetAddr(v.inodes[i], k, b)])
    else
      Volume(PutEntry(Taken(sb, v, b), v.inodes[i].addrs[NDIRECT], k - NDIRECT - 1, b), v.inodes)
  }

  /** a[j] = b in the indirect block. */
  function PutEntry(blocks: seq<Block>, ind: nat, j: nat, b: uint32): (r: seq<Block>)
    requires ind < |blocks| && j < NWORDS
  {
    blocks[ind := PutWord(blocks[ind], j, b)]
  }

  lemma TakenLength(sb: Super, v: Volume, b: nat)
    requires Shape(sb, v) && IsData(sb, b) && !InUse(sb, v, b)
    ensures b < |Taken(sb, v, b)| == |v.blocks| && Taken(sb, v, b)[b] == ZeroBlock()
  {
    MapInRange(sb, b);
  }

  lemma TakenElsewhere(sb: Super, v: Volume, b: nat, c: nat)
    requires Shape(sb, v) && IsData(sb, b) && !InUse(sb, v, b) && IsData(sb, c) && c != b
    ensures |Taken(sb, v, b)| == |v.blocks| && Taken(sb, v, b)[c] == v.blocks[c]
  {
    MapInRange(sb, b);
  }

  /** The blocks that Grow leaves alone. */
  lemma GrowElsewhere(sb: Super, v: Volume, i: nat, k: nat, b: nat, c: nat)
    requires CanGrow(sb, v, i, k, b) && IsData(sb, c) && c != b
    requires k > NDIRECT ==> c != v.inodes[i].addrs[NDIRECT]
    ensures |Grow(sb, v, i, k, b).blocks| == |v.blocks| && Grow(sb, v, i, k, b).blocks[c] == v.blocks[c]
  {
    TakenElsewhere(sb, v, b, c);
  }

  lemma GrowShape(sb: Super, v: Volume, i: nat, k: nat, b: nat)
    requires CanGrow(sb, v, i, k, b)
    ensures Shape(sb, Grow(sb, v, i, k, b))
  {
    TakenLength(sb, v, b);
    hide Taken, InUse, PutWord;
  }

  /** Allocation fills the slot it is for and changes no other. */
  lemma GrowAddr(sb: Super, v: Volume, owner: Owners, i: nat, k: nat, b: nat, j: nat, m: nat)
    requires Inv(sb, v, owner) && CanGrow(sb, v, i, k, b) && Addr(sb, v, i, k) == 0
    requires j < sb.ninodes && m < SLOTS
    ensures Shape(sb, Grow(sb, v, i, k, b))
    ensures Addr(sb, Grow(sb, v, i, k, b), j, m) == if j == i && m == k then b else Addr(sb, v, j, m)
  {
    GrowShape(sb, v, i, k, b);
    SlotFacts(sb, v, owner, j, NDIRECT);
    SlotFacts(sb, v, owner, i, NDIRECT);
    hide Shape, Taken, InUse, Owned;
    if m > NDIRECT {
      if k <= NDIRECT {
        GrowAddrDirect(sb, v, owner, i, k, b, j, m);
      } else {
        GrowAddrIndirect(sb, v, owner, i, k, b, j, m);
      }
    }
  }

  lemma GrowAddrDirect(sb: Super, v: Volume, owner: Owners, i: nat, k: nat, b: nat, j: nat, m: nat)
    requires Inv(sb, v, owner) && CanGrow(sb, v, i, k, b) && Addr(sb, v, i, k) == 0
    requires j < sb.ninodes && NDIRECT < m < SLOTS && k <= NDIRECT
    requires SlotOwned(sb, v, owner, j, NDIRECT)
    requires Shape(sb, Grow(sb, v, i, k, b))
    ensures Addr(sb, Grow(sb, v, i, k, b), j, m) == Addr(sb, v, j, m)
  {
    SlotFacts(sb, v, owner, j, NDIRECT);
    hide Owned, InUse, Word;
    var ind := v.inodes[j].addrs[NDIRECT];
    if ind == 0 {
      ZeroWord(m - NDIRECT - 1);
    } else {
      TakenElsewhere(sb, v, b, ind);
    }
  }

  lemma GrowAddrIndirect(sb: Super, v: Volume, owner: Owners, i: nat, k: nat, b: nat, j: nat, m: nat)
    requires Inv(sb, v, owner) && CanGrow(sb, v, i, k, b) && Addr(sb, v, i, k) == 0
    requires j < sb.ninodes && NDIRECT < m < SLOTS && NDIRECT < k
    requires SlotOwned(sb, v, owner, j, NDIRECT) && SlotOwned(sb, v, owner, i, NDIRECT)
    requires Shape(sb, Grow(sb, v, i, k, b))
    ensures Addr(sb, Grow(sb, v, i, k, b), j, m) == if j == i && m == k then b else Addr(sb, v, j, m)
  {
    SlotFacts(sb, v, owner, j, NDIRECT);
    hide Owned, InUse, Word;
    var ind := v.inodes[j].addrs[NDIRECT];
    if ind != 0 {
      TakenElsewhere(sb, v, b, ind);
      if j == i {
        WordPutWord(v.blocks[ind], k - NDIRECT - 1, b, m - NDIRECT - 1);
      }
    }
  }

  lemma GrowInUse(sb: Super, v: Volume, i: nat, k: nat, b: nat, c: nat)
    requires CanGrow(sb, v, i, k, b) && c < sb.size
    ensures Shape(sb, Grow(sb, v, i, k, b))
    ensures InUse(sb, Grow(sb, v, i, k, b), c) == (c == b || InUse(sb, v, c))
  {
    MapInRange(sb, b);
    MapInRange(sb, c);
    GrowShape(sb, v, i, k, b);
    MarkedMark(v.blocks, sb.bmapstart, b, c);
    assert Grow(sb, v, i, k, b).blocks[MapBlock(sb.bmapstart, c)] ==
        Mark(v.blocks, sb.bmapstart, b)[MapBlock(sb.bmapstart, c)];
  }

  lemma GrowSlots(sb: Super, v: Volume, owner: Owners, i: nat, k: nat, b: nat)
    requires Inv(sb, v, owner) && CanGrow(sb, v, i, k, b) && Addr(sb, v, i, k) == 0 && b !in owner
    requires Shape(sb, Grow(sb, v, i, k, b))
    ensures SlotsOwned(sb, Grow(sb, v, i, k, b), owner[b := (i, k)])
  {
    var v', owner' := Grow(sb, v, i, k, b), owner[b := (i, k)];
    hide Shape, Grow, Addr, InUse, MapExact, OwnersPoint;
    forall j, m | 0 <= j < sb.ninodes && 0 <= m < SLOTS ensures SlotOwned(sb, v', owner', j, m) {
      GrowAddr(sb, v, owner, i, k, b, j, m);
      assert SlotOwned(sb, v, owner, j, m);
    }
  }

  lemma DataAfterMetadata(sb: Super, v: Volume)
    requires Shape(sb, v)
    ensures sb.datastart > 0
  {
  }

  lemma GrowOwner(sb: Super, v: Volume, owner: Owners, i: nat, k: nat, b: nat, c: nat)
    requires Inv(sb, v, owner) && CanGrow(sb, v, i, k, b) && Addr(sb, v, i, k) == 0 && b !in owner
    requires Shape(sb, Grow(sb, v, i, k, b)) && (c == b || c in owner)
    ensures OwnerPoints(sb, Grow(sb, v, i, k, b), owner[b := (i, k)], c)
  {
    hide Shape, Grow, Addr, InUse, MapExact, SlotsOwned;
    DataAfterMetadata(sb, v);
    if c == b {
      GrowAddr(sb, v, owner, i, k, b, i, k);
    } else {
      assert OwnerPoints(sb, v, owner, c);
      GrowAddr(sb, v, owner, i, k, b, owner[c].0, owner[c].1);
    }
  }

  lemma GrowOwners(sb: Super, v: Volume, owner: Owners, i: nat, k: nat, b: nat)
    requires Inv(sb, v, owner) && CanGrow(sb, v, i, k, b) && Addr(sb, v, i, k) == 0 && b !in owner
    requires Shape(sb, Grow(sb, v, i, k, b))
    ensures OwnersPoint(sb, Grow(sb, v, i, k, b), owner[b := (i, k)])
  {
    hide Shape, Grow, Addr, InUse, Owned, OwnerPoints;
    var v', owner' := Grow(sb, v, i, k, b), owner[b := (i, k)];
    forall c | c in owner' ensures OwnerPoints(sb, v', owner', c) {
      GrowOwner(sb, v, owner, i, k, b, c);
    }
  }

  /** Allocation keeps ownership: the new block belongs to the slot that got it. */
  lemma GrowKeeps(sb: Super, v: Volume, owner: Owners, i: nat, k: nat, b: nat)
    requires Inv(sb, v, owner) && CanGrow(sb, v, i, k, b) && Addr(sb, v, i, k) == 0
    ensures Inv(sb, Grow(sb, v, i, k, b), owner[b := (i, k)])
  {
    GrowShape(sb, v, i, k, b);
    assert b !in owner;
    hide Shape, Grow, Addr, InUse, SlotsOwned, OwnersPoint;
    GrowSlots(sb, v, owner, i, k, b);
    GrowOwners(sb, v, owner, i, k, b);
    forall c | 0 <= c < sb.size
      ensures InUse(sb, Grow(sb, v, i, k, b), c) <==> c < sb.datastart || c in owner[b := (i, k)]
    {
      GrowInUse(sb, v, i, k, b, c);
    }
  }

  /** The new block is zeroed, and putting it into an indirect block does not touch it. */
  lemma GrowZeroed(sb: Super, v: Volume, owner: Owners, i: nat, k: nat, b: nat)
    requires Inv(sb, v, owner) && CanGrow(sb, v, i, k, b)
    ensures var v' := Grow(sb, v, i, k, b); b < |v'.blocks| && v'.blocks[b] == ZeroBlock()
  {
    hide Owned, InUse, MapBlock, Mark, Word, PutWord;
    SlotFacts(sb, v, owner, i, NDIRECT);
    assert Addr(sb, v, i, NDIRECT) == v.inodes[i].addrs[NDIRECT];
    TakenLength(sb, v, b);
  }

  /** A block that belongs to a file's slot keeps its contents. */
  lemma GrowSpares(sb: Super, v: Volume, owner: Owners, i: nat, k: nat, b: nat, j: nat, m: nat)
    requires Inv(sb, v, owner) && CanGrow(sb, v, i, k, b)
    requires j < sb.ninodes && m < SLOTS && m != NDIRECT && Addr(sb, v, j, m) != 0
    ensures var v' := Grow(sb, v, i, k, b); var a := Addr(sb, v, j, m);
            a < |v.blocks| && a < |v'.blocks| && v'.blocks[a] == v.blocks[a]
  {
    SlotFacts(sb, v, owner, j, m);
    SlotFacts(sb, v, owner, i, NDIRECT);
    var a := Addr(sb, v, j, m);
    assert k > NDIRECT ==> a != v.inodes[i].addrs[NDIRECT];
    hide Owned, Mark, Word, Grow, Addr;
    GrowElsewhere(sb, v, i, k, b, a);
  }

  /** A fresh block is zeroed, so no file's bytes change. */
  lemma GrowBytes(sb: Super, v: Volume, owner: Owners, i: nat, k: nat, b: nat, j: nat, p: nat)
    requires Inv(sb, v, owner) && CanGrow(sb, v, i, k, b) && Addr(sb, v, i, k) == 0
    requires j < sb.ninodes && p < MAXBYTES
    ensures Shape(sb, Grow(sb, v, i, k, b))
    ensures ByteAt(sb, Grow(sb, v, i, k, b), j, p) == ByteAt(sb, v, j, p)
  {
    hide Owned, InUse, Grow, Addr, FileSlot, Shape;
    var m := FileSlot(p / BSIZE);
    GrowAddr(sb, v, owner, i, k, b, j, m);
    if j == i && m == k {
      GrowZeroed(sb, v, owner, i, k, b);
    } else if Addr(sb, v, j, m) != 0 {
      GrowSpares(sb, v, owner, i, k, b, j, m);
    }
  }

  // ----- writing into a file's block -----

  function Splice(s: seq<byte>, o: nat, data: seq<byte>): (r: seq<byte>)
    requires o + |data| <= |s|
    ensures |r| == |s|
  {
    s[..o] + data + s[o + |data|..]
  }

  /** memmove into block a at offset o. */
  function Store(v: Volume, a: nat, o: nat, data: seq<byte>): (v': Volume)
    requires a < |v.blocks| && o + |data| <= BSIZE
  {
    Volume(v.blocks[a := Splice(v.blocks[a], o, data)], v.inodes)
  }

  lemma StoreAddr(sb: Super, v: Volume, owner: Owners, i: nat, n: nat, o: nat, data: seq<byte>, j: nat, m: nat)
    requires Inv(sb, v, owner) && i < sb.ninodes && n < MAXFILE && Addr(sb, v, i, FileSlot(n)) != 0
    requires o + |data| <= BSIZE && j < sb.ninodes && m < SLOTS
    ensures var a := Addr(sb, v, i, FileSlot(n));
            IsData(sb, a) && Shape(sb, Store(v, a, o, data))
              && Addr(sb, Store(v, a, o, data), j, m) == Addr(sb, v, j, m)
  {
    SlotFacts(sb, v, owner, i, FileSlot(n));
    SlotFacts(sb, v, owner, j, NDIRECT);
    hide Owned, InUse, Word;
  }

  lemma StoreKeeps(sb: Super, v: Volume, owner: Owners, i: nat, n: nat, o: nat, data: seq<byte>)
    requires Inv(sb, v, owner) && i < sb.ninodes && n < MAXFILE && Addr(sb, v, i, FileSlot(n)) != 0
    requires o + |data| <= BSIZE
    ensures var a := Addr(sb, v, i, FileSlot(n));
            IsData(sb, a) && Inv(sb, Store(v, a, o, data), owner)
  {
    var a := Addr(sb, v, i, FileSlot(n));
    StoreAddr(sb, v, owner, i, n, o, data, 0, 0);
    var v' := Store(v, a, o, data);
    forall c | 0 <= c < sb.size ensures InUse(sb, v', c) <==> InUse(sb, v, c) {
      MapInRange(sb, c);
    }
    assert MapExact(sb, v', owner);
    hide Shape, Store, Addr, InUse, MapExact;
    forall j, m | 0 <= j < sb.ninodes && 0 <= m < SLOTS ensures SlotOwned(sb, v', owner, j, m) {
      StoreAddr(sb, v, owner, i, n, o, data, j, m);
      assert SlotOwned(sb, v, owner, j, m);
    }
    forall c | c in owner ensures OwnerPoints(sb, v', owner, c) {
      assert OwnerPoints(sb, v, owner, c);
      StoreAddr(sb, v, owner, i, n, o, data, owner[c].0, owner[c].1);
    }
  }

  /** Writing into block n of file i changes exactly the bytes written. */
  lemma StoreBytes(sb: Super, v: Volume, owner: Owners, i: nat, n: nat, o: nat, data: seq<byte>, j: nat, p: nat)
    requires Inv(sb, v, owner) && i < sb.ninodes && n < MAXFILE && Addr(sb, v, i, FileSlot(n)) != 0
    requires o + |data| <= BSIZE && j < sb.ninodes && p < MAXBYTES
    ensures var a := Addr(sb, v, i, FileSlot(n));
            var from := n * BSIZE + o;
            IsData(sb, a) && Shape(sb, Store(v, a, o, data))
            && ByteAt(sb, Store(v, a, o, data), j, p) ==
               if j == i && from <= p < from + |data| then data[p - from] else ByteAt(sb, v, j, p)
  {
    hide Owned, InUse, Addr, FileSlot;
    var m := FileSlot(p / BSIZE);
    StoreAddr(sb, v, owner, i, n, o, data, j, m);
    assert p == p / BSIZE * BSIZE + p % BSIZE;
    if Addr(sb, v, j, m) == Addr(sb, v, i, FileSlot(n)) {
      OneFileBlock(sb, v, owner, i, n, j, p / BSIZE);
    }
  }

  /** A block is one block of one file. */
  lemma OneFileBlock(sb: Super, v: Volume, owner: Owners, i: nat, n: nat, j: nat, m: nat)
    requires Inv(sb, v, owner) && i < sb.ninodes && j < sb.ninodes && n < MAXFILE && m < MAXFILE
    requires Addr(sb, v, i, FileSlot(n)) == Addr(sb, v, j, FileSlot(m)) != 0
    ensures i == j && n == m
  {
    SlotFacts(sb, v, owner, i, FileSlot(n));
    SlotFacts(sb, v, owner, j, FileSlot(m));
  }

  // ----- the inode record on disk -----

  /** Blocks of the inode area hold neither data nor the free map. */
  ghost predicate SameStorage(sb: Super, v: Volume, v': Volume)
    requires Shape(sb, v) && Shape(sb, v')
  {
    && (forall j :: 0 <= j < sb.ninodes ==> v'.inodes[j].addrs == v.inodes[j].addrs)
    && (forall c :: sb.bmapstart <= c < sb.size ==> v'.blocks[c] == v.blocks[c])
  }

  lemma SameStorageAddr(sb: Super, v: Volume, v': Volume, owner: Owners, j: nat, m: nat)
    requires Inv(sb, v, owner) && Shape(sb, v') && SameStorage(sb, v, v') && j < sb.ninodes && m < SLOTS
    ensures Addr(sb, v', j, m) == Addr(sb, v, j, m) && SlotOwned(sb, v', owner, j, m)
  {
    SlotFacts(sb, v, owner, j, m);
    SlotFacts(sb, v, owner, j, NDIRECT);
    LayoutOrder(sb);
    hide Owned, InUse, Word, Super.Wf;
  }

  lemma SameByte(sb: Super, v: Volume, v': Volume, j: nat, p: nat)
    requires Shape(sb, v) && Shape(sb, v') && j < sb.ninodes && p < MAXBYTES && |v.blocks| == |v'.blocks|
    requires var a := Addr(sb, v, j, FileSlot(p / BSIZE));
             Addr(sb, v', j, FileSlot(p / BSIZE)) == a && (a != 0 && a < |v.blocks| ==> v'.blocks[a] == v.blocks[a])
    ensures ByteAt(sb, v', j, p) == ByteAt(sb, v, j, p)
  {
    hide Shape, Addr;
  }

  lemma SameStorageBytes(sb: Super, v: Volume, v': Volume, owner: Owners, j: nat, p: nat)
    requires Inv(sb, v, owner) && Shape(sb, v') && SameStorage(sb, v, v') && j < sb.ninodes && p < MAXBYTES
    ensures ByteAt(sb, v', j, p) == ByteAt(sb, v, j, p)
  {
    var k := FileSlot(p / BSIZE);
    SameStorageAddr(sb, v, v', owner, j, k);
    SlotFacts(sb, v, owner, j, k);
    LayoutOrder(sb);
    hide Owned, Addr, ByteAt, InUse, Word, Super.Wf;
    SameByte(sb, v, v', j, p);
  }

  lemma SameStorageKeeps(sb: Super, v: Volume, v': Volume, owner: Owners)
    requires Inv(sb, v, owner) && Shape(sb, v') && SameStorage(sb, v, v')
    ensures Inv(sb, v', owner)
  {
    forall c | 0 <= c < sb.size ensures InUse(sb, v', c) <==> InUse(sb, v, c) {
      MapInRange(sb, c);
    }
    assert MapExact(sb, v', owner);
    hide Shape, Addr, InUse, MapExact, SameStorage;
    forall j, m | 0 <= j < sb.ninodes && 0 <= m < SLOTS ensures SlotOwned(sb, v', owner, j, m) {
      SameStorageAddr(sb, v, v', owner, j, m);
    }
    forall c | c in owner ensures OwnerPoints(sb, v', owner, c) {
      assert OwnerPoints(sb, v, owner, c);
      SameStorageAddr(sb, v, v', owner, owner[c].0, owner[c].1);
    }
  }

  predicate IsRecordBlock(sb: Super, n: nat) {
    sb.inodestart <= n < sb.bmapstart
  }

  /** The record of inode i in the inode area. */
  function OnDisk(sb: Super, v: Volume, i: nat): (ip: Inode)
    requires Shape(sb, v) && i < sb.ninodes && IsRecordBlock(sb, sb.InodeBlock(i))
  {
    DinodeAt(v.blocks[sb.InodeBlock(i)], i % IPB)
  }

  /** iupdate: copy the in-memory inode to its record. */
  function Written(sb: Super, v: Volume, i: nat): (v': Volume)
    requires Shape(sb, v) && i < sb.ninodes && IsRecordBlock(sb, sb.InodeBlock(i))
  {
    Volume(v.blocks[sb.InodeBlock(i) := PutDinode(v.blocks[sb.InodeBlock(i)], i % IPB, v.inodes[i])], v.inodes)
  }

  lemma WrittenOnDisk(sb: Super, v: Volume, i: nat, j: nat)
    requires Shape(sb, v) && i < sb.ninodes && j < sb.ninodes
    requires IsRecordBlock(sb, sb.InodeBlock(i)) && IsRecordBlock(sb, sb.InodeBlock(j))
    ensures Shape(sb, Written(sb, v, i)) && SameStorage(sb, v, Written(sb, v, i))
    ensures OnDisk(sb, Written(sb, v, i), j) == if j == i then v.inodes[i] else OnDisk(sb, v, j)
  {
    hide DinodeAt, PutDinode, Word;
    if sb.InodeBlock(i) == sb.InodeBlock(j) {
      DinodePut(v.blocks[sb.InodeBlock(i)], i % IPB, v.inodes[i], j % IPB);
      if i % IPB == j % IPB {
        assert i == IPB * (i / IPB) + i % IPB && j == IPB * (j / IPB) + j % IPB;
      }
    }
  }

  // ----- what an allocation keeps -----

  ghost predicate SameBytes(sb: Super, v: Volume, v': Volume)
    requires Shape(sb, v) && Shape(sb, v')
  {
    forall j, p :: 0 <= j < sb.ninodes && 0 <= p < MAXBYTES ==> ByteAt(sb, v', j, p) == ByteAt(sb, v, j, p)
  }

  /** Filling slot k may take filling slot m: the indirect block comes before what is under it. */
  predicate Fillable(k: nat, m: nat) {
    m == k || (m == NDIRECT && NDIRECT < k)
  }

  /** Only empty slots of inode i that filling slot k takes may have been filled. */
  ghost predicate SlotsKept(sb: Super, v: Volume, v': Volume, i: nat, k: nat)
    requires Shape(sb, v) && Shape(sb, v')
  {
    forall j, m :: 0 <= j < sb.ninodes && 0 <= m < SLOTS ==>
      Addr(sb, v', j, m) == Addr(sb, v, j, m) || (j == i && Fillable(k, m) && Addr(sb, v, j, m) == 0)
  }

  /** An inode with other block addresses. */
  function Readdressed(ip: Inode, addrs: seq<uint32>): (r: Inode) {
    Inode(ip.kind, ip.major, ip.minor, ip.nlink, ip.size, addrs)
  }

  /** Inode fields other than addresses, and the blocks before the free map, are kept. */
  ghost predicate RecordsKept(sb: Super, v: Volume, v': Volume)
    requires Shape(sb, v) && Shape(sb, v')
  {
    && (forall j :: 0 <= j < sb.ninodes ==> v'.inodes[j] == Readdressed(v.inodes[j], v'.inodes[j].addrs))
    && (forall c :: 0 <= c < sb.bmapstart ==> v'.blocks[c] == v.blocks[c])
  }

  lemma GrowFrame(sb: Super, v: Volume, owner: Owners, i: nat, k: nat, b: nat)
    requires Inv(sb, v, owner) && CanGrow(sb, v, i, k, b) && Addr(sb, v, i, k) == 0
    ensures Shape(sb, Grow(sb, v, i, k, b))
    ensures SameBytes(sb, v, Grow(sb, v, i, k, b)) && SlotsKept(sb, v, Grow(sb, v, i, k, b), i, k)
  {
    GrowShape(sb, v, i, k, b);
    hide Shape, Grow, Addr, ByteAt, Owned;
    forall j, p | 0 <= j < sb.ninodes && 0 <= p < MAXBYTES
      ensures ByteAt(sb, Grow(sb, v, i, k, b), j, p) == ByteAt(sb, v, j, p)
    {
      GrowBytes(sb, v, owner, i, k, b, j, p);
    }
    forall j, m | 0 <= j < sb.ninodes && 0 <= m < SLOTS
      ensures Addr(sb, Grow(sb, v, i, k, b), j, m) == Addr(sb, v, j, m)
              || (j == i && Fillable(k, m) && Addr(sb, v, j, m) == 0)
    {
      GrowAddr(sb, v, owner, i, k, b, j, m);
    }
  }

  lemma GrowRecords(sb: Super, v: Volume, owner: Owners, i: nat, k: nat, b: nat)
    requires Inv(sb, v, owner) && CanGrow(sb, v, i, k, b) && Addr(sb, v, i, k) == 0
    ensures Shape(sb, Grow(sb, v, i, k, b)) && RecordsKept(sb, v, Grow(sb, v, i, k, b))
  {
    GrowShape(sb, v, i, k, b);
    MapInRange(sb, b);
    SlotFacts(sb, v, owner, i, NDIRECT);
    hide Owned, InUse, Word;
  }

  lemma KeptTwice(sb: Super, v: Volume, v1: Volume, v2: Volume, i: nat, k: nat)
    requires Shape(sb, v) && Shape(sb, v1) && Shape(sb, v2)
    requires SameBytes(sb, v, v1) && SlotsKept(sb, v, v1, i, NDIRECT) && RecordsKept(sb, v, v1)
    requires SameBytes(sb, v1, v2) && SlotsKept(sb, v1, v2, i, k) && RecordsKept(sb, v1, v2) && k > NDIRECT
    ensures SameBytes(sb, v, v2) && SlotsKept(sb, v, v2, i, k) && RecordsKept(sb, v, v2)
  {
    hide Shape, Addr, ByteAt;
    forall j, p | 0 <= j < sb.ninodes && 0 <= p < MAXBYTES ensures ByteAt(sb, v2, j, p) == ByteAt(sb, v, j, p) {
      assert ByteAt(sb, v1, j, p) == ByteAt(sb, v, j, p);
    }
    forall j, m | 0 <= j < sb.ninodes && 0 <= m < SLOTS
      ensures Addr(sb, v2, j, m) == Addr(sb, v, j, m) || (j == i && Fillable(k, m) && Addr(sb, v, j, m) == 0)
    {
      assert Addr(sb, v1, j, m) == Addr(sb, v, j, m) || (j == i && m == NDIRECT && Addr(sb, v, j, m) == 0);
    }
  }

  /** v' is v with `data` at offset `from` of file i, and no other byte changed. */
  ghost predicate Wrote(sb: Super, v: Volume, v': Volume, i: nat, from: nat, data: seq<byte>)
    requires Shape(sb, v) && Shape(sb, v')
  {
    forall j, p :: 0 <= j < sb.ninodes && 0 <= p < MAXBYTES ==>
      ByteAt(sb, v', j, p) == if j == i && from <= p < from + |data| then data[p - from] else ByteAt(sb, v, j, p)
  }

  lemma StoreFrame(sb: Super, v: Volume, owner: Owners, i: nat, n: nat, o: nat, data: seq<byte>, k: nat)
    requires Inv(sb, v, owner) && i < sb.ninodes && n < MAXFILE && Addr(sb, v, i, FileSlot(n)) != 0
    requires o + |data| <= BSIZE
    ensures var a := Addr(sb, v, i, FileSlot(n));
            IsData(sb, a) && Shape(sb, Store(v, a, o, data))
            && Wrote(sb, v, Store(v, a, o, data), i, n * BSIZE + o, data)
            && RecordsKept(sb, v, Store(v, a, o, data)) && SlotsKept(sb, v, Store(v, a, o, data), i, k)
  {
    var a := Addr(sb, v, i, FileSlot(n));
    StoreAddr(sb, v, owner, i, n, o, data, i, 0);
    var v' := Store(v, a, o, data);
    assert RecordsKept(sb, v, v');
    hide Inv, Shape, Store, Addr, ByteAt, RecordsKept;
    forall j, p | 0 <= j < sb.ninodes && 0 <= p < MAXBYTES
      ensures ByteAt(sb, v', j, p) ==
              if j == i && n * BSIZE + o <= p < n * BSIZE + o + |data| then data[p - (n * BSIZE + o)]
                  else ByteAt(sb, v, j, p)
    {
      StoreBytes(sb, v, owner, i, n, o, data, j, p);
    }
    forall j, m | 0 <= j < sb.ninodes && 0 <= m < SLOTS ensures Addr(sb, v', j, m) == Addr(sb, v, j, m) {
      StoreAddr(sb, v, owner, i, n, o, data, j, m);
    }
  }

  /** Mapping a block and then writing into it. */
  lemma MapThenStore(sb: Super, v: Volume, v1: Volume, v2: Volume, i: nat, k: nat, from: nat, data: seq<byte>)
    requires Shape(sb, v) && Shape(sb, v1) && Shape(sb, v2)
    requires SameBytes(sb, v, v1) && SlotsKept(sb, v, v1, i, k) && RecordsKept(sb, v, v1)
    requires Wrote(sb, v1, v2, i, from, data) && SlotsKept(sb, v1, v2, i, k) && RecordsKept(sb, v1, v2)
    ensures Wrote(sb, v, v2, i, from, data) && SlotsKept(sb, v, v2, i, k) && RecordsKept(sb, v, v2)
  {
    hide Shape, Addr, ByteAt;
    forall j, p | 0 <= j < sb.ninodes && 0 <= p < MAXBYTES
      ensures ByteAt(sb, v2, j, p) ==
                if j == i && from <= p < from + |data| then data[p - from] else ByteAt(sb, v, j, p)
    {
      assert ByteAt(sb, v1, j, p) == ByteAt(sb, v, j, p);
    }
    forall j, m | 0 <= j < sb.ninodes && 0 <= m < SLOTS
      ensures Addr(sb, v2, j, m) == Addr(sb, v, j, m) || (j == i && Fillable(k, m) && Addr(sb, v, j, m) == 0)
    {
      assert Addr(sb, v1, j, m) == Addr(sb, v, j, m) || (j == i && Fillable(k, m) && Addr(sb, v, j, m) == 0);
    }
  }

  /** Slots in use stay; only empty slots of inode i may have been filled. */
  ghost predicate SlotsGrew(sb: Super, v: Volume, v': Volume, i: nat)
    requires Shape(sb, v) && Shape(sb, v')
  {
    forall j, m :: 0 <= j < sb.ninodes && 0 <= m < SLOTS ==>
      Addr(sb, v', j, m) == Addr(sb, v, j, m) || (j == i && Addr(sb, v, j, m) == 0)
  }

  lemma WroteMore(sb: Super, v: Volume, v1: Volume, v2: Volume, i: nat, from: nat, src: seq<byte>, tot: nat, m: nat,
                  k: nat)
    requires Shape(sb, v) && Shape(sb, v1) && Shape(sb, v2) && tot + m <= |src|
    requires Wrote(sb, v, v1, i, from, src[..tot]) && SlotsGrew(sb, v, v1, i) && RecordsKept(sb, v, v1)
    requires Wrote(sb, v1, v2, i, from + tot, src[tot..tot + m]) && SlotsKept(sb, v1, v2, i, k)
             && RecordsKept(sb, v1, v2)
    ensures Wrote(sb, v, v2, i, from, src[..tot + m]) && SlotsGrew(sb, v, v2, i) && RecordsKept(sb, v, v2)
  {
    hide Shape, Addr, ByteAt;
    forall j, p | 0 <= j < sb.ninodes && 0 <= p < MAXBYTES
      ensures ByteAt(sb, v2, j, p) ==
              if j == i && from <= p < from + |src[..tot + m]| then src[..tot + m][p - from] else ByteAt(sb, v, j, p)
    {
      assert ByteAt(sb, v1, j, p) ==
          if j == i && from <= p < from + tot then src[..tot][p - from] else ByteAt(sb, v, j, p);
    }
    forall j, m | 0 <= j < sb.ninodes && 0 <= m < SLOTS
      ensures Addr(sb, v2, j, m) == Addr(sb, v, j, m) || (j == i && Addr(sb, v, j, m) == 0)
    {
      assert Addr(sb, v1, j, m) == Addr(sb, v, j, m) || (j == i && Addr(sb, v, j, m) == 0);
    }
  }

  // ----- file contents -----

  /** Blocks needed for x bytes. */
  function Span(x: nat): (n: nat) {
    (x + BSIZE - 1) / BSIZE
  }

  /** Every block of the file up to its size is mapped. */
  ghost predicate NoHoles(sb: Super, v: Volume, i: nat)
    requires Shape(sb, v) && i < sb.ninodes
  {
    forall n :: 0 <= n < Span(v.inodes[i].size) && n < MAXFILE ==> Addr(sb, v, i, FileSlot(n)) != 0
  }

  /** The inode's record on disk is current. */
  ghost predicate Synced(sb: Super, v: Volume, i: nat)
    requires Shape(sb, v) && i < sb.ninodes
  {
    IsRecordBlock(sb, sb.InodeBlock(i)) && OnDisk(sb, v, i) == v.inodes[i]
  }

  ghost function Content(sb: Super, v: Volume, i: nat): (s: seq<byte>)
    requires Shape(sb, v) && i < sb.ninodes
    ensures |s| == v.inodes[i].size
  {
    seq(v.inodes[i].size, p requires 0 <= p < v.inodes[i].size => ByteAt(sb, v, i, p))
  }

  lemma RecordsTwice(sb: Super, v: Volume, v1: Volume, v2: Volume)
    requires Shape(sb, v) && Shape(sb, v1) && Shape(sb, v2) && RecordsKept(sb, v, v1) && RecordsKept(sb, v1, v2)
    ensures RecordsKept(sb, v, v2)
  {
  }

  // ----- truncation -----

  /** The slots in `done` of inode i have been freed, and no other block. */
  ghost predicate Released(sb: Super, v: Volume, v': Volume, owner: Owners, i: nat, done: set<nat>)
    requires Shape(sb, v) && Shape(sb, v')
  {
    forall b :: 0 <= b < sb.size ==>
      (InUse(sb, v', b) <==> InUse(sb, v, b) && !(b in owner && owner[b].0 == i && owner[b].1 in done))
  }

  ghost predicate SameOutsideMap(sb: Super, v: Volume, v': Volume)
    requires Shape(sb, v) && Shape(sb, v')
  {
    forall c :: 0 <= c < sb.size && !(sb.bmapstart <= c < sb.datastart) ==> v'.blocks[c] == v.blocks[c]
  }

  /** The block of a slot that is not freed yet is still marked. */
  lemma StillInUse(sb: Super, v: Volume, v': Volume, owner: Owners, i: nat, k: nat, done: set<nat>)
    requires Inv(sb, v, owner) && Shape(sb, v') && i < sb.ninodes && k < SLOTS && k !in done
    requires Released(sb, v, v', owner, i, done) && Addr(sb, v, i, k) != 0
    ensures IsData(sb, Addr(sb, v, i, k)) && InUse(sb, v', Addr(sb, v, i, k))
  {
    SlotFacts(sb, v, owner, i, k);
  }

  lemma ReleasedMore(sb: Super, v: Volume, v1: Volume, v2: Volume, owner: Owners, i: nat, k: nat, done: set<nat>)
    requires Inv(sb, v, owner) && Shape(sb, v1) && Shape(sb, v2) && i < sb.ninodes && k < SLOTS
    requires Released(sb, v, v1, owner, i, done)
    requires var a := Addr(sb, v, i, k);
             forall c :: 0 <= c < sb.size ==> (InUse(sb, v2, c) <==> (a == 0 || c != a) && InUse(sb, v1, c))
    ensures Released(sb, v, v2, owner, i, done + {k})
  {
    var a := Addr(sb, v, i, k);
    SlotFacts(sb, v, owner, i, k);
    hide Owned, InUse, Addr, Shape;
    forall b | 0 <= b < sb.size
      ensures InUse(sb, v2, b) <==> InUse(sb, v, b) && !(b in owner && owner[b].0 == i && owner[b].1 in done + {k})
    {
      if b in owner {
        OwnerFacts(sb, v, owner, b);
      }
    }
  }

  lemma OwnerFacts(sb: Super, v: Volume, owner: Owners, b: nat)
    requires Inv(sb, v, owner) && b in owner
    ensures OwnerPoints(sb, v, owner, b) && owner[b].1 < SLOTS
  {
    assert OwnerPoints(sb, v, owner, b);
  }

  lemma SameBlocks(sb: Super, v: Volume, v1: Volume, v2: Volume, owner: Owners, i: nat, done: set<nat>)
    requires Shape(sb, v) && Shape(sb, v1) && Shape(sb, v2) && v1.blocks == v2.blocks
    requires Released(sb, v, v1, owner, i, done) && SameOutsideMap(sb, v, v1)
    ensures Released(sb, v, v2, owner, i, done) && SameOutsideMap(sb, v, v2)
  {
    forall b | 0 <= b < sb.size ensures InUse(sb, v2, b) <==> InUse(sb, v1, b) {
    }
  }

  /** An inode without blocks. */
  predicate IsEmpty(ip: Inode) {
    InodeWf(ip) && ip.size == 0 && forall m :: 0 <= m <= NDIRECT ==> ip.addrs[m] == 0
  }

  ghost function OwnersWithout(owner: Owners, i: nat): (r: Owners) {
    map b | b in owner && owner[b].0 != i :: owner[b]
  }

  lemma TruncatedAddr(sb: Super, v: Volume, v': Volume, owner: Owners, i: nat, j: nat, m: nat)
    requires Inv(sb, v, owner) && Shape(sb, v') && i < sb.ninodes && SameOutsideMap(sb, v, v')
    requires v'.inodes == v.inodes[i := v'.inodes[i]] && IsEmpty(v'.inodes[i]) && j < sb.ninodes && m < SLOTS
    ensures Addr(sb, v', j, m) == if j == i then 0 else Addr(sb, v, j, m)
  {
    SlotFacts(sb, v, owner, j, NDIRECT);
    hide Owned, InUse, Word;
  }

  /** Freeing every slot of inode i and emptying it leaves the rest owned as before. */
  lemma TruncatedKeeps(sb: Super, v: Volume, v': Volume, owner: Owners, i: nat, done: set<nat>)
    requires Inv(sb, v, owner) && Shape(sb, v') && i < sb.ninodes && SameOutsideMap(sb, v, v')
    requires v'.inodes == v.inodes[i := v'.inodes[i]] && IsEmpty(v'.inodes[i])
    requires Released(sb, v, v', owner, i, done) && forall m :: 0 <= m < SLOTS ==> m in done
    ensures Inv(sb, v', OwnersWithout(owner, i))
  {
    var owner' := OwnersWithout(owner, i);
    forall b | 0 <= b < sb.size ensures InUse(sb, v', b) <==> b < sb.datastart || b in owner' {
      if b in owner { assert OwnerPoints(sb, v, owner, b); }
    }
    assert MapExact(sb, v', owner');
    hide Shape, Addr, InUse, MapExact, SameOutsideMap, Released, IsEmpty;
    forall j, m | 0 <= j < sb.ninodes && 0 <= m < SLOTS ensures SlotOwned(sb, v', owner', j, m) {
      TruncatedAddr(sb, v, v', owner, i, j, m);
      assert SlotOwned(sb, v, owner, j, m);
    }
    forall c | c in owner' ensures OwnerPoints(sb, v', owner', c) {
      assert OwnerPoints(sb, v, owner, c);
      TruncatedAddr(sb, v, v', owner, i, owner[c].0, owner[c].1);
    }
  }

  lemma TruncatedBytes(sb: Super, v: Volume, v': Volume, owner: Owners, i: nat, j: nat, p: nat)
    requires Inv(sb, v, owner) && Shape(sb, v') && i < sb.ninodes && SameOutsideMap(sb, v, v')
    requires v'.inodes == v.inodes[i := v'.inodes[i]] && IsEmpty(v'.inodes[i]) && j < sb.ninodes && p < MAXBYTES
    ensures ByteAt(sb, v', j, p) == if j == i then 0 else ByteAt(sb, v, j, p)
  {
    var k := FileSlot(p / BSIZE);
    TruncatedAddr(sb, v, v', owner, i, j, k);
    if j != i {
      SlotFacts(sb, v, owner, j, k);
      hide Owned, Addr, ByteAt, InUse, IsEmpty;
      SameByte(sb, v, v', j, p);
    }
  }

  lemma ReleasedEmpty(sb: Super, v: Volume, v': Volume, owner: Owners, i: nat, done: set<nat>, all: set<nat>)
    requires Inv(sb, v, owner) && Shape(sb, v') && i < sb.ninodes && Released(sb, v, v', owner, i, done)
    requires done <= all && forall m :: m in all && m !in done ==> m < SLOTS && Addr(sb, v, i, m) == 0
    ensures Released(sb, v, v', owner, i, all)
  {
    LayoutOrder(sb);
    hide Owned, InUse, Addr, Shape;
    forall b | 0 <= b < sb.size && b in owner && owner[b].0 == i && owner[b].1 in all ensures owner[b].1 in done {
      OwnerFacts(sb, v, owner, b);
    }
  }

  lemma SameStorageReleased(sb: Super, v: Volume, v1: Volume, v2: Volume, owner: Owners, i: nat, done: set<nat>)
    requires Shape(sb, v) && Shape(sb, v1) && Shape(sb, v2) && SameStorage(sb, v1, v2)
    requires Released(sb, v, v1, owner, i, done)
    ensures Released(sb, v, v2, owner, i, done)
  {
    forall c | 0 <= c < sb.size ensures InUse(sb, v2, c) <==> InUse(sb, v1, c) {
      MapInRange(sb, c);
    }
  }
}
