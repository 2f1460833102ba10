/** fs.c's block allocator and inode contents, with every block that log_write
    sees recorded in `logged`. */
module Fs {
  import opened Blocks
  import opened Bitmap
  import opened Inodes
  import opened WriteCost
  import LogFormat

  const MAXOPBLOCKS := LogFormat.MAXOPBLOCKS

  /** The most that filewrite writes in one transaction. */
  const CHUNK := (MAXOPBLOCKS - 1 - 1 - 2) / 2 * BSIZE

  /** The blocks that bmap logs when block bn has to be allocated as `a`; `was` and
      `ind` are the indirect block before and after. */
  ghost function Cost(sb: Super, bn: nat, a: nat, was: nat, ind: nat): (r: set<nat>) {
    {MapBlock(sb.bmapstart, a), a}
    + (if bn < NDIRECT then {} else {ind} + if was == 0 then {MapBlock(sb.bmapstart, ind)} else {})
  }

  /** The sum of two unsigned numbers of 32 bits. */
  function Add32(a: nat, b: nat): (r: nat)
    requires a < WORD_LIMIT && b < WORD_LIMIT
    ensures r == if a + b < WORD_LIMIT then a + b else a + b - WORD_LIMIT
  {
    (a + b) % WORD_LIMIT
  }

  class FileSystem {
    const sb: Super
    var blocks: seq<Block>
    var inodes: seq<Inode>
    ghost var owner: Owners
    ghost var logged: set<nat>       // by the operation that is open
    ghost var ops: seq<set<nat>>     // what each operation that has ended logged

    ghost function Vol(): (v: Volume)
      reads this`blocks, this`inodes
    {
      Volume(blocks, inodes)
    }

    ghost predicate Ok()
      reads this`blocks, this`inodes, this`owner
    {
      Inv(sb, Vol(), owner)
    }

    /** How many blocks are free, by FreeCount. */
    ghost function Left(): (n: int)
      reads this`owner
    {
      sb.size - sb.datastart - |owner|
    }

    /** The free blocks and those of inode i: what allocation for i leaves as it is. */
    ghost function Within(i: nat): (n: int)
      requires Shape(sb, Vol()) && i < sb.ninodes
      reads this`blocks, this`inodes, this`owner
    {
      Left() + |Mapped(sb, Vol(), i)|
    }

    constructor (sb: Super, v: Volume, ghost owner: Owners)
      requires Inv(sb, v, owner)
      ensures this.sb == sb && Vol() == v && this.owner == owner && logged == {} && ops == [] && Ok()
    {
      this.sb, blocks, inodes := sb, v.blocks, v.inodes;
      this.owner, logged, ops := owner, {}, [];
    }

    /** Allocate a zeroed block: the first clear bit; None is the panic. */
    method Balloc() returns (r: Option<nat>)
      requires Shape(sb, Vol())
      requires forall b :: 0 <= b < sb.datastart ==> InUse(sb, Vol(), b)
      modifies this`blocks, this`logged
      ensures r.None? ==> forall b :: 0 <= b < sb.size ==> InUse(sb, old(Vol()), b)
      ensures r.None? ==> blocks == old(blocks) && logged == old(logged)
      ensures r.Some? ==>
        var b := r.value;
        IsData(sb, b) && !InUse(sb, old(Vol()), b) && (forall c :: 0 <= c < b ==> InUse(sb, old(Vol()), c))
        && blocks == Taken(sb, old(Vol()), b)
        && logged == old(logged) + {MapBlock(sb.bmapstart, b), b}
    {
      hide InUse, MapBlock, Shape, Taken;
      ghost var v := Vol();
      var b := 0;
      while b < sb.size
        invariant 0 <= b && b % BPB == 0 && Vol() == v == old(Vol()) && logged == old(logged)
        invariant forall c :: 0 <= c < b && c < sb.size ==> InUse(sb, v, c)
        decreases sb.size - b
      {
        var bi := 0;
        while bi < BPB && b + bi < sb.size
          invariant 0 <= bi <= BPB && Vol() == v == old(Vol()) && logged == old(logged)
          invariant forall c :: 0 <= c < b + bi && c < sb.size ==> InUse(sb, v, c)
          decreases BPB - bi
        {
          var free := TestBit(b, bi);
          if free {
            Take(b + bi);
            return Some(b + bi);
          }
          bi := bi + 1;
        }
        b := b + BPB;
      }
      r := None;
    }

    /** (bp->data[bi/8] & m) == 0, with bp the map block of b: block b + bi is free. */
    method TestBit(b: nat, bi: nat) returns (free: bool)
      requires Shape(sb, Vol()) && b % BPB == 0 && bi < BPB && b + bi < sb.size
      ensures free <==> !InUse(sb, Vol(), b + bi)
    {
      BitOf(b, bi);
      MapInRange(sb, b);
      free := !Bit(blocks[MapBlock(sb.bmapstart, b)][bi / 8], bi % 8);
    }

    /** Mark block b in use, log the map block, zero b and log it. */
    method Take(b: nat)
      requires Shape(sb, Vol()) && b < sb.size && !InUse(sb, Vol(), b)
      modifies this`blocks, this`logged
      ensures blocks == Taken(sb, old(Vol()), b)
      ensures logged == old(logged) + {MapBlock(sb.bmapstart, b), b}
    {
      MapInRange(sb, b);
      blocks := Mark(blocks, sb.bmapstart, b);
      logged := logged + {MapBlock(sb.bmapstart, b)};
      blocks := blocks[b := ZeroBlock()];
      logged := logged + {b};
    }

    /** Free a block; false is the panic on a block that is free already. */
    method Bfree(b: nat) returns (ok: bool)
      requires Shape(sb, Vol()) && b < sb.size
      modifies this`blocks, this`logged
      ensures ok <==> InUse(sb, old(Vol()), b)
      ensures !ok ==> blocks == old(blocks) && logged == old(logged)
      ensures ok ==> |blocks| == sb.size && Shape(sb, Vol()) && logged == old(logged) + {MapBlock(sb.bmapstart, b)}
      ensures ok ==> forall c :: 0 <= c < sb.size ==> (InUse(sb, Vol(), c) <==> c != b && InUse(sb, old(Vol()), c))
      ensures ok ==> forall c :: 0 <= c < sb.size && !(sb.bmapstart <= c < sb.datastart) ==> blocks[c] == old(blocks)[c]
    {
      MapInRange(sb, b);
      if !Bit(blocks[MapBlock(sb.bmapstart, b)][ByteOf(b)], b % 8) {
        return false;
      }
      ghost var was := Vol();
      blocks := Unmark(blocks, sb.bmapstart, b);
      logged := logged + {MapBlock(sb.bmapstart, b)};
      forall c | 0 <= c < sb.size ensures InUse(sb, Vol(), c) <==> c != b && InUse(sb, was, c) {
        MapInRange(sb, c);
        MarkedUnmark(was.blocks, sb.bmapstart, b, c);
      }
      ok := true;
    }

    /** Put block b, just taken, into slot k of inode i. */
    method SetSlot(ghost v: Volume, i: nat, k: nat, b: nat)
      requires CanGrow(sb, v, i, k, b) && inodes == v.inodes && blocks == Taken(sb, v, b)
      modifies this`blocks, this`inodes, this`logged
      ensures Vol() == Grow(sb, v, i, k, b)
      ensures logged == old(logged) + (if k > NDIRECT then {v.inodes[i].addrs[NDIRECT]} else {})
    {
      TakenLength(sb, v, b);
      hide InUse, Taken, PutEntry;
      if k <= NDIRECT {
        inodes := inodes[i := SetAddr(inodes[i], k, b)];
      } else {
        var ind := inodes[i].addrs[NDIRECT];
        blocks := PutEntry(blocks, ind, k - NDIRECT - 1, b);
        logged := logged + {ind};
      }
    }

    /** Fill slot k of inode i with a fresh block. */
    method Extend(i: nat, k: nat) returns (r: Option<nat>)
      requires Ok() && i < sb.ninodes && k < SLOTS && Addr(sb, Vol(), i, k) == 0
      requires k > NDIRECT ==> inodes[i].addrs[NDIRECT] != 0
      modifies this`blocks, this`inodes, this`owner, this`logged
      ensures Ok() && Within(i) == old(Within(i))
      ensures r.None? ==> Vol() == old(Vol()) && logged == old(logged) && Left() == 0
      ensures r.Some? ==>
        var b := r.value;
        CanGrow(sb, old(Vol()), i, k, b) && Vol() == Grow(sb, old(Vol()), i, k, b)
        && logged == old(logged) + {MapBlock(sb.bmapstart, b), b}
                     + (if k > NDIRECT then {old(inodes)[i].addrs[NDIRECT]} else {})
    {
      hide Owned, InUse, Taken, Mapped, Addr, Grow, IsData;
      ghost var v := Vol();
      MetadataInUse(sb, v, owner);
      r := Balloc();
      if r.None? {
        NoneFree(sb, v, owner);
        return;
      }
      var b := r.value;
      NotZero(sb, v, i, k, b);
      GrowKeeps(sb, v, owner, i, k, b);
      MappedGrow(sb, v, owner, i, k, b);
      hide CanGrow, Shape;
      SetSlot(v, i, k, b);
      owner := owner[b := (i, k)];
    }

    /** Extend, with what it keeps. */
    method ExtendKeeping(i: nat, k: nat) returns (r: Option<nat>)
      requires Ok() && i < sb.ninodes && k < SLOTS && Addr(sb, Vol(), i, k) == 0
      requires k > NDIRECT ==> inodes[i].addrs[NDIRECT] != 0
      modifies this`blocks, this`inodes, this`owner, this`logged
      ensures Ok() && Within(i) == old(Within(i))
      ensures r.None? ==> Vol() == old(Vol()) && logged == old(logged) && Left() == 0
      ensures SameBytes(sb, old(Vol()), Vol()) && SlotsKept(sb, old(Vol()), Vol(), i, k)
              && RecordsKept(sb, old(Vol()), Vol())
      ensures r.Some? ==> r.value != 0 && Addr(sb, Vol(), i, k) == r.value
      ensures r.Some? ==> logged == old(logged) + {MapBlock(sb.bmapstart, r.value), r.value}
                                    + (if k > NDIRECT then {old(inodes)[i].addrs[NDIRECT]} else {})
    {
      hide Owned, Grow, CanGrow, InUse, Mapped, SameBytes, SlotsKept, RecordsKept;
      ghost var v, o := Vol(), owner;
      r := Extend(i, k);
      if r.None? {
        Unchanged(sb, v, i, k);
      } else {
        GrowFrame(sb, v, o, i, k, r.value);
        GrowRecords(sb, v, o, i, k, r.value);
        GrowAddr(sb, v, o, i, k, r.value, i, k);
        NotZero(sb, v, i, k, r.value);
      }
    }

    /** The disk block of block bn of inode i, allocated if there is none; None is a
        panic: out of blocks, or bn out of range. */
    method Bmap(i: nat, bn: nat) returns (r: Option<nat>)
      requires Ok() && i < sb.ninodes
      modifies this`blocks, this`inodes, this`owner, this`logged
      ensures Ok() && Within(i) == old(Within(i))
      ensures SameBytes(sb, old(Vol()), Vol()) && RecordsKept(sb, old(Vol()), Vol())
      ensures r.None? && bn < MAXFILE ==> Left() == 0 && Addr(sb, Vol(), i, FileSlot(bn)) == 0
      ensures bn >= MAXFILE ==> r.None? && Vol() == old(Vol()) && logged == old(logged)
      ensures bn < MAXFILE ==> SlotsKept(sb, old(Vol()), Vol(), i, FileSlot(bn))
      ensures r.Some? ==> bn < MAXFILE && r.value == Addr(sb, Vol(), i, FileSlot(bn)) != 0
      ensures bn < MAXFILE && Addr(sb, old(Vol()), i, FileSlot(bn)) != 0 ==>
        r.Some? && Vol() == old(Vol()) && logged == old(logged)
      ensures bn < MAXFILE && Addr(sb, old(Vol()), i, FileSlot(bn)) == 0 && r.Some? ==>
        logged == old(logged) + Cost(sb, bn, r.value, old(inodes)[i].addrs[NDIRECT], inodes[i].addrs[NDIRECT])
    {
      hide Owned, InUse;
      ghost var v := Vol();
      if bn < NDIRECT {
        var addr := inodes[i].addrs[bn];
        if addr == 0 {
          r := ExtendKeeping(i, bn);
        } else {
          Unchanged(sb, v, i, bn);
          r := Some(addr);
        }
        return;
      }
      if bn - NDIRECT < NINDIRECT {
        if inodes[i].addrs[NDIRECT] == 0 {
          r := BmapNewIndirect(i, bn);
        } else {
          r := BmapIndirect(i, bn);
        }
        return;
      }
      Unchanged(sb, v, i, 0);
      r := None;
    }

    /** bmap under an indirect block that exists. */
    method BmapIndirect(i: nat, bn: nat) returns (r: Option<nat>)
      requires Ok() && i < sb.ninodes && NDIRECT <= bn < MAXFILE && inodes[i].addrs[NDIRECT] != 0
      modifies this`blocks, this`inodes, this`owner, this`logged
      ensures Ok() && Within(i) == old(Within(i))
      ensures r.None? ==> Left() == 0 && Addr(sb, Vol(), i, FileSlot(bn)) == 0
      ensures SameBytes(sb, old(Vol()), Vol()) && SlotsKept(sb, old(Vol()), Vol(), i, FileSlot(bn))
              && RecordsKept(sb, old(Vol()), Vol())
      ensures inodes[i].addrs[NDIRECT] == old(inodes)[i].addrs[NDIRECT]
      ensures r.Some? ==> r.value == Addr(sb, Vol(), i, FileSlot(bn)) != 0
      ensures Addr(sb, old(Vol()), i, FileSlot(bn)) != 0 ==> r.Some? && Vol() == old(Vol()) && logged == old(logged)
      ensures Addr(sb, old(Vol()), i, FileSlot(bn)) == 0 && r.Some? ==>
        logged == old(logged) + {MapBlock(sb.bmapstart, r.value), r.value, inodes[i].addrs[NDIRECT]}
    {
      hide Owned, InUse;
      ghost var v := Vol();
      var addr := Word(blocks[inodes[i].addrs[NDIRECT]], bn - NDIRECT);
      if addr == 0 {
        r := ExtendKeeping(i, bn + 1);
        assert Addr(sb, Vol(), i, NDIRECT) == Addr(sb, v, i, NDIRECT);
      } else {
        Unchanged(sb, v, i, bn + 1);
        r := Some(addr);
      }
    }

    /** bmap where the indirect block has to be allocated first. */
    method BmapNewIndirect(i: nat, bn: nat) returns (r: Option<nat>)
      requires Ok() && i < sb.ninodes && NDIRECT <= bn < MAXFILE && inodes[i].addrs[NDIRECT] == 0
      modifies this`blocks, this`inodes, this`owner, this`logged
      ensures Ok() && Within(i) == old(Within(i))
      ensures r.None? ==> Left() == 0 && Addr(sb, Vol(), i, FileSlot(bn)) == 0
      ensures SameBytes(sb, old(Vol()), Vol()) && SlotsKept(sb, old(Vol()), Vol(), i, FileSlot(bn))
              && RecordsKept(sb, old(Vol()), Vol())
      ensures r.Some? ==> r.value == Addr(sb, Vol(), i, FileSlot(bn)) != 0
      ensures r.Some? ==> logged == old(logged) + Cost(sb, bn, r.value, 0, inodes[i].addrs[NDIRECT])
    {
      hide Owned, InUse, SlotsKept, SameBytes, RecordsKept;
      ghost var v := Vol();
      r := ExtendKeeping(i, NDIRECT);
      if r.None? {
        Unchanged(sb, v, i, FileSlot(bn));
        return;
      }
      ghost var v1 := Vol();
      EmptyUnder(sb, v, v1, i, bn);
      r := BmapIndirect(i, bn);
      KeptTwice(sb, v, v1, Vol(), i, FileSlot(bn));
    }

    /** One iteration of writei: bmap, bread, memmove, log_write. */
    method WriteBlock(i: nat, bn: nat, o: nat, data: seq<byte>) returns (ok: bool)
      requires Ok() && i < sb.ninodes && bn < MAXFILE && o + |data| <= BSIZE
      modifies this`blocks, this`inodes, this`owner, this`logged
      ensures Ok() && RecordsKept(sb, old(Vol()), Vol()) && SlotsKept(sb, old(Vol()), Vol(), i, FileSlot(bn))
      ensures Within(i) == old(Within(i))
      ensures !ok ==> Left() == 0 && Addr(sb, Vol(), i, FileSlot(bn)) == 0
      ensures ok ==> Wrote(sb, old(Vol()), Vol(), i, bn * BSIZE + o, data) && Addr(sb, Vol(), i, FileSlot(bn)) != 0
      ensures Addr(sb, old(Vol()), i, FileSlot(bn)) != 0 ==> ok && inodes == old(inodes)
      ensures ok ==> logged == old(logged) + LoggedBy(sb, old(Vol()), Vol(), i, bn, bn + 1)
    {
      hide Owned, SlotsKept, SameBytes, RecordsKept, Wrote, Mapped, LoggedBy;
      ghost var v := Vol();
      var r := Bmap(i, bn);
      if r.None? {
        return false;
      }
      var a := r.value;
      ghost var v1 := Vol();
      StoreFrame(sb, v1, owner, i, bn, o, data, FileSlot(bn));
      StoreKeeps(sb, v1, owner, i, bn, o, data);
      blocks := blocks[a := Splice(blocks[a], o, data)];
      logged := logged + {a};
      assert Vol() == Store(v1, a, o, data);
      StoreSlots(sb, v1, Vol(), owner, i, bn, o, data);
      MapThenStore(sb, v, v1, Vol(), i, FileSlot(bn), bn * BSIZE + o, data);
      OneBlockLogged(sb, v, v1, Vol(), i, bn);
      ok := true;
    }

    ghost predicate Valid()
      reads this
    {
      Ok() && AllCurrent(sb, Vol())
    }

    /** Blocks lo to hi of the file have been mapped: at what cost in free blocks, and logging what; l0 and w0
        are the blocks logged and the blocks free or in the file at the start. */
    ghost predicate Filled(v: Volume, l0: set<nat>, w0: int, i: nat, lo: nat, hi: nat)
      requires Shape(sb, v) && Shape(sb, Vol()) && i < sb.ninodes && hi <= MAXFILE
      reads this
    {
      && Mapped(sb, Vol(), i) == Mapped(sb, v, i) + Needed(lo, hi) && Within(i) == w0
      && logged == l0 + LoggedBy(sb, v, Vol(), i, lo, hi)
    }

    /** One iteration of writei's loop. */
    method WriteStep(ghost v: Volume, ghost l0: set<nat>, ghost w0: int, i: nat, src: seq<byte>, ghost start: nat,
                     tot: nat, off: nat)
      returns (ok: bool, m: nat)
      requires Ok() && Shape(sb, v) && i < sb.ninodes && tot < |src| && off == start + tot
      requires start <= v.inodes[i].size && start + |src| <= MAXBYTES && NoHoles(sb, v, i)
      requires Going(sb, v, Vol(), i, src, start, tot) && Filled(v, l0, w0, i, start / BSIZE, Reached(start, tot))
      modifies this`blocks, this`inodes, this`owner, this`logged
      ensures Ok() && RecordsKept(sb, v, Vol())
      ensures ok ==> 0 < m <= |src| - tot && Going(sb, v, Vol(), i, src, start, tot + m)
                     && Filled(v, l0, w0, i, start / BSIZE, Reached(start, tot + m))
      ensures !ok ==> Left() == 0 && Within(i) == w0
                      && Mapped(sb, Vol(), i) < Mapped(sb, v, i) + Needed(start / BSIZE, Reached(start, |src|))
    {
      hide Owned, SlotsKept, RecordsKept, Wrote, Going, Shape, Addr, NoHoles, Mapped, Needed, LoggedBy, Reached;
      m := if |src| - tot < BSIZE - off % BSIZE then |src| - tot else BSIZE - off % BSIZE;
      ghost var v1 := Vol();
      ghost var bn := off / BSIZE;
      GoingFacts(sb, v, v1, i, src, start, tot);
      FirstBlock(sb, v, v1, i, start, off, m, |src|);
      ReachStep(start, tot, m, |src|);
      ok := WriteBlock(i, off / BSIZE, off % BSIZE, src[tot..tot + m]);
      RecordsTwice(sb, v, v1, Vol());
      if !ok {
        StillMissing(sb, v, v1, Vol(), i, start / BSIZE, bn, Reached(start, |src|));
        return;
      }
      GoingOn(sb, v, v1, Vol(), i, src, start, tot, m);
      FilledMore(sb, v, v1, Vol(), i, start / BSIZE, bn);
    }

    lemma FilledFirst(i: nat, start: nat)
      requires Ok() && i < sb.ninodes && start <= MAXBYTES
      ensures Filled(Vol(), logged, Within(i), i, start / BSIZE, Reached(start, 0))
    {
      StartsFilled(sb, Vol(), i, start);
    }

    lemma FilledParts(v: Volume, l0: set<nat>, w0: int, i: nat, lo: nat, hi: nat)
      requires Shape(sb, v) && Shape(sb, Vol()) && i < sb.ninodes && hi <= MAXFILE && Filled(v, l0, w0, i, lo, hi)
      ensures Mapped(sb, Vol(), i) == Mapped(sb, v, i) + Needed(lo, hi) && Within(i) == w0
      ensures logged == l0 + LoggedBy(sb, v, Vol(), i, lo, hi)
    {
    }

    /** The copy loop of writei, for a range that fits the file. It fails exactly if there are fewer free
        blocks than the range needs. */
    method WriteLoop(i: nat, src: seq<byte>, start: nat) returns (ok: bool)
      requires Ok() && i < sb.ninodes && start <= inodes[i].size && start + |src| <= MAXBYTES && NoHoles(sb, Vol(), i)
      modifies this`blocks, this`inodes, this`owner, this`logged
      ensures Ok() && RecordsKept(sb, old(Vol()), Vol())
      ensures ok <==> |Missing(sb, old(Vol()), i, start / BSIZE, Reached(start, |src|))| <= old(Left())
      ensures ok ==> Wrote(sb, old(Vol()), Vol(), i, start, src) && SlotsGrew(sb, old(Vol()), Vol(), i)
      ensures ok ==> forall n :: 0 <= n < Span(start + |src|) && n < MAXFILE ==> Addr(sb, Vol(), i, FileSlot(n)) != 0
      ensures ok && start + |src| <= old(inodes)[i].size ==> inodes == old(inodes)
      ensures ok ==> logged == old(logged) + LoggedBy(sb, old(Vol()), Vol(), i, start / BSIZE, Reached(start, |src|))
      ensures ok ==> MapsRange(sb, old(Vol()), Vol(), i, start, |src|) && Within(i) == old(Within(i))
    {
      hide Going, Filled, NoHoles, Owned, Shape, Addr, Wrote, SlotsGrew, RecordsKept, Mapped, Needed, LoggedBy, Reached;
      ghost var v, l0, w0 := Vol(), logged, Within(i);
      ghost var lo, hi := start / BSIZE, Reached(start, |src|);
      Starts(sb, v, i, start, src);
      FilledFirst(i, start);
      var tot, off := 0, start;
      while tot < |src|
        invariant 0 <= tot <= |src| && off == start + tot
        invariant Ok() && Going(sb, v, Vol(), i, src, start, tot) && Filled(v, l0, w0, i, lo, Reached(start, tot))
        decreases |src| - tot
      {
        var m;
        ok, m := WriteStep(v, l0, w0, i, src, start, tot, off);
        if !ok {
          TooFew(Mapped(sb, Vol(), i), Mapped(sb, v, i), Needed(lo, hi));
          return;
        }
        tot, off := tot + m, off + m;
      }
      GoneAll(sb, v, Vol(), i, src, start);
      FilledParts(v, l0, w0, i, lo, hi);
      Enough(Mapped(sb, v, i), Needed(lo, hi));
      OwnersFit(sb, Vol(), owner);
      ok := true;
    }

    /** Copy the in-memory inode to its record on disk. */
    method Iupdate(i: nat)
      requires Ok() && i < sb.ninodes
      modifies this`blocks, this`logged
      ensures IsRecordBlock(sb, sb.InodeBlock(i))
      ensures Vol() == Written(sb, old(Vol()), i)
      ensures logged == old(logged) + {sb.InodeBlock(i)}
    {
      InodeBlockInRange(sb, i);
      var n := sb.InodeBlock(i);
      blocks := blocks[n := PutDinode(blocks[n], i % IPB, inodes[i])];
      logged := logged + {n};
    }

    /** The end of writei, where the file has grown. */
    method SetSize(ghost v: Volume, i: nat, end: nat, ghost off: nat, ghost src: seq<byte>)
      requires Ok() && Shape(sb, v) && AllCurrent(sb, v) && i < sb.ninodes && end == off + |src| <= MAXBYTES
      requires RecordsKept(sb, v, Vol()) && SlotsGrew(sb, v, Vol(), i) && Wrote(sb, v, Vol(), i, off, src)
      requires forall n :: 0 <= n < Span(end) && n < MAXFILE ==> Addr(sb, Vol(), i, FileSlot(n)) != 0
      modifies this`blocks, this`inodes, this`logged
      ensures Valid() && Wrote(sb, v, Vol(), i, off, src) && SlotsGrew(sb, v, Vol(), i) && inodes[i].size == end
      ensures forall j :: 0 <= j < sb.ninodes && j != i ==> inodes[j] == v.inodes[j]
      ensures logged == old(logged) + {sb.InodeBlock(i)}
      ensures var lo, hi := off / BSIZE, Reached(off, |src|);
              LoggedBy(sb, v, Vol(), i, lo, hi) == LoggedBy(sb, v, old(Vol()), i, lo, hi)
      ensures Mapped(sb, Vol(), i) == Mapped(sb, old(Vol()), i)
    {
      ghost var v1 := Vol();
      Counts(sb, v1);
      Outcome(sb, v, v1, i);
      assert InodeWf(Resized(inodes[i], end));
      hide Owned, Shape, Addr, Wrote, SlotsGrew, RecordsKept, Synced, SameStorage, Written;
      hide LoggedBy, AllCurrent, Mapped;
      inodes := inodes[i := Resized(inodes[i], end)];
      ghost var v2 := Vol();
      ResizedKeeps(sb, v1, v2, owner, i);
      Iupdate(i);
      GrownCurrent(sb, v, v1, v2, Vol(), owner, i, end);
      StorageWrote(sb, v, v1, Vol(), owner, i, off, src);
      StorageLogged(sb, v, v1, Vol(), owner, i, off, |src|);
      StorageGrew(sb, v, v1, Vol(), owner, i);
      StorageMapped(sb, v1, Vol(), owner, i);
    }

    /** writei for a range that passes its tests. */
    method WriteRange(i: nat, src: seq<byte>, off: nat) returns (ok: bool)
      requires Valid() && i < sb.ninodes && off <= inodes[i].size && off + |src| <= MAXBYTES
      modifies this`blocks, this`inodes, this`owner, this`logged
      ensures ok <==> |Short(sb, old(Vol()), i, off, |src|)| <= |FreeBlocks(sb, old(Vol()))|
      ensures ok ==> Valid() && Wrote(sb, old(Vol()), Vol(), i, off, src) && SlotsGrew(sb, old(Vol()), Vol(), i)
      ensures ok ==>
        inodes[i].size == Extended(old(inodes)[i].size, off, |src|)
        && forall j :: 0 <= j < sb.ninodes && j != i ==> inodes[j] == old(inodes)[j]
      ensures ok ==> logged == old(logged) + Charged(sb, old(Vol()), Vol(), i, off, |src|)
      ensures ok ==> MapsRange(sb, old(Vol()), Vol(), i, off, |src|) && Within(i) == old(Within(i))
    {
      hide Owned, Shape, Addr, Wrote, SlotsGrew, RecordsKept, AllCurrent;
      hide Mapped, Needed, LoggedBy, FreeBlocks, Missing, Reached;
      ghost var v := Vol();
      CurrentHere(sb, v, i);
      FreeCount(sb, v, owner);
      ok := WriteLoop(i, src, off);
      if !ok {
        return;
      }
      var end := off + |src|;
      ghost var v1 := Vol();
      Counts(sb, v1);
      Outcome(sb, v, v1, i);
      if |src| > 0 && end > inodes[i].size {
        SetSize(v, i, end, off, src);
      } else {
        NothingGrew(sb, v, v1, i);
      }
    }

    /** Write src at off into inode i: n, or -1 for a bad range; None is the panic in bmap, which is met
        exactly if the range is good and there are fewer free blocks than it needs. The blocks logged are
        exactly those of the range and of what it takes to map them, and at most MAXOPBLOCKS for one chunk. */
    method Writei(i: nat, src: seq<byte>, off: uint32) returns (r: Option<int>)
      requires Valid() && i < sb.ninodes && |src| < WORD_LIMIT
      modifies this`blocks, this`inodes, this`owner, this`logged
      ensures r == Some(-1) <==> off > old(inodes)[i].size || off + |src| > MAXBYTES
      ensures r == Some(-1) ==> Vol() == old(Vol()) && logged == old(logged) && owner == old(owner)
      ensures r.None? <==> off <= old(inodes)[i].size && off + |src| <= MAXBYTES
                           && |Short(sb, old(Vol()), i, off, |src|)| > |FreeBlocks(sb, old(Vol()))|
      ensures r.Some? ==> Valid()
      ensures r.Some? && r.value != -1 ==> r.value == |src| && Wrote(sb, old(Vol()), Vol(), i, off, src)
                                           && SlotsGrew(sb, old(Vol()), Vol(), i)
      ensures r.Some? && r.value != -1 ==>
        inodes[i].size == (if |src| > 0 && off + |src| > old(inodes)[i].size then off + |src| else old(inodes)[i].size)
        && forall j :: 0 <= j < sb.ninodes && j != i ==> inodes[j] == old(inodes)[j]
      ensures r.Some? && r.value != -1 ==> logged == old(logged) + Charged(sb, old(Vol()), Vol(), i, off, |src|)
      ensures r.Some? && r.value != -1 ==>
        MapsRange(sb, old(Vol()), Vol(), i, off, |src|) && Within(i) == old(Within(i))
      ensures r.Some? && |src| <= CHUNK ==> |logged - old(logged)| <= MAXOPBLOCKS
    {
      Counts(sb, Vol());
      CurrentHere(sb, Vol(), i);
      hide Owned, Shape, Addr, Wrote, SlotsGrew, AllCurrent, NoHoles, FreeBlocks, Short, Charged, MapsRange, Mapped;
      hide Add32;
      if off > inodes[i].size || Add32(off, |src|) < off {
        assert logged - logged == {};
        return Some(-1);
      }
      if Add32(off, |src|) > MAXBYTES {
        assert logged - logged == {};
        return Some(-1);
      }
      ghost var v := Vol();
      var ok := WriteRange(i, src, off);
      if !ok {
        return None;
      }
      ChargedBound(sb, v, Vol(), i, off, |src|, old(logged));
      r := Some(|src|);
    }

    /** One iteration of readi: bmap, bread, memmove. */
    method ReadBlock(i: nat, pos: nat, m: nat) returns (data: seq<byte>)
      requires Valid() && i < sb.ninodes && 0 < m <= BSIZE - pos % BSIZE && pos + m <= inodes[i].size
      modifies this`blocks, this`inodes, this`owner, this`logged
      ensures Valid() && Vol() == old(Vol()) && logged == old(logged)
      ensures data == Content(sb, Vol(), i)[pos..pos + m]
    {
      hide Owned, Shape, Addr, SlotsKept, SameBytes, RecordsKept;
      BlockOf(sb, Vol(), i, pos);
      var b := Bmap(i, pos / BSIZE);
      BlockBytes(sb, Vol(), owner, i, pos, m);
      data := blocks[b.value][pos % BSIZE .. pos % BSIZE + m];
    }

    /** What is left of the block at pos, or all that is wanted. */
    method ReadStep(i: nat, pos: nat, wanted: nat) returns (m: nat, data: seq<byte>)
      requires Valid() && i < sb.ninodes && 0 < wanted && pos + wanted <= inodes[i].size
      modifies this`blocks, this`inodes, this`owner, this`logged
      ensures Valid() && Vol() == old(Vol()) && logged == old(logged)
      ensures 0 < m <= wanted && data == Content(sb, Vol(), i)[pos..pos + m]
    {
      hide Inv, AllCurrent, Content;
      m := if wanted < BSIZE - pos % BSIZE then wanted else BSIZE - pos % BSIZE;
      data := ReadBlock(i, pos, m);
    }

    /** Read up to n bytes at off of inode i; -1 for a bad range. Without holes bmap
        finds every block, so reading changes nothing. */
    method Readi(i: nat, off: uint32, n: uint32) returns (r: int, dst: seq<byte>)
      requires Valid() && i < sb.ninodes
      modifies this`blocks, this`inodes, this`owner, this`logged
      ensures Valid() && Vol() == old(Vol()) && logged == old(logged)
      ensures var size := inodes[i].size;
              if off > size || off + n >= WORD_LIMIT then r == -1
              else r == (if off + n > size then size - off else n) && dst == Content(sb, Vol(), i)[off..off + r]
    {
      hide Inv, AllCurrent, Content, Add32;
      Shaped(sb, Vol(), owner);
      dst := [];
      if off > inodes[i].size || Add32(off, n) < off {
        return -1, [];
      }
      ghost var v := Vol();
      var len := if off + n > inodes[i].size then inodes[i].size - off else n;
      var tot, pos := 0, off;
      while tot < len
        invariant 0 <= tot <= len && pos == off + tot
        invariant Valid() && Vol() == v && logged == old(logged)
        invariant dst == Content(sb, v, i)[off..off + tot]
        decreases len - tot
      {
        var m, data := ReadStep(i, pos, len - tot);
        SliceJoin(Content(sb, v, i), off, pos, pos + m);
        dst := dst + data;
        tot, pos := tot + m, pos + m;
      }
      r := len;
    }

    /** Free the block of one slot, if it has one: a bfree of itrunc that never meets
        a free block. */
    method FreeSlot(ghost v: Volume, i: nat, ghost k: nat, a: nat, ghost done: set<nat>)
      requires Inv(sb, v, owner) && Shape(sb, Vol()) && i < sb.ninodes && k < SLOTS && k !in done
      requires Released(sb, v, Vol(), owner, i, done) && SameOutsideMap(sb, v, Vol()) && a == Addr(sb, v, i, k)
      modifies this`blocks, this`logged
      ensures Shape(sb, Vol()) && Released(sb, v, Vol(), owner, i, done + {k}) && SameOutsideMap(sb, v, Vol())
    {
      ghost var v1 := Vol();
      hide Owned, InUse, Addr, Released;
      if a != 0 {
        StillInUse(sb, v, v1, owner, i, k, done);
        var ok := Bfree(a);
        assert ok;
      }
      ReleasedMore(sb, v, v1, Vol(), owner, i, k, done);
    }

    /** How far itrunc has got with inode i: the slots in `done` are freed, and the
        first k direct addresses are cleared. */
    ghost predicate Truncating(v: Volume, i: nat, done: set<nat>, k: nat)
      requires Inv(sb, v, owner) && i < sb.ninodes
      reads this
    {
      && Shape(sb, Vol()) && Released(sb, v, Vol(), owner, i, done) && SameOutsideMap(sb, v, Vol())
      && inodes == v.inodes[i := Readdressed(v.inodes[i], inodes[i].addrs)]
      && (forall m :: 0 <= m < k && m <= NDIRECT ==> inodes[i].addrs[m] == 0)
      && (forall m :: k <= m <= NDIRECT ==> inodes[i].addrs[m] == v.inodes[i].addrs[m])
    }

    /** The loop over the direct blocks. */
    method FreeDirect(ghost v: Volume, i: nat) returns (ghost done: set<nat>)
      requires Ok() && v == Vol() && i < sb.ninodes
      modifies this`blocks, this`inodes, this`logged
      ensures Truncating(v, i, done, NDIRECT) && forall m :: m in done <==> 0 <= m < NDIRECT
    {
      hide Owned, InUse, Released, SameOutsideMap;
      done := {};
      NothingReleased(sb, v, owner, i);
      for k := 0 to NDIRECT
        invariant Truncating(v, i, done, k) && forall m :: m in done <==> 0 <= m < k
      {
        var a := inodes[i].addrs[k];
        if a != 0 {
          FreeSlot(v, i, k, a, done);
          ghost var v1 := Vol();
          inodes := inodes[i := SetAddr(inodes[i], k, 0)];
          SameBlocks(sb, v, v1, Vol(), owner, i, done + {k});
        } else {
          ReleasedEmpty(sb, v, Vol(), owner, i, done, done + {k});
        }
        done := done + {k};
      }
    }

    /** The loop over the blocks under the indirect block, then the block itself. */
    method FreeIndirect(ghost v: Volume, i: nat, ghost before: set<nat>) returns (ghost done: set<nat>)
      requires Inv(sb, v, owner) && i < sb.ninodes && Truncating(v, i, before, NDIRECT)
      requires forall m :: m in before <==> 0 <= m < NDIRECT
      modifies this`blocks, this`inodes, this`logged
      ensures Truncating(v, i, done, NDIRECT + 1) && forall m :: 0 <= m < SLOTS ==> m in done
    {
      hide Owned, InUse, Released;
      done := before;
      var ind := inodes[i].addrs[NDIRECT];
      SlotFacts(sb, v, owner, i, NDIRECT);
      if ind != 0 {
        for j := 0 to NINDIRECT
          invariant Truncating(v, i, done, NDIRECT)
          invariant forall m :: m in done <==> 0 <= m < NDIRECT || NDIRECT < m < NDIRECT + 1 + j
        {
          assert blocks[ind] == v.blocks[ind];
          var a := Word(blocks[ind], j);
          hide SameOutsideMap, Word;
          FreeSlot(v, i, NDIRECT + 1 + j, a, done);
          done := done + {NDIRECT + 1 + j};
        }
        FreeSlot(v, i, NDIRECT, ind, done);
        ghost var v1 := Vol();
        inodes := inodes[i := SetAddr(inodes[i], NDIRECT, 0)];
        done := done + {NDIRECT};
        SameBlocks(sb, v, v1, Vol(), owner, i, done);
      } else {
        ghost var all := set m: nat {:trigger m in done} | 0 <= m < SLOTS;
        ReleasedEmpty(sb, v, Vol(), owner, i, done, all);
        done := all;
      }
    }

    /** Discard the contents of inode i: exactly its blocks are freed, each once. */
    method Itrunc(i: nat)
      requires Valid() && i < sb.ninodes
      modifies this`blocks, this`inodes, this`owner, this`logged
      ensures Valid() && owner == OwnersWithout(old(owner), i)
      ensures inodes == old(inodes)[i := inodes[i]] && IsEmpty(inodes[i]) && Content(sb, Vol(), i) == []
      ensures forall b :: 0 <= b < sb.size ==>
        (InUse(sb, Vol(), b) <==> InUse(sb, old(Vol()), b) && !(b in old(owner) && old(owner)[b].0 == i))
      ensures forall j, p :: 0 <= j < sb.ninodes && j != i && 0 <= p < MAXBYTES ==>
        ByteAt(sb, Vol(), j, p) == ByteAt(sb, old(Vol()), j, p)
    {
      hide Owned, InUse, Released, SameOutsideMap, AllCurrent, Addr, ByteAt;
      ghost var v := Vol();
      ghost var done := FreeDirect(v, i);
      done := FreeIndirect(v, i, done);
      ghost var v1 := Vol();
      inodes := inodes[i := Resized(inodes[i], 0)];
      ghost var v2 := Vol();
      SameBlocks(sb, v, v1, v2, owner, i, done);
      Emptied(sb, v, v2, owner, i, done);
      owner := OwnersWithout(owner, i);
      Iupdate(i);
      TruncateDone(sb, v, v2, Vol(), old(owner), i, done);
    }

    /** begin_op and end_op, as far as they concern what an operation logs. */
    method BeginOp()
      modifies this`logged
      ensures logged == {}
    {
      logged := {};
    }

    method EndOp()
      modifies this`ops
      ensures ops == old(ops) + [logged]
    {
      ops := ops + [logged];
    }

    /** One operation of filewrite. */
    method WriteChunk(i: nat, src: seq<byte>, off: uint32) returns (r: Option<int>)
      requires Valid() && i < sb.ninodes && |src| <= CHUNK
      modifies this
      ensures r == Some(-1) <==> off > old(inodes)[i].size || off + |src| > MAXBYTES
      ensures r == Some(-1) ==> Vol() == old(Vol())
      ensures r.None? <==> off <= old(inodes)[i].size && off + |src| <= MAXBYTES
                           && |Short(sb, old(Vol()), i, off, |src|)| > |FreeBlocks(sb, old(Vol()))|
      ensures r.Some? ==> Valid() && |ops| == |old(ops)| + 1 && ops == old(ops) + [ops[|old(ops)|]]
                          && |ops[|old(ops)|]| <= MAXOPBLOCKS
      ensures r.Some? && r.value != -1 ==> r.value == |src| && Wrote(sb, old(Vol()), Vol(), i, off, src)
      ensures r.Some? && r.value != -1 ==>
        MapsRange(sb, old(Vol()), Vol(), i, off, |src|) && Within(i) == old(Within(i))
        && inodes[i].size == Extended(old(inodes)[i].size, off, |src|)
      ensures r.None? ==> ops == old(ops)
    {
      hide Owned, Shape, AllCurrent, Wrote, SlotsGrew, FreeBlocks, Short, Charged, MapsRange, Mapped;
      BeginOp();
      r := Writei(i, src, off);
      if r.Some? {
        assert logged - {} == logged;
        EndOp();
      }
    }

    /** filewrite after n bytes; v, o0 and w0 are the volume, the operations and the blocks free or in the
        file at its start. */
    ghost predicate Writing(v: Volume, o0: seq<set<nat>>, w0: int, i: nat, addr: seq<byte>, off: nat, n: nat)
      requires Shape(sb, v) && i < sb.ninodes && n <= |addr|
      reads this
    {
      && Valid() && Wrote(sb, v, Vol(), i, off, addr[..n])
      && o0 <= ops && |ops| - |o0| == Chunks(n) && (n < |addr| ==> Whole(n))
      && (forall k :: |o0| <= k < |ops| ==> |ops[k]| <= MAXOPBLOCKS)
      && inodes[i].size == Extended(v.inodes[i].size, off, n)
      && (n > 0 ==> off <= v.inodes[i].size)
      && (off <= v.inodes[i].size ==> MapsRange(sb, v, Vol(), i, off, n) && Within(i) == w0)
    }

    lemma WritingFirst(i: nat, addr: seq<byte>, off: nat)
      requires Valid() && i < sb.ninodes
      ensures Writing(Vol(), ops, Within(i), i, addr, off, 0)
    {
      hide Owned, AllCurrent, Wrote, MapsRange, Mapped;
      WroteNone(sb, Vol(), i, off, addr);
      MapsNone(sb, Vol(), i, off);
    }

    /** With all n bytes written, they found the free blocks they needed. */
    lemma WritingFits(v: Volume, o0: seq<set<nat>>, w0: int, i: nat, addr: seq<byte>, off: nat, n: nat)
      requires Shape(sb, v) && i < sb.ninodes && n <= |addr| && Writing(v, o0, w0, i, addr, off, n)
      requires w0 == |FreeBlocks(sb, v)| + |Mapped(sb, v, i)|
      ensures |Short(sb, v, i, off, n)| <= |FreeBlocks(sb, v)|
    {
      hide Owned, Shape, AllCurrent, Wrote, MapsRange, Mapped, Short, FreeBlocks, Chunks, Whole;
      Counts(sb, v);
      if off <= v.inodes[i].size {
        FreeCount(sb, Vol(), owner);
        RangeFits(sb, v, Vol(), i, off, n, |FreeBlocks(sb, v)|, Left());
      } else {
        MapsNone(sb, v, i, off);
      }
    }

    /** One iteration of filewrite. */
    method WriteNext(ghost v: Volume, ghost o0: seq<set<nat>>, ghost w0: int, i: nat, addr: seq<byte>,
                     ghost off: nat, n: nat, pos: uint32)
      returns (w: Option<int>)
      requires Shape(sb, v) && i < sb.ninodes && n < |addr| && Writing(v, o0, w0, i, addr, off, n) && pos == off + n
      requires w0 == |FreeBlocks(sb, v)| + |Mapped(sb, v, i)|
      modifies this
      ensures w.None? ==> off <= v.inodes[i].size && ops == old(ops)
      ensures var n1 := if |addr| - n < CHUNK then |addr| - n else CHUNK;
              && (w.None? ==> off + n + n1 <= MAXBYTES && |Short(sb, v, i, off, n + n1)| > |FreeBlocks(sb, v)|)
              && (w == Some(-1) ==> (off > v.inodes[i].size || off + n + n1 > MAXBYTES) && Valid()
                                    && Vol() == old(Vol()) && |ops| == |old(ops)| + 1
                                    && ops == old(ops) + [ops[|old(ops)|]] && |ops[|old(ops)|]| <= MAXOPBLOCKS)
              && (w.Some? && w.value != -1 ==>
                    w.value == n1 && Writing(v, o0, w0, i, addr, off, n + n1) && off + n + n1 <= MAXBYTES)
    {
      hide Owned, Shape, AllCurrent, Wrote, Chunks, Whole, Short, FreeBlocks, MapsRange, Mapped;
      var n1 := |addr| - n;
      if n1 > CHUNK {
        n1 := CHUNK;
      }
      ghost var v1, left1 := Vol(), Left();
      FreeCount(sb, v1, owner);
      Counts(sb, v);
      Counts(sb, v1);
      w := WriteChunk(i, addr[n..n + n1], pos);
      if w.None? {
        ChunkFails(sb, v, v1, i, off, n, n1, |FreeBlocks(sb, v)|, left1);
        return;
      }
      if w.value != -1 {
        Counts(sb, Vol());
        ChunkWrote(sb, v, v1, Vol(), i, off, addr, n, n1);
        MapsTwice(sb, v, v1, Vol(), i, off, n, n1);
        MoreChunks(n, n1);
      }
    }

    /** filewrite on an inode: one operation per chunk, each of which logs at most MAXOPBLOCKS blocks. The
        chunks that writei's range tests let through get written, `done` bytes in all; None is the panic in
        bmap, met exactly if there are fewer free blocks than those chunks need. */
    method Filewrite(i: nat, addr: seq<byte>, off: uint32) returns (r: Option<int>, done: nat)
      requires Valid() && i < sb.ninodes && |addr| < 0x8000_0000
      modifies this
      ensures r.None? <==> |Short(sb, old(Vol()), i, off, Accepted(old(inodes)[i].size, off, |addr|))|
                           > |FreeBlocks(sb, old(Vol()))|
      ensures r.Some? ==> Valid() && done == Accepted(old(inodes)[i].size, off, |addr|)
      ensures r.Some? ==>
        r.value == if |addr| == 0 || (off <= old(inodes)[i].size && off + |addr| <= MAXBYTES) then |addr| else -1
      ensures r.Some? ==> (r.value == |addr| <==> done == |addr|)
      ensures r.Some? ==> Wrote(sb, old(Vol()), Vol(), i, off, addr[..done])
      ensures r.Some? ==>
        inodes[i].size == (if done > 0 && off + done > old(inodes)[i].size then off + done else old(inodes)[i].size)
      ensures r.Some? ==> old(ops) <= ops && |ops| - |old(ops)| == Chunks(done) + (if done < |addr| then 1 else 0)
      ensures forall k :: |old(ops)| <= k < |ops| ==> |ops[k]| <= MAXOPBLOCKS
    {
      hide Owned, Shape, AllCurrent, Wrote, Chunks, Whole, Short, FreeBlocks, MapsRange, Mapped, Accepted;
      ghost var v, o0, w0 := Vol(), ops, Within(i);
      Counts(sb, v);
      SizeBound(sb, v, i);
      FreeCount(sb, v, owner);
      WritingFirst(i, addr, off);
      var n, pos := 0, off;
      while n < |addr|
        invariant 0 <= n <= |addr| && pos == off + n && (n > 0 ==> off + n <= MAXBYTES)
        invariant Writing(v, o0, w0, i, addr, off, n)
        decreases |addr| - n
      {
        Counts(sb, Vol());
        AcceptedStep(v.inodes[i].size, off, |addr|, n);
        WritingFits(v, o0, w0, i, addr, off, n);
        var w := WriteNext(v, o0, w0, i, addr, off, n, pos);
        done := n;
        if w.None? {
          var n1 := if |addr| - n < CHUNK then |addr| - n else CHUNK;
          ShortGrows(sb, v, i, off, n + n1, Accepted(v.inodes[i].size, off, |addr|));
          return None, n;
        }
        if w.value < 0 {
          return Some(-1), n;
        }
        pos := pos + w.value;
        n := n + w.value;
      }
      assert addr[..n] == addr;
      AcceptedAll(v.inodes[i].size, off, |addr|);
      WritingFits(v, o0, w0, i, addr, off, n);
      done := n;
      r := Some(|addr|);
    }
  }

  /** The size of a file after a write of n bytes at off. */
  function Extended(size: nat, off: nat, n: nat): (r: nat) {
    if n > 0 && off + n > size then off + n else size
  }

  lemma SizeBound(sb: Super, v: Volume, i: nat)
    requires Shape(sb, v) && i < sb.ninodes
    ensures v.inodes[i].size <= MAXBYTES
  {
  }

  /** How many of n bytes at off writei's range tests let filewrite write, a chunk at a time: none behind
      the end of a file of that size, all that end within MAXBYTES, else the whole chunks that do. */
  function Accepted(size: nat, off: nat, n: nat): (r: nat)
    requires size <= MAXBYTES
    ensures r <= n
  {
    if off > size then 0
    else if off + n <= MAXBYTES then n
    else (MAXBYTES - off) / CHUNK * CHUNK
  }

  /** How many operations it takes to write n bytes. */
  function Chunks(n: nat): (r: nat) {
    (n + CHUNK - 1) / CHUNK
  }

  predicate Whole(n: nat) {
    n % CHUNK == 0
  }

  lemma NoChunks()
    ensures Chunks(0) == 0 && Whole(0)
  {
  }

  lemma MoreChunks(n: nat, m: nat)
    requires Whole(n) && 0 < m <= CHUNK
    ensures Chunks(n + m) == Chunks(n) + 1 && (m == CHUNK ==> Whole(n + m))
  {
    var q := n / 1536;
    assert n == 1536 * q;
    assert (1536 * q + 1535) / 1536 == q;
    assert 1536 * q + m + 1535 == 1536 * (q + 1) + (m - 1);
    assert (1536 * (q + 1) + (m - 1)) / 1536 == q + 1;
  }

  lemma Shaped(sb: Super, v: Volume, owner: Owners)
    requires Inv(sb, v, owner)
    ensures Shape(sb, v)
  {
  }

  lemma SliceJoin(c: seq<byte>, a: nat, b: nat, d: nat)
    requires a <= b <= d <= |c|
    ensures c[a..b] + c[b..d] == c[a..d]
  {
  }

  lemma BitInGroup(b: nat, bi: nat)
    requires b % 8 == 0
    ensures (b + bi) % 8 == bi % 8
  {
  }

  /** The scan's b and bi name byte bi/8, bit bi%8 of the map block of b. */
  lemma BitOf(b: nat, bi: nat)
    requires b % BPB == 0 && bi < BPB
    ensures ByteOf(b + bi) == bi / 8 && (b + bi) % 8 == bi % 8 && (b + bi) / BPB == b / BPB
  {
    var q := b / 4096;
    assert b == 4096 * q;
    assert b == 8 * (512 * q);
    BitInGroup(b, bi);
    assert (b + bi) / 4096 == q && (b + bi) % 4096 == bi;
  }

  lemma Unchanged(sb: Super, v: Volume, i: nat, k: nat)
    requires Shape(sb, v)
    ensures SameBytes(sb, v, v) && SlotsKept(sb, v, v, i, k) && RecordsKept(sb, v, v)
  {
  }

  /** Blocks under an indirect block that was just allocated are not mapped yet. */
  lemma EmptyUnder(sb: Super, v: Volume, v1: Volume, i: nat, bn: nat)
    requires Shape(sb, v) && Shape(sb, v1) && i < sb.ninodes && NDIRECT <= bn < MAXFILE
    requires v.inodes[i].addrs[NDIRECT] == 0 && SlotsKept(sb, v, v1, i, NDIRECT)
    ensures Addr(sb, v1, i, FileSlot(bn)) == 0
  {
    assert Addr(sb, v, i, FileSlot(bn)) == 0;
  }

  lemma NotZero(sb: Super, v: Volume, i: nat, k: nat, b: nat)
    requires CanGrow(sb, v, i, k, b)
    ensures b != 0
  {
  }

  lemma CurrentHere(sb: Super, v: Volume, i: nat)
    requires Shape(sb, v) && AllCurrent(sb, v) && i < sb.ninodes
    ensures NoHoles(sb, v, i)
  {
  }

  lemma Counts(sb: Super, v: Volume)
    requires Shape(sb, v)
    ensures |v.inodes| == sb.ninodes && |v.blocks| == sb.size
  {
  }

  /** writei's loop after `tot` bytes, v being the volume at its start. */
  ghost predicate Going(sb: Super, v: Volume, v1: Volume, i: nat, src: seq<byte>, start: nat, tot: nat)
    requires Shape(sb, v) && Shape(sb, v1) && i < sb.ninodes && tot <= |src|
  {
    && RecordsKept(sb, v, v1) && Wrote(sb, v, v1, i, start, src[..tot]) && SlotsGrew(sb, v, v1, i)
    && (forall n :: 0 <= n < Span(start + tot) && n < MAXFILE ==> Addr(sb, v1, i, FileSlot(n)) != 0)
    && (0 < tot < |src| ==> (start + tot) % BSIZE == 0)
    && (start + |src| <= v.inodes[i].size ==> v1.inodes == v.inodes)
  }

  lemma Starts(sb: Super, v: Volume, i: nat, start: nat, src: seq<byte>)
    requires Shape(sb, v) && i < sb.ninodes && start <= v.inodes[i].size && NoHoles(sb, v, i)
    ensures Going(sb, v, v, i, src, start, 0)
  {
    assert Span(start) <= Span(v.inodes[i].size);
  }

  lemma GoingFacts(sb: Super, v: Volume, v1: Volume, i: nat, src: seq<byte>, start: nat, tot: nat)
    requires Shape(sb, v) && Shape(sb, v1) && i < sb.ninodes && tot < |src| && Going(sb, v, v1, i, src, start, tot)
    ensures RecordsKept(sb, v, v1) && SlotsGrew(sb, v, v1, i) && (tot > 0 ==> (start + tot) % BSIZE == 0)
  {
  }

  lemma GoingOn(sb: Super, v: Volume, v1: Volume, v2: Volume, i: nat, src: seq<byte>, start: nat, tot: nat, m: nat)
    requires Shape(sb, v) && Shape(sb, v1) && Shape(sb, v2) && i < sb.ninodes && tot < |src|
    requires Going(sb, v, v1, i, src, start, tot) && (start + tot) / BSIZE < MAXFILE
    requires m == if |src| - tot < BSIZE - (start + tot) % BSIZE then |src| - tot else BSIZE - (start + tot) % BSIZE
    requires Wrote(sb, v1, v2, i, start + tot, src[tot..tot + m]) && RecordsKept(sb, v1, v2)
    requires SlotsKept(sb, v1, v2, i, FileSlot((start + tot) / BSIZE))
             && Addr(sb, v2, i, FileSlot((start + tot) / BSIZE)) != 0
    requires start + |src| <= v.inodes[i].size ==> v2.inodes == v1.inodes
    ensures Going(sb, v, v2, i, src, start, tot + m)
  {
    hide SlotsKept, RecordsKept, Wrote, SlotsGrew, Shape, Addr, FileSlot;
    var bn := (start + tot) / BSIZE;
    SpanStep(start + tot, m);
    WroteMore(sb, v, v1, v2, i, start, src, tot, m, FileSlot(bn));
    MappedMore(sb, v1, v2, i, bn, Span(start + tot), Span(start + tot + m));
  }

  lemma GoneAll(sb: Super, v: Volume, v1: Volume, i: nat, src: seq<byte>, start: nat)
    requires Shape(sb, v) && Shape(sb, v1) && i < sb.ninodes && Going(sb, v, v1, i, src, start, |src|)
    ensures RecordsKept(sb, v, v1) && Wrote(sb, v, v1, i, start, src) && SlotsGrew(sb, v, v1, i)
    ensures forall n :: 0 <= n < Span(start + |src|) && n < MAXFILE ==> Addr(sb, v1, i, FileSlot(n)) != 0
    ensures start + |src| <= v.inodes[i].size ==> v1.inodes == v.inodes
  {
    assert src[..|src|] == src;
  }

  /** Whether the block at `off` exists already: inside the old size it does, and so
      it does when a write starts in mid-block. */
  lemma FirstBlock(sb: Super, v: Volume, v1: Volume, i: nat, start: nat, off: nat, m: nat, n: nat)
    requires Shape(sb, v) && Shape(sb, v1) && i < sb.ninodes && start <= off && off + m <= start + n <= MAXBYTES
             && m > 0
    requires start <= v.inodes[i].size && NoHoles(sb, v, i) && SlotsGrew(sb, v, v1, i)
    ensures off / BSIZE < MAXFILE && off == off / BSIZE * BSIZE + off % BSIZE
    ensures start + n <= v.inodes[i].size ==> Addr(sb, v1, i, FileSlot(off / BSIZE)) != 0
    ensures off == start && start % BSIZE != 0 ==> Addr(sb, v1, i, FileSlot(off / BSIZE)) != 0
  {
    if off < v.inodes[i].size || (off == start && start % BSIZE != 0) {
      assert off / BSIZE < Span(v.inodes[i].size);
      ExistedBefore(sb, v, v1, i, off / BSIZE);
    }
  }

  /** One more than the last block that `tot` bytes from `start` on reach. */
  function Reached(start: nat, tot: nat): (n: nat)
    ensures start + tot <= MAXBYTES ==> n <= MAXFILE && start / BSIZE <= n
  {
    if tot == 0 then start / BSIZE else (start + tot - 1) / BSIZE + 1
  }

  lemma ReachStep(start: nat, tot: nat, m: nat, n: nat)
    requires tot < n && 0 < m <= n - tot && m <= BSIZE - (start + tot) % BSIZE
    requires tot > 0 ==> (start + tot) % BSIZE == 0
    ensures Reached(start, tot) == (start + tot) / BSIZE && Reached(start, tot + m) == (start + tot) / BSIZE + 1
    ensures start / BSIZE <= (start + tot) / BSIZE < Reached(start, n)
  {
    SpanStep(start + tot, m);
    if tot > 0 {
      assert (start + tot - 1) / BSIZE == (start + tot) / BSIZE - 1;
    }
  }

  /** The slots that a write of n bytes at off has to fill. */
  ghost function Short(sb: Super, v: Volume, i: nat, off: nat, n: nat): (r: set<nat>)
    requires Shape(sb, v) && i < sb.ninodes
  {
    if off + n <= MAXBYTES then Missing(sb, v, i, off / BSIZE, Reached(off, n)) else {}
  }

  /** The blocks that a write of n bytes at off logs: with the inode's record if the file grows. */
  ghost function Charged(sb: Super, v: Volume, v': Volume, i: nat, off: nat, n: nat): (r: set<nat>)
    requires Shape(sb, v) && Shape(sb, v') && i < sb.ninodes
  {
    (if off + n <= MAXBYTES then LoggedBy(sb, v, v', i, off / BSIZE, Reached(off, n)) else {})
    + (if n > 0 && off + n > v.inodes[i].size then {sb.InodeBlock(i)} else {})
  }

  lemma NoneFree(sb: Super, v: Volume, owner: Owners)
    requires Inv(sb, v, owner) && forall b :: 0 <= b < sb.size ==> InUse(sb, v, b)
    ensures |owner| == sb.size - sb.datastart
  {
    FreeCount(sb, v, owner);
    assert FreeBlocks(sb, v) == {};
  }

  lemma OwnersFit(sb: Super, v: Volume, owner: Owners)
    requires Inv(sb, v, owner)
    ensures |owner| <= sb.size - sb.datastart
  {
    FreeCount(sb, v, owner);
  }

  /** Storing bytes in a block fills no slot. */
  lemma StoreSlots(sb: Super, v1: Volume, v2: Volume, owner: Owners, i: nat, n: nat, o: nat, data: seq<byte>)
    requires Inv(sb, v1, owner) && i < sb.ninodes && n < MAXFILE && Addr(sb, v1, i, FileSlot(n)) != 0
    requires o + |data| <= BSIZE && Addr(sb, v1, i, FileSlot(n)) < |v1.blocks|
    requires v2 == Store(v1, Addr(sb, v1, i, FileSlot(n)), o, data)
    ensures Shape(sb, v2) && Mapped(sb, v2, i) == Mapped(sb, v1, i)
    ensures forall k :: 0 <= k < SLOTS ==> Addr(sb, v2, i, k) == Addr(sb, v1, i, k)
  {
    StoreAddr(sb, v1, owner, i, n, o, data, i, 0);
    hide Inv, Shape, Store, Addr;
    forall k | 0 <= k < SLOTS ensures Addr(sb, v2, i, k) == Addr(sb, v1, i, k) {
      StoreAddr(sb, v1, owner, i, n, o, data, i, k);
    }
    MappedSame(sb, v1, v2, i);
  }

  /** What mapping and writing one block logs. */
  lemma OneBlockLogged(sb: Super, v: Volume, v1: Volume, v2: Volume, i: nat, bn: nat)
    requires Shape(sb, v) && Shape(sb, v1) && Shape(sb, v2) && i < sb.ninodes && bn < MAXFILE
    requires SlotsKept(sb, v, v1, i, FileSlot(bn)) && Addr(sb, v1, i, FileSlot(bn)) != 0
    requires forall k :: 0 <= k < SLOTS ==> Addr(sb, v2, i, k) == Addr(sb, v1, i, k)
    ensures var a := Addr(sb, v1, i, FileSlot(bn));
            LoggedBy(sb, v, v2, i, bn, bn + 1) == {a} +
              if Addr(sb, v, i, FileSlot(bn)) != 0 then {}
              else Cost(sb, bn, a, v.inodes[i].addrs[NDIRECT], v1.inodes[i].addrs[NDIRECT])
  {
    var k, a := FileSlot(bn), Addr(sb, v1, i, FileSlot(bn));
    var was, ind := v.inodes[i].addrs[NDIRECT], v1.inodes[i].addrs[NDIRECT];
    OneMissing(sb, v, i, bn);
    assert Addr(sb, v, i, NDIRECT) == was && Addr(sb, v1, i, NDIRECT) == ind;
    hide Shape, Addr, Missing, MapBlock;
    var miss := Missing(sb, v, i, bn, bn + 1);
    assert DataOf(sb, v2, i, bn, bn + 1) == {a};
    if Addr(sb, v, i, k) != 0 {
      assert MapsOf(sb, v2, i, miss) == {} && !Beyond(miss);
    } else if bn < NDIRECT {
      assert MapsOf(sb, v2, i, miss) == {MapBlock(sb.bmapstart, a)} && !Beyond(miss);
    } else {
      assert k in miss && Beyond(miss);
      assert MapsOf(sb, v2, i, miss) ==
             {MapBlock(sb.bmapstart, a)} + if was == 0 then {MapBlock(sb.bmapstart, ind)} else {};
    }
  }

  lemma OneMissing(sb: Super, v: Volume, i: nat, bn: nat)
    requires Shape(sb, v) && i < sb.ninodes && bn < MAXFILE
    ensures Missing(sb, v, i, bn, bn + 1) ==
            if Addr(sb, v, i, FileSlot(bn)) != 0 then {}
            else {FileSlot(bn)} + if bn >= NDIRECT && Addr(sb, v, i, NDIRECT) == 0 then {NDIRECT} else {}
  {
    NeededOne(bn);
    hide Needed, Shape, Word;
  }

  lemma StartsFilled(sb: Super, v: Volume, i: nat, start: nat)
    requires Shape(sb, v) && i < sb.ninodes && start <= MAXBYTES
    ensures var lo := start / BSIZE;
            && Reached(start, 0) == lo <= MAXFILE
            && Mapped(sb, v, i) == Mapped(sb, v, i) + Needed(lo, lo) && LoggedBy(sb, v, v, i, lo, lo) == {}
  {
    NothingNeeded(start / BSIZE);
  }

  /** Mapping one block more. */
  lemma FilledMore(sb: Super, v: Volume, v1: Volume, v2: Volume, i: nat, lo: nat, bn: nat)
    requires Shape(sb, v) && Shape(sb, v1) && Shape(sb, v2) && i < sb.ninodes && lo <= bn < MAXFILE
    requires Mapped(sb, v1, i) == Mapped(sb, v, i) + Needed(lo, bn)
    requires SlotsKept(sb, v1, v2, i, FileSlot(bn)) && Addr(sb, v2, i, FileSlot(bn)) != 0
    ensures Mapped(sb, v2, i) == Mapped(sb, v, i) + Needed(lo, bn + 1)
    ensures LoggedBy(sb, v, v2, i, lo, bn + 1) == LoggedBy(sb, v, v1, i, lo, bn) + LoggedBy(sb, v1, v2, i, bn, bn + 1)
  {
    MappedBlock(sb, v1, v2, i, bn);
    NeededMore(lo, bn);
    hide Shape, Addr, Needed, LoggedBy, FileSlot;
    forall k: nat | k < SLOTS && k in Needed(lo, bn) ensures Addr(sb, v2, i, k) == Addr(sb, v1, i, k) {
      assert k in Mapped(sb, v1, i);
    }
    LoggedMore(sb, v, v1, v2, i, lo, bn);
  }

  /** A block that could not be mapped is one that the whole range needs. */
  lemma StillMissing(sb: Super, v: Volume, v1: Volume, v2: Volume, i: nat, lo: nat, bn: nat, hi: nat)
    requires Shape(sb, v) && Shape(sb, v1) && Shape(sb, v2) && i < sb.ninodes && lo <= bn < hi <= MAXFILE
    requires Mapped(sb, v1, i) == Mapped(sb, v, i) + Needed(lo, bn)
    requires SlotsKept(sb, v1, v2, i, FileSlot(bn)) && Addr(sb, v2, i, FileSlot(bn)) == 0
    ensures Mapped(sb, v2, i) < Mapped(sb, v, i) + Needed(lo, hi)
  {
    MappedBlock(sb, v1, v2, i, bn);
    NeededWithin(lo, bn, hi);
    NeededMore(lo, bn);
    NeededSlots(lo, hi);
    assert FileSlot(bn) in Needed(lo, hi) && FileSlot(bn) !in Mapped(sb, v2, i);
    hide Shape, Addr, Needed, FileSlot, Mapped;
  }

  lemma NeededWithin(lo: nat, bn: nat, hi: nat)
    requires lo <= bn < hi <= MAXFILE
    ensures Needed(lo, bn + 1) <= Needed(lo, hi)
  {
    forall k | k in Needed(lo, bn + 1) && k != NDIRECT ensures k in Needed(lo, hi) {
      var n: nat :| lo <= n < bn + 1 && FileSlot(n) == k;
      assert FileSlot(n) in Needed(lo, hi);
    }
  }

  lemma TooFew(now: set<nat>, was: set<nat>, need: set<nat>)
    requires now < was + need
    ensures |now| < |was| + |need - was|
  {
    assert was + need == was + (need - was);
    var x :| x in was + need && x !in now;
    Fewer(now, was + need - {x});
  }

  lemma Enough(was: set<nat>, need: set<nat>)
    ensures |was + need| == |was| + |need - was|
  {
    assert was + need == was + (need - was);
  }

  lemma StorageMapped(sb: Super, v1: Volume, v3: Volume, owner: Owners, i: nat)
    requires Inv(sb, v1, owner) && Shape(sb, v3) && SameStorage(sb, v1, v3) && i < sb.ninodes
    ensures Mapped(sb, v3, i) == Mapped(sb, v1, i)
  {
    hide Shape, Addr, SameStorage, Owned, Mapped;
    forall k | 0 <= k < SLOTS ensures Addr(sb, v3, i, k) == Addr(sb, v1, i, k) {
      SameStorageAddr(sb, v1, v3, owner, i, k);
    }
    MappedSame(sb, v1, v3, i);
  }

  // ----- several chunks -----

  /** From v to v', inode i got the slots that n bytes at off need, and no other. */
  ghost predicate MapsRange(sb: Super, v: Volume, v': Volume, i: nat, off: nat, n: nat)
    requires Shape(sb, v) && Shape(sb, v') && i < sb.ninodes
  {
    off + n <= MAXBYTES && Mapped(sb, v', i) == Mapped(sb, v, i) + Needed(off / BSIZE, Reached(off, n))
  }

  lemma MapsNone(sb: Super, v: Volume, i: nat, off: nat)
    requires Shape(sb, v) && i < sb.ninodes
    ensures off <= MAXBYTES ==> MapsRange(sb, v, v, i, off, 0)
    ensures Short(sb, v, i, off, 0) == {}
  {
    hide Shape, Mapped;
    if off <= MAXBYTES {
      NothingNeeded(off / BSIZE);
    }
  }

  lemma NeededJoin(lo: nat, b: nat, a: nat, hi: nat)
    requires lo <= b <= a <= hi <= MAXFILE
    ensures Needed(lo, hi) == Needed(lo, a) + Needed(b, hi)
  {
    NeededSlots(lo, hi);
    NeededSlots(lo, a);
    NeededSlots(b, hi);
    hide Needed, FileSlot;
    forall k | k in Needed(lo, hi) ensures k in Needed(lo, a) + Needed(b, hi) {
      if k != NDIRECT {
        var n :| lo <= n < hi && FileSlot(n) == k;
        assert n < a || b <= n;
      }
    }
    forall k | k in Needed(lo, a) + Needed(b, hi) ensures k in Needed(lo, hi) {
      if k != NDIRECT {
        var n :| lo <= n < hi && FileSlot(n) == k;
      }
    }
  }

  lemma ReachJoin(off: nat, n: nat, m: nat)
    requires 0 < m && off + n + m <= MAXBYTES
    ensures Reached(off + n, m) == Reached(off, n + m) <= MAXFILE
    ensures off / BSIZE <= (off + n) / BSIZE <= Reached(off, n) <= Reached(off, n + m)
  {
  }

  lemma MapsTwice(sb: Super, v: Volume, v1: Volume, v2: Volume, i: nat, off: nat, n: nat, m: nat)
    requires Shape(sb, v) && Shape(sb, v1) && Shape(sb, v2) && i < sb.ninodes && 0 < m
    requires MapsRange(sb, v, v1, i, off, n) && MapsRange(sb, v1, v2, i, off + n, m)
    ensures MapsRange(sb, v, v2, i, off, n + m)
  {
    ReachJoin(off, n, m);
    NeededJoin(off / BSIZE, (off + n) / BSIZE, Reached(off, n), Reached(off, n + m));
    hide Shape, Mapped, Needed, Reached;
  }

  /** A chunk finds too few free blocks exactly if the range up to its end did at the start. */
  lemma ChunkFails(sb: Super, v: Volume, v1: Volume, i: nat, off: nat, n: nat, m: nat, left: int, left1: int)
    requires Shape(sb, v) && Shape(sb, v1) && i < sb.ninodes && 0 < m && off + n + m <= MAXBYTES
    requires MapsRange(sb, v, v1, i, off, n)
    requires left1 + |Mapped(sb, v1, i)| == left + |Mapped(sb, v, i)|
    ensures |Short(sb, v1, i, off + n, m)| > left1 <==> |Short(sb, v, i, off, n + m)| > left
  {
    ReachJoin(off, n, m);
    var lo, hi := off / BSIZE, Reached(off, n + m);
    NeededJoin(lo, (off + n) / BSIZE, Reached(off, n), hi);
    hide Shape, Mapped, Needed, Reached;
    var was, now := Mapped(sb, v, i), Mapped(sb, v1, i);
    assert now + Needed((off + n) / BSIZE, hi) == was + Needed(lo, hi);
    Enough(now, Needed((off + n) / BSIZE, hi));
    Enough(was, Needed(lo, hi));
  }

  lemma RangeFits(sb: Super, v: Volume, v1: Volume, i: nat, off: nat, n: nat, left: int, left1: int)
    requires Shape(sb, v) && Shape(sb, v1) && i < sb.ninodes && left1 >= 0 && MapsRange(sb, v, v1, i, off, n)
    requires left1 + |Mapped(sb, v1, i)| == left + |Mapped(sb, v, i)|
    ensures |Short(sb, v, i, off, n)| <= left
  {
    hide Shape, Mapped, Needed, Reached;
    Enough(Mapped(sb, v, i), Needed(off / BSIZE, Reached(off, n)));
  }

  lemma ShortGrows(sb: Super, v: Volume, i: nat, off: nat, n: nat, m: nat)
    requires Shape(sb, v) && i < sb.ninodes && n <= m && off + m <= MAXBYTES
    ensures |Short(sb, v, i, off, n)| <= |Short(sb, v, i, off, m)|
  {
    if n < m {
      ReachJoin(off, n, m - n);
      NeededJoin(off / BSIZE, (off + n) / BSIZE, Reached(off, n), Reached(off, m));
      hide Shape, Mapped, Needed, Reached;
      Fewer(Short(sb, v, i, off, n), Short(sb, v, i, off, m));
    }
  }

  lemma AcceptedStep(size: nat, off: nat, len: nat, n: nat)
    requires n < len && Whole(n) && size <= MAXBYTES && (off <= size ==> off + n <= MAXBYTES)
    ensures off > size ==> Accepted(size, off, len) == 0
    ensures var m := if len - n < CHUNK then len - n else CHUNK;
            && (off <= size && off + n + m > MAXBYTES ==> Accepted(size, off, len) == n)
            && (off <= size && off + n + m <= MAXBYTES ==>
                  n + m <= Accepted(size, off, len) && off + Accepted(size, off, len) <= MAXBYTES)
  {
    var m := if len - n < CHUNK then len - n else CHUNK;
    if off <= size && off + len > MAXBYTES {
      var q := n / 1536;
      assert n == 1536 * q;
      assert m == 1536 || off + n + m > MAXBYTES;
      var room := MAXBYTES - off;
      assert off + n + m > MAXBYTES ==> 1536 * q <= room < 1536 * q + 1536;
    }
  }

  lemma AcceptedAll(size: nat, off: nat, len: nat)
    requires size <= MAXBYTES && (len > 0 ==> off <= size && off + len <= MAXBYTES)
    ensures Accepted(size, off, len) == len
  {
  }

  lemma StorageGrew(sb: Super, v: Volume, v1: Volume, v3: Volume, owner: Owners, i: nat)
    requires Shape(sb, v) && Inv(sb, v1, owner) && Shape(sb, v3) && SameStorage(sb, v1, v3) && SlotsGrew(sb, v, v1, i)
    ensures SlotsGrew(sb, v, v3, i)
  {
    hide Shape, Addr, SameStorage, Owned;
    forall j, k | 0 <= j < sb.ninodes && 0 <= k < SLOTS
      ensures Addr(sb, v3, j, k) == Addr(sb, v, j, k) || (j == i && Addr(sb, v, j, k) == 0)
    {
      SameStorageAddr(sb, v1, v3, owner, j, k);
    }
  }

  /** Updating the record changes nothing that counts. */
  lemma StorageLogged(sb: Super, v: Volume, v1: Volume, v3: Volume, owner: Owners, i: nat, off: nat, n: nat)
    requires Shape(sb, v) && Inv(sb, v1, owner) && Shape(sb, v3) && SameStorage(sb, v1, v3) && i < sb.ninodes
    requires off + n <= MAXBYTES
    ensures LoggedBy(sb, v, v3, i, off / BSIZE, Reached(off, n)) == LoggedBy(sb, v, v1, i, off / BSIZE, Reached(off, n))
  {
    hide Shape, Addr, Needed, LoggedBy, SameStorage, Owned;
    forall k: nat | k < SLOTS ensures Addr(sb, v3, i, k) == Addr(sb, v1, i, k) {
      SameStorageAddr(sb, v1, v3, owner, i, k);
    }
    LoggedSame(sb, v, v1, v3, i, off / BSIZE, Reached(off, n));
  }

  /** The blocks logged for one chunk are at most MAXOPBLOCKS. */
  lemma ChargedBound(sb: Super, v: Volume, v': Volume, i: nat, off: nat, n: nat, l0: set<nat>)
    requires Shape(sb, v) && Shape(sb, v') && i < sb.ninodes && off <= v.inodes[i].size && NoHoles(sb, v, i)
    requires off + n <= MAXBYTES
    ensures n <= CHUNK ==> |l0 + Charged(sb, v, v', i, off, n) - l0| <= MAXOPBLOCKS
  {
    if n <= CHUNK {
      var lo, hi := off / BSIZE, Reached(off, n);
      ChunkReach(off, n);
      MissingBound(sb, v, i, lo, hi);
      LoggedBound(sb, v, v', i, lo, hi);
      if off % BSIZE != 0 && n > 0 {
        assert lo < Span(v.inodes[i].size);
        assert Addr(sb, v, i, FileSlot(lo)) != 0;
      }
      hide Shape, Addr, LoggedBy, Missing;
      Sizes(LoggedBy(sb, v, v', i, lo, hi), {sb.InodeBlock(i)}, {});
      Fewer(l0 + Charged(sb, v, v', i, off, n) - l0, LoggedBy(sb, v, v', i, lo, hi) + {sb.InodeBlock(i)} + {});
    }
  }

  lemma ChunkReach(off: nat, n: nat)
    requires n <= CHUNK
    ensures Reached(off, n) - off / BSIZE <= 4
    ensures off % BSIZE == 0 || n == 0 ==> Reached(off, n) - off / BSIZE <= 3
  {
  }

  lemma SpanStep(off: nat, m: nat)
    requires 0 < m <= BSIZE - off % BSIZE
    ensures Span(off + m) == off / BSIZE + 1 && off / BSIZE <= Span(off) <= off / BSIZE + 1
    ensures (off + m - 1) / BSIZE == off / BSIZE
  {
  }

  lemma MappedMore(sb: Super, v1: Volume, v2: Volume, i: nat, bn: nat, was: nat, now: nat)
    requires Shape(sb, v1) && Shape(sb, v2) && i < sb.ninodes && bn < MAXFILE && bn <= was && now == bn + 1
    requires SlotsKept(sb, v1, v2, i, FileSlot(bn)) && Addr(sb, v2, i, FileSlot(bn)) != 0
    requires forall n :: 0 <= n < was && n < MAXFILE ==> Addr(sb, v1, i, FileSlot(n)) != 0
    ensures forall n :: 0 <= n < now && n < MAXFILE ==> Addr(sb, v2, i, FileSlot(n)) != 0
  {
    hide Shape, Addr;
    forall n | 0 <= n < now && n < MAXFILE ensures Addr(sb, v2, i, FileSlot(n)) != 0 {
      if n < bn {
        assert Addr(sb, v2, i, FileSlot(n)) == Addr(sb, v1, i, FileSlot(n));
      }
    }
  }

  /** Within the file's old size no block is missing. */
  lemma ExistedBefore(sb: Super, v: Volume, v1: Volume, i: nat, bn: nat)
    requires Shape(sb, v) && Shape(sb, v1) && i < sb.ninodes && bn < MAXFILE
    requires NoHoles(sb, v, i) && SlotsGrew(sb, v, v1, i)
    ensures bn < Span(v.inodes[i].size) ==> Addr(sb, v1, i, FileSlot(bn)) != 0
  {
  }

  function Resized(ip: Inode, size: uint32): (r: Inode) {
    Inode(ip.kind, ip.major, ip.minor, ip.nlink, size, ip.addrs)
  }

  /** The other inodes are as before. */
  lemma Outcome(sb: Super, v: Volume, v1: Volume, i: nat)
    requires Shape(sb, v) && Shape(sb, v1) && i < sb.ninodes
    requires RecordsKept(sb, v, v1) && SlotsGrew(sb, v, v1, i)
    ensures v1.inodes[i].size == v.inodes[i].size
    ensures forall j :: 0 <= j < sb.ninodes && j != i ==> v1.inodes[j] == v.inodes[j]
  {
    forall j | 0 <= j < sb.ninodes && j != i ensures v1.inodes[j] == v.inodes[j] {
      forall m | 0 <= m <= NDIRECT ensures v1.inodes[j].addrs[m] == v.inodes[j].addrs[m] {
        assert Addr(sb, v1, j, m) == Addr(sb, v, j, m);
      }
      assert v1.inodes[j].addrs == v.inodes[j].addrs;
    }
  }

  lemma ResizedKeeps(sb: Super, v1: Volume, v2: Volume, owner: Owners, i: nat)
    requires Inv(sb, v1, owner) && i < sb.ninodes && v2.blocks == v1.blocks && |v2.inodes| == |v1.inodes|
    requires v2.inodes == v1.inodes[i := v2.inodes[i]] && InodeWf(v2.inodes[i])
             && v2.inodes[i].addrs == v1.inodes[i].addrs
    ensures Inv(sb, v2, owner) && SameStorage(sb, v1, v2)
  {
    hide Owned;
    assert SameStorage(sb, v1, v2);
    SameStorageKeeps(sb, v1, v2, owner);
  }

  ghost predicate AllCurrent(sb: Super, v: Volume)
    requires Shape(sb, v)
  {
    forall j :: 0 <= j < sb.ninodes ==> NoHoles(sb, v, j) && Synced(sb, v, j)
  }

  /** A write inside the file allocates nothing and leaves the records current. */
  lemma NothingGrew(sb: Super, v: Volume, v1: Volume, i: nat)
    requires Shape(sb, v) && Shape(sb, v1) && AllCurrent(sb, v)
    requires RecordsKept(sb, v, v1) && SlotsGrew(sb, v, v1, i) && v1.inodes == v.inodes
    ensures AllCurrent(sb, v1)
  {
    hide Addr, DinodeAt;
    forall j | 0 <= j < sb.ninodes ensures NoHoles(sb, v1, j) && Synced(sb, v1, j) {
      assert NoHoles(sb, v, j) && Synced(sb, v, j);
    }
  }

  /** Growing the size to `end` and updating the record makes inode i current again. */
  lemma GrownCurrent(sb: Super, v: Volume, v1: Volume, v2: Volume, v3: Volume, owner: Owners, i: nat, end: nat)
    requires Shape(sb, v) && AllCurrent(sb, v) && Inv(sb, v1, owner) && Inv(sb, v2, owner) && i < sb.ninodes
    requires RecordsKept(sb, v, v1) && SlotsGrew(sb, v, v1, i) && SameStorage(sb, v1, v2)
    requires forall n :: 0 <= n < Span(end) && n < MAXFILE ==> Addr(sb, v1, i, FileSlot(n)) != 0
    requires v2.blocks == v1.blocks && v2.inodes[i].size == end
    requires forall j :: 0 <= j < sb.ninodes && j != i ==> v2.inodes[j] == v.inodes[j]
    requires IsRecordBlock(sb, sb.InodeBlock(i)) && v3 == Written(sb, v2, i)
    ensures Inv(sb, v3, owner) && SameStorage(sb, v1, v3) && AllCurrent(sb, v3)
  {
    WrittenOnDisk(sb, v2, i, i);
    SameStorageKeeps(sb, v2, v3, owner);
    assert SameStorage(sb, v1, v3);
    forall j | 0 <= j < sb.ninodes ensures NoHoles(sb, v3, j) && Synced(sb, v3, j) {
      GrownOne(sb, v, v1, v2, v3, owner, i, end, j);
    }
  }

  lemma GrownOne(sb: Super, v: Volume, v1: Volume, v2: Volume, v3: Volume, owner: Owners, i: nat, end: nat, j: nat)
    requires Shape(sb, v) && AllCurrent(sb, v) && Inv(sb, v1, owner) && Shape(sb, v2) && Shape(sb, v3) && i < sb.ninodes
    requires RecordsKept(sb, v, v1) && SlotsGrew(sb, v, v1, i) && SameStorage(sb, v1, v3)
    requires forall n :: 0 <= n < Span(end) && n < MAXFILE ==> Addr(sb, v1, i, FileSlot(n)) != 0
    requires v2.blocks == v1.blocks && v2.inodes[i].size == end
    requires forall j :: 0 <= j < sb.ninodes && j != i ==> v2.inodes[j] == v.inodes[j]
    requires IsRecordBlock(sb, sb.InodeBlock(i)) && v3 == Written(sb, v2, i) && j < sb.ninodes
    ensures NoHoles(sb, v3, j) && Synced(sb, v3, j)
  {
    assert NoHoles(sb, v, j) && Synced(sb, v, j);
    WrittenOnDisk(sb, v2, i, j);
    assert OnDisk(sb, v2, j) == OnDisk(sb, v, j);
    assert Synced(sb, v3, j);
    hide Shape, Addr, OnDisk, Written, Synced, Owned;
    forall n | 0 <= n < Span(v3.inodes[j].size) && n < MAXFILE ensures Addr(sb, v3, j, FileSlot(n)) != 0 {
      SameStorageAddr(sb, v1, v3, owner, j, FileSlot(n));
      assert j != i ==> Addr(sb, v1, j, FileSlot(n)) == Addr(sb, v, j, FileSlot(n));
    }
  }

  lemma StorageWrote(sb: Super, v: Volume, v1: Volume, v3: Volume, owner: Owners, i: nat, off: nat, src: seq<byte>)
    requires Shape(sb, v) && Inv(sb, v1, owner) && Shape(sb, v3) && SameStorage(sb, v1, v3)
    requires Wrote(sb, v, v1, i, off, src)
    ensures Wrote(sb, v, v3, i, off, src)
  {
    hide Shape, ByteAt, SameStorage, Owned;
    forall j, p | 0 <= j < sb.ninodes && 0 <= p < MAXBYTES
      ensures ByteAt(sb, v3, j, p) == if j == i && off <= p < off + |src| then src[p - off] else ByteAt(sb, v, j, p)
    {
      SameStorageBytes(sb, v1, v3, owner, j, p);
    }
  }

  /** A position inside the file lies in a mapped block. */
  lemma BlockOf(sb: Super, v: Volume, i: nat, p: nat)
    requires Shape(sb, v) && i < sb.ninodes && NoHoles(sb, v, i) && p < v.inodes[i].size
    ensures p / BSIZE < MAXFILE && Addr(sb, v, i, FileSlot(p / BSIZE)) != 0
  {
    assert v.inodes[i].size <= MAXBYTES;
    assert p / BSIZE < Span(v.inodes[i].size);
  }

  /** The bytes of one block are a stretch of the file. */
  lemma BlockBytes(sb: Super, v: Volume, owner: Owners, i: nat, p: nat, m: nat)
    requires Inv(sb, v, owner) && i < sb.ninodes && p + m <= v.inodes[i].size && p % BSIZE + m <= BSIZE && 0 < m
    requires p / BSIZE < MAXFILE && Addr(sb, v, i, FileSlot(p / BSIZE)) != 0
    ensures var a := Addr(sb, v, i, FileSlot(p / BSIZE));
            a < |v.blocks| && v.blocks[a][p % BSIZE .. p % BSIZE + m] == Content(sb, v, i)[p..p + m]
  {
    SlotFacts(sb, v, owner, i, FileSlot(p / BSIZE));
    assert v.inodes[i].size <= MAXBYTES;
    var a := Addr(sb, v, i, FileSlot(p / BSIZE));
    var l, r := v.blocks[a][p % BSIZE .. p % BSIZE + m], Content(sb, v, i)[p..p + m];
    hide Inv, Addr, Shape, IsData;
    forall k | 0 <= k < m ensures l[k] == r[k] {
      BlockByte(sb, v, i, p, k);
    }
  }

  lemma BlockByte(sb: Super, v: Volume, i: nat, p: nat, k: nat)
    requires Shape(sb, v) && i < sb.ninodes && p + k < MAXBYTES && p % BSIZE + k < BSIZE
    requires var a := Addr(sb, v, i, FileSlot(p / BSIZE)); a != 0 && a < |v.blocks|
    ensures ByteAt(sb, v, i, p + k) == v.blocks[Addr(sb, v, i, FileSlot(p / BSIZE))][p % BSIZE + k]
  {
    hide Shape, Addr;
    assert (p + k) / BSIZE == p / BSIZE && (p + k) % BSIZE == p % BSIZE + k;
  }

  /** What a write does to the contents: src replaces what was at off, the file grows
      to hold it, and the other files stay. */
  lemma WroteContent(sb: Super, v: Volume, v': Volume, i: nat, off: nat, src: seq<byte>)
    requires Shape(sb, v) && Shape(sb, v') && i < sb.ninodes && Wrote(sb, v, v', i, off, src)
    requires off <= v.inodes[i].size && off + |src| <= MAXBYTES
    requires v'.inodes[i].size == if off + |src| > v.inodes[i].size then off + |src| else v.inodes[i].size
    requires forall j :: 0 <= j < sb.ninodes && j != i ==> v'.inodes[j] == v.inodes[j]
    ensures var was := Content(sb, v, i);
            Content(sb, v', i) == was[..off] + src + (if off + |src| < |was| then was[off + |src|..] else [])
    ensures forall j :: 0 <= j < sb.ninodes && j != i ==> Content(sb, v', j) == Content(sb, v, j)
  {
    hide ByteAt, Shape, Content;
    SplicedContent(sb, v, v', i, off, src);
    forall j | 0 <= j < sb.ninodes && j != i ensures Content(sb, v', j) == Content(sb, v, j) {
      SameContent(sb, v, v', i, j, off, src);
    }
  }

  lemma SameContent(sb: Super, v: Volume, v': Volume, i: nat, j: nat, off: nat, src: seq<byte>)
    requires Shape(sb, v) && Shape(sb, v') && Wrote(sb, v, v', i, off, src)
    requires j < sb.ninodes && j != i && v'.inodes[j] == v.inodes[j]
    ensures Content(sb, v', j) == Content(sb, v, j)
  {
    SizeBound(sb, v, j);
    hide ByteAt, Shape;
  }

  lemma SplicedContent(sb: Super, v: Volume, v': Volume, i: nat, off: nat, src: seq<byte>)
    requires Shape(sb, v) && Shape(sb, v') && i < sb.ninodes && Wrote(sb, v, v', i, off, src)
    requires off <= v.inodes[i].size && off + |src| <= MAXBYTES
    requires v'.inodes[i].size == if off + |src| > v.inodes[i].size then off + |src| else v.inodes[i].size
    ensures var was := Content(sb, v, i);
            Content(sb, v', i) == was[..off] + src + (if off + |src| < |was| then was[off + |src|..] else [])
  {
    SizeBound(sb, v, i);
    hide Shape, Wrote;
    var was, now := Content(sb, v, i), Content(sb, v', i);
    forall p: nat | p < |now|
      ensures now[p] == if off <= p < off + |src| then src[p - off] else if p < |was| then was[p] else 0
    {
      WroteAt(sb, v, v', i, off, src, p);
      hide ByteAt;
    }
    hide Content;
    Spliced(was, now, off, src);
  }

  lemma WroteAt(sb: Super, v: Volume, v': Volume, i: nat, off: nat, src: seq<byte>, p: nat)
    requires Shape(sb, v) && Shape(sb, v') && i < sb.ninodes && Wrote(sb, v, v', i, off, src) && p < MAXBYTES
    ensures ByteAt(sb, v', i, p) == if off <= p < off + |src| then src[p - off] else ByteAt(sb, v, i, p)
  {
    hide ByteAt, Shape;
  }

  lemma Spliced(was: seq<byte>, now: seq<byte>, off: nat, src: seq<byte>)
    requires off <= |was| && |now| == if off + |src| > |was| then off + |src| else |was|
    requires forall p: nat :: p < |now| ==>
               now[p] == if off <= p < off + |src| then src[p - off] else if p < |was| then was[p] else 0
    ensures now == was[..off] + src + (if off + |src| < |was| then was[off + |src|..] else [])
  {
  }

  lemma NothingReleased(sb: Super, v: Volume, owner: Owners, i: nat)
    requires Shape(sb, v)
    ensures Released(sb, v, v, owner, i, {}) && SameOutsideMap(sb, v, v)
  {
  }

  lemma Emptied(sb: Super, v: Volume, v2: Volume, owner: Owners, i: nat, done: set<nat>)
    requires Inv(sb, v, owner) && i < sb.ninodes && |v2.inodes| == |v.inodes|
    requires v2.inodes == v.inodes[i := v2.inodes[i]] && IsEmpty(v2.inodes[i])
    requires |v2.blocks| == |v.blocks| && Shape(sb, v2) && SameOutsideMap(sb, v, v2)
    requires Released(sb, v, v2, owner, i, done) && forall m :: 0 <= m < SLOTS ==> m in done
    ensures Inv(sb, v2, OwnersWithout(owner, i))
  {
    TruncatedKeeps(sb, v, v2, owner, i, done);
  }

  lemma TruncateDone(sb: Super, v: Volume, v2: Volume, v3: Volume, owner: Owners, i: nat, done: set<nat>)
    requires Inv(sb, v, owner) && AllCurrent(sb, v) && i < sb.ninodes && |v2.inodes| == |v.inodes|
    requires v2.inodes == v.inodes[i := v2.inodes[i]] && IsEmpty(v2.inodes[i])
    requires Inv(sb, v2, OwnersWithout(owner, i)) && SameOutsideMap(sb, v, v2)
    requires Released(sb, v, v2, owner, i, done) && forall m :: 0 <= m < SLOTS ==> m in done
    requires IsRecordBlock(sb, sb.InodeBlock(i)) && v3 == Written(sb, v2, i)
    ensures Inv(sb, v3, OwnersWithout(owner, i)) && AllCurrent(sb, v3)
    ensures forall b :: 0 <= b < sb.size ==> (InUse(sb, v3, b) <==> InUse(sb, v, b) && !(b in owner && owner[b].0 == i))
    ensures forall j, p :: 0 <= j < sb.ninodes && j != i && 0 <= p < MAXBYTES ==>
              ByteAt(sb, v3, j, p) == ByteAt(sb, v, j, p)
  {
    var owner' := OwnersWithout(owner, i);
    WrittenOnDisk(sb, v2, i, i);
    SameStorageKeeps(sb, v2, v3, owner');
    SameStorageReleased(sb, v, v2, v3, owner, i, done);
    hide Shape, ByteAt, Addr, InUse, SameStorage, Owned, Written, OnDisk, IsEmpty, SameOutsideMap;
    forall b | 0 <= b < sb.size ensures InUse(sb, v3, b) <==> InUse(sb, v, b) && !(b in owner && owner[b].0 == i) {
      if b in owner { OwnerFacts(sb, v, owner, b); }
    }
    forall j, p | 0 <= j < sb.ninodes && j != i && 0 <= p < MAXBYTES
      ensures ByteAt(sb, v3, j, p) == ByteAt(sb, v, j, p)
    {
      TruncatedBytes(sb, v, v2, owner, i, j, p);
      SameStorageBytes(sb, v2, v3, owner', j, p);
    }
    forall j | 0 <= j < sb.ninodes ensures NoHoles(sb, v3, j) && Synced(sb, v3, j) {
      TruncatedCurrent(sb, v, v2, v3, owner, i, j);
    }
  }

  lemma TruncatedCurrent(sb: Super, v: Volume, v2: Volume, v3: Volume, owner: Owners, i: nat, j: nat)
    requires Inv(sb, v, owner) && AllCurrent(sb, v) && i < sb.ninodes && j < sb.ninodes && |v2.inodes| == |v.inodes|
    requires v2.inodes == v.inodes[i := v2.inodes[i]] && IsEmpty(v2.inodes[i])
    requires Inv(sb, v2, OwnersWithout(owner, i)) && SameOutsideMap(sb, v, v2)
    requires IsRecordBlock(sb, sb.InodeBlock(i)) && v3 == Written(sb, v2, i) && Shape(sb, v3) && SameStorage(sb, v2, v3)
    ensures NoHoles(sb, v3, j) && Synced(sb, v3, j)
  {
    assert NoHoles(sb, v, j) && Synced(sb, v, j);
    TruncatedSynced(sb, v, v2, v3, i, j);
    hide Owned, Shape, Addr, Written, Synced, SameStorage, SameOutsideMap, AllCurrent;
    forall n | 0 <= n < Span(v3.inodes[j].size) && n < MAXFILE ensures Addr(sb, v3, j, FileSlot(n)) != 0 {
      SameStorageAddr(sb, v2, v3, OwnersWithout(owner, i), j, FileSlot(n));
      TruncatedAddr(sb, v, v2, owner, i, j, FileSlot(n));
    }
  }

  lemma TruncatedSynced(sb: Super, v: Volume, v2: Volume, v3: Volume, i: nat, j: nat)
    requires Shape(sb, v) && Shape(sb, v2) && Shape(sb, v3) && i < sb.ninodes && j < sb.ninodes
    requires Synced(sb, v, j) && v2.inodes == v.inodes[i := v2.inodes[i]] && SameOutsideMap(sb, v, v2)
    requires IsRecordBlock(sb, sb.InodeBlock(i)) && v3 == Written(sb, v2, i)
    ensures Synced(sb, v3, j) && v3.inodes == v2.inodes
  {
    WrittenOnDisk(sb, v2, i, j);
    LayoutOrder(sb);
    hide DinodeAt, PutDinode, Super.Wf;
    assert v2.blocks[sb.InodeBlock(j)] == v.blocks[sb.InodeBlock(j)];
  }

  lemma WroteNone(sb: Super, v: Volume, i: nat, from: nat, src: seq<byte>)
    requires Shape(sb, v)
    ensures Wrote(sb, v, v, i, from, src[..0])
  {
  }

  lemma ChunkWrote(sb: Super, v: Volume, v1: Volume, v2: Volume, i: nat, from: nat, src: seq<byte>, n: nat, m: nat)
    requires Shape(sb, v) && Shape(sb, v1) && Shape(sb, v2) && n + m <= |src|
    requires Wrote(sb, v, v1, i, from, src[..n]) && Wrote(sb, v1, v2, i, from + n, src[n..n + m])
    ensures Wrote(sb, v, v2, i, from, src[..n + m])
  {
    hide Shape, ByteAt;
    forall j, p | 0 <= j < sb.ninodes && 0 <= p < MAXBYTES
      ensures ByteAt(sb, v2, j, p) ==
              if j == i && from <= p < from + |src[..n + m]| then src[..n + m][p - from] else ByteAt(sb, v, j, p)
    {
      assert ByteAt(sb, v1, j, p) == if j == i && from <= p < from + n then src[..n][p - from] else ByteAt(sb, v, j, p);
    }
  }
}
