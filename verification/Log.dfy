/** log.c's recovery, commit and log_write, run through the buffer cache. */
module Log {
  import opened Blocks
  import opened LogFormat
  import opened Cache

  class Logger {
    const cache: BufferCache
    const l: Layout
    const pid: nat      // the process that runs recovery or the commit
    var n: nat          // log.lh.n
    var block: seq<nat> // log.lh.block

    constructor (cache: BufferCache, l: Layout, pid: nat)
      ensures this.cache == cache && this.l == l && this.pid == pid && n == 0 && |block| == LOGSIZE
    {
      this.cache, this.l, this.pid := cache, l, pid;
      n, block := 0, seq(LOGSIZE, _ => 0);
    }

    ghost function Lh(): (lh: seq<nat>)
      requires n <= |block|
      reads this
    {
      block[..n]
    }

    /** The cache as the committer finds it: no block half changed, and nobody refers to a log
        block. Readers may refer to and lock buffers of home blocks. */
    ghost predicate Quiet()
      reads this, cache
    {
      && cache.Valid() && |cache.disk| == |cache.logical| == l.nblocks && l.Wf() && cache.modified == {}
      && (forall i :: 0 <= i < NBUF ==> pid !in cache.refs[i])
      && HomeBusy(l, cache.bufs)
    }

    /** Buffer b is locked by the committer and shows block blockno. */
    ghost predicate Held(b: nat, blockno: nat)
      reads this, cache
    {
      && b < |cache.bufs| && b < NBUF && blockno < |cache.logical| && Is(cache.bufs[b], ROOTDEV, blockno)
      && cache.bufs[b].holder == Some(pid) && cache.bufs[b].valid && cache.bufs[b].data == cache.logical[blockno]
    }

    /** bread two blocks, copy src over dst, bwrite dst, release both. False is a
        panic for want of a buffer; nothing has been written then. */
    method CopyBlock(src: nat, dst: nat, srcFirst: bool) returns (ok: bool)
      requires Quiet() && src != dst && src < l.nblocks && dst < l.nblocks
      requires Unlocked(cache.bufs, src) && Unlocked(cache.bufs, dst)
      modifies cache
      ensures cache.Valid()
      ensures ok <==> old(CanRead(BusyBlocks(cache.bufs), if srcFirst then [src, dst] else [dst, src]))
      ensures ok ==> Quiet() && NoMore(old(cache.bufs), cache.bufs)
      ensures ok ==> cache.disk == old(cache.disk)[dst := old(cache.logical)[src]]
      ensures ok ==> cache.logical == old(cache.logical)[dst := old(cache.logical)[src]]
      ensures ok ==> cache.writes == old(cache.writes) + [Write(dst, old(cache.logical)[src])]
      ensures ok ==> Pins(cache.bufs) == old(Pins(cache.bufs)) - {dst}
      ensures !ok ==> cache.disk == old(cache.disk) && cache.writes == old(cache.writes)
      ensures !ok ==> cache.logical == old(cache.logical)
    {
      hide BufferCache.Valid;
      hide Pins, BusyBlocks, CanRead, HomeBusy, NoMore, Unlocked, Lent;
      var first, second := if srcFirst then src else dst, if srcFirst then dst else src;
      var a, b;
      ghost var mid;
      a, b, mid := BreadBoth(first, second);
      if b.None? { return false; }
      var from, to := if srcFirst then a.value else b.value, if srcFirst then b.value else a.value;
      cache.PinnedOnRoot();
      ghost var lent := cache.bufs;
      Transfer(from, to);
      PinsWritten(lent, cache.bufs, to);
      ReleasedTwo(old(cache.bufs), mid, lent, cache.bufs, a.value, b.value, pid, first, second, old(cache.logical));
      HomeBusyKept(l, old(cache.bufs), cache.bufs);
      ok := true;
    }

    /** Two different blocks read one after the other: two different buffers, both locked. */
    method BreadBoth(first: nat, second: nat) returns (a: Option<nat>, b: Option<nat>, ghost mid: seq<Buf>)
      requires Quiet() && first != second && first < l.nblocks && second < l.nblocks
      requires Unlocked(cache.bufs, first) && Unlocked(cache.bufs, second)
      modifies cache
      ensures cache.Valid() && cache.modified == {} && |cache.disk| == l.nblocks
      ensures cache.disk == old(cache.disk) && cache.logical == old(cache.logical) && cache.writes == old(cache.writes)
      ensures b.Some? <==> old(CanRead(BusyBlocks(cache.bufs), [first, second]))
      ensures b.Some? ==> a.Some? && a.value != b.value && Held(a.value, first) && Held(b.value, second)
      ensures b.Some? ==> Pins(cache.bufs) == old(Pins(cache.bufs))
      ensures b.Some? ==> Lent(old(cache.bufs), mid, a.value, pid, ROOTDEV, first, cache.logical)
                          && Lent(mid, cache.bufs, b.value, pid, ROOTDEV, second, cache.logical)
      ensures b.Some? ==> cache.refs == old(cache.refs)[a.value := old(cache.refs)[a.value] + {pid}]
                                                      [b.value := old(cache.refs)[b.value] + {pid}]
    {
      hide BufferCache.Valid;
      hide Pins, BusyBlocks, CanRead;
      CanReadTwo(BusyBlocks(cache.bufs), first, second);
      b, mid := None, cache.bufs;
      a := cache.BreadRoot(pid, first);
      if a.None? { return; }
      LentPins(old(cache.bufs), cache.bufs, a.value, pid, ROOTDEV, first, cache.logical);
      mid := cache.bufs;
      b := cache.BreadRoot(pid, second);
      if b.None? { return; }
      LentPins(mid, cache.bufs, b.value, pid, ROOTDEV, second, cache.logical);
    }

    /** memmove, bwrite and the two brelse calls of write_log and install_trans. */
    method Transfer(from: nat, to: nat)
      requires cache.Valid() && from < NBUF && to < NBUF && from != to
      requires cache.bufs[from].holder == Some(pid) && cache.bufs[from].valid
      requires cache.bufs[to].holder == Some(pid) && cache.bufs[to].valid
      requires cache.modified == {}
      modifies cache
      ensures cache.Valid() && cache.modified == {}
      ensures var was := old(cache.bufs);
              var copied := was[to].(data := was[from].data, dirty := false, refcnt := was[to].refcnt - 1,
                                     holder := None);
              cache.bufs == was[to := copied]
                               [from := was[from].(refcnt := was[from].refcnt - 1, holder := None)]
      ensures cache.refs == old(cache.refs)[to := old(cache.refs)[to] - {pid}][from := old(cache.refs)[from] - {pid}]
      ensures var n := old(cache.bufs)[to].blockno;
              var data := old(cache.bufs)[from].data;
              cache.disk == old(cache.disk)[n := data] && cache.logical == old(cache.logical)[n := data]
              && cache.writes == old(cache.writes) + [Write(n, data)]
    {
      hide BufferCache.Valid;
      cache.SetData(pid, to, cache.bufs[from].data);
      cache.Bwrite(pid, to);
      cache.Brelse(pid, from);
      cache.Brelse(pid, to);
    }

    /** The copy loop of write_head. */
    method Encode(h: Block) returns (data: Block)
      requires n <= |block| && Entries(Lh())
      ensures data == PutHeader(h, Lh())
    {
      data := PutWord(h, 0, n);
      for i := 0 to n
        invariant data == PutEntries(h, Lh(), i)
      {
        data := PutWord(data, 1 + i, block[i]);
      }
    }

    /** Change a locked buffer, write it through and release it. */
    method WriteBack(b: nat, data: Block)
      requires cache.Valid() && b < NBUF && cache.modified == {}
      requires cache.bufs[b].holder == Some(pid) && cache.bufs[b].valid
      modifies cache
      ensures cache.Valid() && cache.modified == {}
      ensures var was := old(cache.bufs);
              cache.bufs == was[b := was[b].(data := data, dirty := false, refcnt := was[b].refcnt - 1, holder := None)]
      ensures cache.refs == old(cache.refs)[b := old(cache.refs)[b] - {pid}]
      ensures var n := old(cache.bufs)[b].blockno;
              cache.disk == old(cache.disk)[n := data] && cache.logical == old(cache.logical)[n := data]
              && cache.writes == old(cache.writes) + [Write(n, data)]
    {
      hide BufferCache.Valid;
      cache.SetData(pid, b, data);
      cache.Bwrite(pid, b);
      cache.Brelse(pid, b);
    }

    /** Write the in-memory header to the log's first block. */
    method WriteHead() returns (ok: bool)
      requires Quiet() && n <= |block| && Entries(Lh())
      modifies cache
      ensures cache.Valid()
      ensures ok <==> old(|BusyBlocks(cache.bufs)|) < NBUF
      ensures ok ==> Quiet() && NoMore(old(cache.bufs), cache.bufs)
      ensures ok ==> var w := HeadWrite(l, old(cache.logical)[l.start], Lh());
        cache.disk == old(cache.disk)[l.start := w.data] && cache.logical == old(cache.logical)[l.start := w.data]
        && cache.writes == old(cache.writes) + [w] && Pins(cache.bufs) == old(Pins(cache.bufs))
      ensures !ok ==> cache.disk == old(cache.disk) && cache.writes == old(cache.writes)
      ensures !ok ==> cache.logical == old(cache.logical)
    {
      hide BufferCache.Valid;
      hide Pins, BusyBlocks, CanRead, HomeBusy, NoMore, PutHeader;
      HeadNotBusy();
      CanReadOne(BusyBlocks(cache.bufs), l.start);
      var r := cache.BreadRoot(pid, l.start);
      if r.None? { return false; }
      var b := r.value;
      LentPins(old(cache.bufs), cache.bufs, b, pid, ROOTDEV, l.start, cache.logical);
      cache.PinnedOnRoot();
      ghost var lent := cache.bufs;
      var data := Encode(cache.bufs[b].data);
      WriteBack(b, data);
      PinsWritten(lent, cache.bufs, b);
      ReleasedOne(old(cache.bufs), lent, cache.bufs, b, pid, l.start, old(cache.logical));
      HomeBusyKept(l, old(cache.bufs), cache.bufs);
      ok := true;
    }

    /** Nobody refers to the header's buffer, and it is not pinned. */
    lemma HeadNotBusy()
      requires Quiet()
      ensures l.start !in BusyBlocks(cache.bufs) && l.start !in Pins(cache.bufs)
      ensures forall i :: 0 <= i < NBUF && !Free(cache.bufs[i]) ==> cache.bufs[i].dev == ROOTDEV
      ensures forall i :: 0 <= i < NBUF && Is(cache.bufs[i], ROOTDEV, l.start) ==> cache.bufs[i].holder.None?
    {
      cache.PinnedOnRoot();
      hide BufferCache.Valid;
      PinsAreBusy(cache.bufs);
    }

    /** The copy loop of read_head. */
    method Decode(h: Block)
      requires HeadFits(h) && |block| == LOGSIZE
      modifies this`n, this`block
      ensures |block| == LOGSIZE && n <= LOGSIZE && Lh() == Header(h)
    {
      n := HeadCount(h);
      for i := 0 to n
        invariant |block| == LOGSIZE && n == HeadCount(h)
        invariant forall j :: 0 <= j < i ==> block[j] == Word(h, 1 + j)
      {
        block := block[i := Word(h, 1 + i)];
      }
    }

    /** Read the header from disk into memory. */
    method ReadHead() returns (ok: bool)
      requires Quiet() && HeadFits(cache.logical[l.start]) && |block| == LOGSIZE
      modifies cache, this`n, this`block
      ensures cache.Valid() && |block| == LOGSIZE
      ensures cache.disk == old(cache.disk) && cache.logical == old(cache.logical) && cache.writes == old(cache.writes)
      ensures ok <==> old(|BusyBlocks(cache.bufs)|) < NBUF
      ensures ok ==> Quiet() && NoMore(old(cache.bufs), cache.bufs) && Pins(cache.bufs) == old(Pins(cache.bufs))
      ensures ok ==> n <= LOGSIZE && Lh() == Header(cache.logical[l.start])
      ensures !ok ==> n == old(n) && block == old(block)
    {
      hide BufferCache.Valid;
      hide Pins, BusyBlocks, CanRead, HomeBusy, NoMore, Header, HeadFits;
      HeadNotBusy();
      CanReadOne(BusyBlocks(cache.bufs), l.start);
      var r := cache.BreadRoot(pid, l.start);
      if r.None? { return false; }
      var b := r.value;
      LentPins(old(cache.bufs), cache.bufs, b, pid, ROOTDEV, l.start, cache.logical);
      Decode(cache.bufs[b].data);
      ghost var lent := cache.bufs;
      cache.Brelse(pid, b);
      PinsSame(lent, cache.bufs);
      ReleasedOne(old(cache.bufs), lent, cache.bufs, b, pid, l.start, cache.logical);
      HomeBusyKept(l, old(cache.bufs), cache.bufs);
      ok := true;
    }

    /** Log blocks are as on disk. */
    ghost predicate LogAreaClean()
      requires cache.Valid() && |cache.disk| == l.nblocks && l.Wf()
      reads this, cache
    {
      forall b :: l.start <= b < l.start + l.size ==> cache.logical[b] == cache.disk[b]
    }

    /** Copy every log slot to its home block. After a panic the writes done are a
        prefix; k says how many. Two free buffers are enough, and one is where the home
        blocks are pinned. */
    method InstallTrans() returns (ok: bool, ghost k: nat)
      requires Quiet() && n <= |block| && LoggedBlocks(l, Lh()) && AllUnlocked(cache.bufs, Lh())
      modifies cache
      ensures cache.Valid() && |cache.disk| == l.nblocks
      ensures var ws := InstallWrites(l, Lh(), old(cache.logical));
              Applied(old(cache.disk), ws, k, cache.disk) && Applied(old(cache.logical), ws, k, cache.logical)
              && (ok ==> k == |ws|) && cache.writes == old(cache.writes) + ws[..k]
      ensures ok ==> Quiet() && NoMore(old(cache.bufs), cache.bufs)
      ensures ok ==> Pins(cache.bufs) == old(Pins(cache.bufs)) - set b | b in Lh()
      ensures EnoughBuffers(old(cache.bufs), Lh()) ==> ok
    {
      hide BufferCache.Valid;
      hide Apply, InstallWrites, Pins, BusyBlocks, CanRead, HomeBusy, NoMore, EnoughBuffers, AllUnlocked, Unlocked;
      ghost var lh, v, bufs := Lh(), cache.logical, cache.bufs;
      ghost var ws := InstallWrites(l, lh, v);
      InstallStart(l, lh, v, v);
      InstallStart(l, lh, v, cache.disk);
      NoMoreSelf(bufs);
      k := 0;
      var tail := 0;
      while tail < n
        invariant 0 <= tail <= n && k == tail && Quiet() && NoMore(bufs, cache.bufs)
        invariant cache.writes == old(cache.writes) + ws[..tail]
        invariant cache.disk == Apply(old(cache.disk), ws[..tail]) && cache.logical == Apply(v, ws[..tail])
        invariant Pins(cache.bufs) == Pins(bufs) - set b | b in lh[..tail]
      {
        InstallStep(l, lh, v, v, tail);
        InstallStep(l, lh, v, old(cache.disk), tail);
        InstallMay(lh, tail, bufs);
        ghost var mid := cache.bufs;
        var done := CopyBlock(l.start + tail + 1, block[tail], true);
        if !done { return false, tail; }
        NoMoreTwice(bufs, mid, cache.bufs);
        assert lh[..tail + 1] == lh[..tail] + [lh[tail]];
        tail := tail + 1;
        k := tail;
      }
      assert lh[..n] == lh;
      ok := true;
    }

    /** When the next slot can be read and its home block after it. */
    lemma InstallMay(lh: seq<nat>, tail: nat, was: seq<Buf>)
      requires Quiet() && LoggedBlocks(l, lh) && AllUnlocked(was, lh) && NoMore(was, cache.bufs) && tail < |lh|
      requires Pins(cache.bufs) == Pins(was) - set b | b in lh[..tail]
      ensures Unlocked(cache.bufs, l.start + tail + 1) && Unlocked(cache.bufs, lh[tail])
      ensures EnoughBuffers(was, lh) ==> CanRead(BusyBlocks(cache.bufs), [l.start + tail + 1, lh[tail]])
    {
      hide BufferCache.Valid;
      hide BusyBlocks, CanRead, NoMore, Pins, HomeBusy, Unlocked, AllUnlocked;
      var slot := l.start + tail + 1;
      SlotNotBusy(slot);
      StillUnlocked(was, cache.bufs, lh, tail);
      if EnoughBuffers(was, lh) {
        NoMoreBusy(was, cache.bufs);
        CanReadTwo(BusyBlocks(cache.bufs), slot, lh[tail]);
        CanReadOne(BusyBlocks(cache.bufs), slot);
        CanReadOne(BusyBlocks(cache.bufs) + {slot}, lh[tail]);
        if |BusyBlocks(was)| + 2 > NBUF {
          assert lh[tail] !in lh[..tail];
          PinsAreBusy(cache.bufs);
        }
      }
    }

    /** Nobody refers to the buffer of a log block. */
    lemma SlotNotBusy(slot: nat)
      requires Quiet() && !l.IsHome(slot)
      ensures slot !in BusyBlocks(cache.bufs) && Unlocked(cache.bufs, slot)
    {
      cache.PinnedOnRoot();
      hide BufferCache.Valid;
    }

    /** Copy every logged block from the cache to its log slot. It stops for want of a buffer
        before the first copy or not at all. */
    method WriteLog() returns (ok: bool, ghost k: nat)
      requires Quiet() && n <= |block| && Loggable(l, Lh(), cache.logical, cache.bufs)
      modifies cache
      ensures cache.Valid() && |cache.disk| == l.nblocks
      ensures ok <==> n == 0 || old(|BusyBlocks(cache.bufs)|) < NBUF
      ensures var ws := LogWrites(l, Lh(), old(cache.logical));
              Applied(old(cache.disk), ws, k, cache.disk) && Applied(old(cache.logical), ws, k, cache.logical)
              && k == (if ok then |ws| else 0) && cache.writes == old(cache.writes) + ws[..k]
      ensures ok ==> Quiet() && NoMore(old(cache.bufs), cache.bufs) && Pins(cache.bufs) == old(Pins(cache.bufs))
      ensures ok ==> n < NBUF
    {
      hide BufferCache.Valid;
      hide Apply, LogWrites, Pins, BusyBlocks, CanRead, HomeBusy, NoMore, AllUnlocked, Unlocked;
      ghost var lh, v, bufs := Lh(), cache.logical, cache.bufs;
      ghost var ws := LogWrites(l, lh, v);
      LogStart(l, lh, v, v);
      LogStart(l, lh, v, cache.disk);
      NoMoreSelf(bufs);
      FitsCache(lh, bufs);
      k := 0;
      var tail := 0;
      while tail < n
        invariant 0 <= tail <= n && k == tail && Quiet() && NoMore(bufs, cache.bufs)
        invariant tail > 0 ==> |BusyBlocks(bufs)| < NBUF
        invariant cache.writes == old(cache.writes) + ws[..tail]
        invariant cache.disk == Apply(old(cache.disk), ws[..tail]) && cache.logical == Apply(v, ws[..tail])
        invariant Pins(cache.bufs) == Pins(bufs) && (tail == 0 ==> cache.bufs == bufs)
      {
        LogStep(l, lh, v, v, tail);
        LogStep(l, lh, v, old(cache.disk), tail);
        WriteMay(lh, tail, bufs);
        ghost var mid := cache.bufs;
        var done := CopyBlock(block[tail], l.start + tail + 1, false);
        if !done { return false, tail; }
        NoMoreTwice(bufs, mid, cache.bufs);
        SlotNotPinned(l.start + tail + 1, mid);
        tail := tail + 1;
        k := tail;
      }
      assert ws[..n] == ws;
      ok := true;
    }

    lemma SlotNotPinned(slot: nat, was: seq<Buf>)
      requires Quiet() && !l.IsHome(slot) && HomeBusy(l, was)
      ensures slot !in Pins(was)
    {
      hide BufferCache.Valid;
      PinsAreBusy(was);
    }

    /** When the next slot can be read and the block to be logged after it. */
    lemma WriteMay(lh: seq<nat>, tail: nat, was: seq<Buf>)
      requires Quiet() && AllUnlocked(was, lh) && NoMore(was, cache.bufs) && tail < |lh|
               && Pins(cache.bufs) == Pins(was)
      requires lh[tail] in Pins(was) && l.IsHome(lh[tail]) && tail + 1 < l.size
      requires tail == 0 ==> cache.bufs == was
      ensures Unlocked(cache.bufs, l.start + tail + 1) && Unlocked(cache.bufs, lh[tail])
      ensures |BusyBlocks(was)| < NBUF ==> CanRead(BusyBlocks(cache.bufs), [l.start + tail + 1, lh[tail]])
      ensures tail == 0 && |BusyBlocks(was)| >= NBUF ==>
                !CanRead(BusyBlocks(cache.bufs), [l.start + tail + 1, lh[tail]])
    {
      hide BufferCache.Valid;
      hide BusyBlocks, CanRead, NoMore, Pins, HomeBusy, Unlocked, AllUnlocked;
      var slot := l.start + tail + 1;
      SlotNotBusy(slot);
      StillUnlocked(was, cache.bufs, lh, tail);
      NoMoreBusy(was, cache.bufs);
      PinsAreBusy(cache.bufs);
      OneBufferIsEnough(BusyBlocks(cache.bufs), slot, lh[tail]);
    }

    /** write_log, then write_head: up to the commit point. */
    method LogAndMark() returns (ok: bool, ghost k: nat)
      requires Quiet() && 0 < n <= |block| && Loggable(l, Lh(), cache.logical, cache.bufs)
      modifies cache
      ensures cache.Valid() && |cache.disk| == l.nblocks
      ensures ok <==> old(|BusyBlocks(cache.bufs)|) < NBUF
      ensures var ws := LogWrites(l, Lh(), old(cache.logical)) + [HeadWrite(l, old(cache.logical)[l.start], Lh())];
              Applied(old(cache.disk), ws, k, cache.disk) && Applied(old(cache.logical), ws, k, cache.logical)
              && k == (if ok then |ws| else 0) && cache.writes == old(cache.writes) + ws[..k]
      ensures ok ==> Quiet() && NoMore(old(cache.bufs), cache.bufs) && Pins(cache.bufs) == old(Pins(cache.bufs))
      ensures ok ==> n < NBUF
    {
      hide BufferCache.Valid;
      hide Pins, BusyBlocks, HomeBusy, NoMore, AllUnlocked, PutHeader, Applied, LogWrites;
      ghost var a := LogWrites(l, Lh(), cache.logical);
      ghost var h := HeadWrite(l, cache.logical[l.start], Lh());
      LogElsewhere(l, Lh(), cache.logical);
      ok, k := WriteLog();
      AppliedMore(old(cache.disk), a, h, k, cache.disk);
      AppliedMore(old(cache.logical), a, h, k, cache.logical);
      if !ok {
        return;
      }
      AppliedElsewhere(old(cache.logical), a, k, cache.logical, l.start);
      NoMoreBusy(old(cache.bufs), cache.bufs);
      ghost var mid := cache.bufs;
      ok := WriteHead();
      NoMoreTwice(old(cache.bufs), mid, cache.bufs);
      k := k + 1;
    }

    /** install_trans, lh.n = 0, write_head: the second half of commit and, after
        read_head, all of recovery. */
    method InstallAndErase() returns (ok: bool, ghost k: nat)
      requires Quiet() && n <= |block| && LoggedBlocks(l, Lh()) && AllUnlocked(cache.bufs, Lh())
      modifies cache, this`n
      ensures cache.Valid() && |cache.disk| == l.nblocks
      ensures var ws := InstallWrites(l, old(Lh()), old(cache.logical))
                        + [HeadWrite(l, old(cache.logical)[l.start], [])];
              Applied(old(cache.disk), ws, k, cache.disk) && Applied(old(cache.logical), ws, k, cache.logical)
              && (ok ==> k == |ws|) && cache.writes == old(cache.writes) + ws[..k]
      ensures ok ==> Quiet() && n == 0 && Pins(cache.bufs) == old(Pins(cache.bufs)) - set b | b in old(Lh())
      ensures EnoughBuffers(old(cache.bufs), old(Lh())) ==> ok
    {
      hide BufferCache.Valid;
      hide Pins, BusyBlocks, HomeBusy, NoMore, AllUnlocked, PutHeader, Applied, InstallWrites;
      ghost var a := InstallWrites(l, Lh(), cache.logical);
      ghost var h := HeadWrite(l, cache.logical[l.start], []);
      InstallElsewhere(l, Lh(), cache.logical);
      ok, k := InstallTrans();
      AppliedMore(old(cache.disk), a, h, k, cache.disk);
      AppliedMore(old(cache.logical), a, h, k, cache.logical);
      if !ok {
        return;
      }
      AppliedElsewhere(old(cache.logical), a, k, cache.logical, l.start);
      NoMoreBusy(old(cache.bufs), cache.bufs);
      n := 0;
      ok := WriteHead();
      if ok {
        k := k + 1;
      }
    }

    /** commit(), undisturbed: it performs the block writes of CommitWrites, all of them, or it stops
        for want of a buffer before the first one; and that exactly if every buffer is pinned or
        referred to. */
    method Commit() returns (ok: bool, ghost k: nat)
      requires Quiet() && LogAreaClean() && n <= |block| && Loggable(l, Lh(), cache.logical, cache.bufs)
      modifies cache, this`n
      ensures cache.Valid() && |cache.disk| == l.nblocks
      ensures ok <==> old(n) == 0 || old(|BusyBlocks(cache.bufs)|) < NBUF
      ensures var ws := CommitWrites(l, old(Lh()), old(cache.logical), old(cache.disk));
              Applied(old(cache.disk), ws, k, cache.disk)
              && k == (if ok then |ws| else 0) && cache.writes == old(cache.writes) + ws[..k]
      ensures ok ==> Quiet() && n == 0 && Pins(cache.bufs) == old(Pins(cache.bufs)) - set b | b in old(Lh())
      ensures ok ==> forall b: nat :: l.IsHome(b) ==> cache.logical[b] == old(cache.logical)[b]
    {
      hide BufferCache.Valid, CommitWrites, LogWrites, HomeWrites, InstallWrites, HeadWrite, Apply;
      hide Pins, BusyBlocks, HomeBusy, NoMore, AllUnlocked, EnoughBuffers;
      if n == 0 {
        CommitNothing(l, cache.logical, cache.disk);
        return true, 0;
      }
      ghost var lh, v, d := Lh(), cache.logical, cache.disk;
      CommitInRange(l, lh, v, d);
      ok, k := LogAndMark();
      CommitHalves(l, lh, v, d, k);
      if !ok {
        return;
      }
      SlotsHoldView(l, lh, v);
      StillReady(old(cache.bufs), cache.bufs, lh);
      ghost var m;
      ok, m := InstallAndErase();
      CommitSecondHalf(l, lh, v, d, m);
      k := k + m;
      InstalledView(l, lh, v);
      ghost var b := HomeWrites(lh, v) + [HeadWrite(l, PutHeader(v[l.start], lh), [])];
      assert b[..m] == b;
    }

    /** recover_from_log(): replay what the header names, then clear it. Two free buffers are enough. */
    method RecoverFromLog() returns (ok: bool, ghost k: nat)
      requires Quiet() && LogAreaClean() && |block| == LOGSIZE && HeadOk(l, cache.disk)
      requires AllUnlocked(cache.bufs, HeaderOf(l, cache.disk))
      modifies cache, this`n, this`block
      ensures cache.Valid() && |cache.disk| == l.nblocks
      ensures var ws := RecoverWrites(l, old(cache.disk));
              Applied(old(cache.disk), ws, k, cache.disk)
              && (ok ==> k == |ws|) && cache.writes == old(cache.writes) + ws[..k]
      ensures ok ==> Quiet() && n == 0
      ensures old(|BusyBlocks(cache.bufs)|) + 2 <= NBUF ==> ok
    {
      hide BufferCache.Valid;
      hide Pins, BusyBlocks, HomeBusy, NoMore;
      ghost var bufs := cache.bufs;
      ok := ReadHead();
      k := 0;
      if !ok {
        return;
      }
      NoMoreBusy(bufs, cache.bufs);
      KeepsUnlocked(bufs, cache.bufs, Lh());
      assert InstallWrites(l, Lh(), cache.logical) == InstallWrites(l, Lh(), cache.disk);
      ok, k := InstallAndErase();
    }

    /** log_write: record the block unless it is recorded already, and pin its
        buffer; false is one of the two panics. */
    method LogWrite(writer: nat, b: nat, outstanding: nat) returns (ok: bool)
      requires cache.Valid() && b < NBUF && |block| == LOGSIZE && n <= LOGSIZE
      requires cache.bufs[b].holder == Some(writer) && cache.bufs[b].valid
      modifies cache`bufs, cache`modified, this`n, this`block
      ensures cache.Valid() && |block| == LOGSIZE && n <= LOGSIZE
      ensures ok <==> old(n) < LOGSIZE && old(n) < l.size - 1 && outstanding >= 1
      ensures !ok ==> Lh() == old(Lh()) && cache.bufs == old(cache.bufs)
      ensures ok ==> Lh() == Absorb(old(Lh()), cache.bufs[b].blockno)
      ensures ok ==> cache.bufs == old(cache.bufs)[b := old(cache.bufs)[b].(dirty := true)]
      ensures ok ==> Pins(cache.bufs) == old(Pins(cache.bufs)) + {cache.bufs[b].blockno}
    {
      hide BufferCache.Valid;
      if n >= LOGSIZE || n >= l.size - 1 {
        return false;
      }
      if outstanding < 1 {
        return false;
      }
      var blockno := cache.bufs[b].blockno;
      var i := 0;
      while i < n && block[i] != blockno
        invariant 0 <= i <= n
        invariant blockno !in block[..i]
      {
        i := i + 1;
      }
      block := block[i := blockno];
      if i == n {
        n := n + 1;
      }
      cache.PinnedOnRoot();
      PinsUpdate(cache.bufs, b, true);
      cache.Pin(writer, b);
      ok := true;
    }
  }

  /** Only buffers of home blocks are referred to or pinned. */
  ghost predicate HomeBusy(l: Layout, bufs: seq<Buf>) {
    forall i :: 0 <= i < |bufs| && !Free(bufs[i]) ==> bufs[i].dev == ROOTDEV && l.IsHome(bufs[i].blockno)
  }

  lemma HomeBusyKept(l: Layout, was: seq<Buf>, now: seq<Buf>)
    requires HomeBusy(l, was) && NoMore(was, now)
    ensures HomeBusy(l, now)
  {
  }

  /** Nobody holds the lock of the block's buffer. */
  ghost predicate Unlocked(bufs: seq<Buf>, b: nat) {
    forall i :: 0 <= i < |bufs| && bufs[i].holder.Some? ==> bufs[i].blockno != b
  }

  ghost predicate AllUnlocked(bufs: seq<Buf>, lh: seq<nat>) {
    forall i :: 0 <= i < |lh| ==> Unlocked(bufs, lh[i])
  }

  /** The blocks to be committed: distinct home blocks, pinned, with nobody holding their locks. */
  ghost predicate Loggable(l: Layout, lh: seq<nat>, logical: seq<Block>, bufs: seq<Buf>) {
    && |lh| <= LOGSIZE && Distinct(lh) && AllUnlocked(bufs, lh)
    && (forall i :: 0 <= i < |lh| ==> l.IsHome(lh[i]) && lh[i] < |logical| && lh[i] in Pins(bufs))
  }

  lemma StillUnlocked(was: seq<Buf>, now: seq<Buf>, lh: seq<nat>, i: nat)
    requires AllUnlocked(was, lh) && NoMore(was, now) && i < |lh|
    ensures Unlocked(now, lh[i])
  {
    assert Unlocked(was, lh[i]);
  }

  lemma KeepsUnlocked(was: seq<Buf>, now: seq<Buf>, lh: seq<nat>)
    requires AllUnlocked(was, lh) && NoMore(was, now)
    ensures AllUnlocked(now, lh)
  {
    forall i | 0 <= i < |lh| ensures Unlocked(now, lh[i]) {
      StillUnlocked(was, now, lh, i);
    }
  }

  /** Buffers for two blocks at a time, or for one where the second block is pinned. */
  ghost predicate EnoughBuffers(bufs: seq<Buf>, lh: seq<nat>) {
    |BusyBlocks(bufs)| + 2 <= NBUF ||
    (|BusyBlocks(bufs)| < NBUF && forall i :: 0 <= i < |lh| ==> lh[i] in Pins(bufs))
  }

  lemma NoMoreSelf(bufs: seq<Buf>)
    ensures NoMore(bufs, bufs)
  {
  }

  lemma NoMoreTwice(a: seq<Buf>, b: seq<Buf>, c: seq<Buf>)
    requires NoMore(a, b) && NoMore(b, c)
    ensures NoMore(a, c)
  {
  }

  /** After write_log and write_head the logged blocks are still pinned and unlocked. */
  lemma StillReady(was: seq<Buf>, now: seq<Buf>, lh: seq<nat>)
    requires NoMore(was, now) && AllUnlocked(was, lh) && |BusyBlocks(was)| < NBUF && Pins(now) == Pins(was)
    requires forall i :: 0 <= i < |lh| ==> lh[i] in Pins(was)
    ensures AllUnlocked(now, lh) && EnoughBuffers(now, lh)
  {
    NoMoreBusy(was, now);
    KeepsUnlocked(was, now, lh);
  }

  /** Pinned blocks are no more than busy ones: the log fits the cache if a buffer is free. */
  lemma FitsCache(lh: seq<nat>, bufs: seq<Buf>)
    requires Distinct(lh) && forall i :: 0 <= i < |lh| ==> lh[i] in Pins(bufs)
    ensures |BusyBlocks(bufs)| < NBUF ==> |lh| < NBUF
  {
    PinsAreBusy(bufs);
    hide Pins, BusyBlocks;
    Pigeonhole(lh, BusyBlocks(bufs));
  }

  lemma LogStart(l: Layout, lh: seq<nat>, v: seq<Block>, d: seq<Block>)
    requires l.Wf() && |v| == |d| == l.nblocks && |lh| <= LOGSIZE
    requires forall i :: 0 <= i < |lh| ==> l.IsHome(lh[i]) && lh[i] < |v|
    ensures var ws := LogWrites(l, lh, v);
            (forall i :: 0 <= i < |ws| ==> ws[i].blockno < |d|) && ws[..0] == [] && Apply(d, ws[..0]) == d
  {
  }

  lemma LogElsewhere(l: Layout, lh: seq<nat>, v: seq<Block>)
    requires forall i :: 0 <= i < |lh| ==> lh[i] < |v|
    ensures var ws := LogWrites(l, lh, v); forall i :: 0 <= i < |ws| ==> ws[i].blockno != l.start
  {
  }

  lemma InstallElsewhere(l: Layout, lh: seq<nat>, v: seq<Block>)
    requires l.Wf() && |v| == l.nblocks && LoggedBlocks(l, lh)
    ensures var ws := InstallWrites(l, lh, v); forall i :: 0 <= i < |ws| ==> ws[i].blockno != l.start
  {
  }

  lemma CommitInRange(l: Layout, lh: seq<nat>, v: seq<Block>, d: seq<Block>)
    requires l.Wf() && |v| == |d| == l.nblocks && Entries(lh)
    requires forall i :: 0 <= i < |lh| ==> l.IsHome(lh[i]) && lh[i] < |v|
    ensures Applied(d, CommitWrites(l, lh, v, d), 0, d)
  {
    hide PutHeader;
    var ws := CommitWrites(l, lh, v, d);
    assert ws[..0] == [];
  }

  /** What copying the next logged block to its slot adds. */
  lemma LogStep(l: Layout, lh: seq<nat>, v: seq<Block>, d: seq<Block>, k: nat)
    requires l.Wf() && |v| == |d| == l.nblocks && k < |lh| <= LOGSIZE
    requires forall i :: 0 <= i < |lh| ==> l.IsHome(lh[i]) && lh[i] < |v|
    ensures var ws := LogWrites(l, lh, v);
            && (forall i :: 0 <= i < |ws| ==> ws[i].blockno < |d|)
            && ws[..k + 1] == ws[..k] + [Write(l.start + 1 + k, v[lh[k]])]
            && Apply(d, ws[..k + 1]) == Apply(d, ws[..k])[l.start + 1 + k := v[lh[k]]]
            && Apply(v, ws[..k])[lh[k]] == v[lh[k]]
  {
    var ws := LogWrites(l, lh, v);
    assert ws[..k + 1][..k] == ws[..k];
    ApplyElsewhere(v, ws[..k], lh[k]);
  }

  lemma InstallStart(l: Layout, lh: seq<nat>, v: seq<Block>, d: seq<Block>)
    requires l.Wf() && |v| == |d| == l.nblocks && LoggedBlocks(l, lh)
    ensures var ws := InstallWrites(l, lh, v);
            (forall i :: 0 <= i < |ws| ==> ws[i].blockno < |d|) && ws[..0] == [] && Apply(d, ws[..0]) == d
  {
  }

  /** What copying the next slot to its home block adds. */
  lemma InstallStep(l: Layout, lh: seq<nat>, v: seq<Block>, d: seq<Block>, k: nat)
    requires l.Wf() && |v| == |d| == l.nblocks && LoggedBlocks(l, lh) && k < |lh|
    ensures var ws := InstallWrites(l, lh, v);
            && (forall i :: 0 <= i < |ws| ==> ws[i].blockno < |d|)
            && ws[..k + 1] == ws[..k] + [Write(lh[k], v[l.start + 1 + k])]
            && Apply(d, ws[..k + 1]) == Apply(d, ws[..k])[lh[k] := v[l.start + 1 + k]]
            && Apply(v, ws[..k])[l.start + 1 + k] == v[l.start + 1 + k]
  {
    var ws := InstallWrites(l, lh, v);
    assert ws[..k + 1][..k] == ws[..k];
    ApplyElsewhere(v, ws[..k], l.start + 1 + k);
  }

  /** After write_log, slot i shows what the cache showed for logged block i. */
  lemma SlotsHoldView(l: Layout, lh: seq<nat>, v: seq<Block>)
    requires l.Wf() && |v| == l.nblocks && Entries(lh) && LoggedBlocks(l, lh)
    ensures var u := Apply(v, LogWrites(l, lh, v) + [HeadWrite(l, v[l.start], lh)]);
            u[l.start] == PutHeader(v[l.start], lh)
            && InstallWrites(l, lh, u) == HomeWrites(lh, v)
            && forall b: nat :: l.IsHome(b) ==> u[b] == v[b]
  {
    hide Apply, LogWrites, PutHeader;
    var a := LogWrites(l, lh, v);
    LogThenHead(l, lh, v);
    forall i | 0 <= i < |lh| ensures Apply(v, a)[l.start + 1 + i] == v[lh[i]] {
      LogSlotAt(l, lh, v, |lh|, i);
      assert a[..|lh|] == a;
    }
    forall b: nat | l.IsHome(b) ensures b != l.start && Apply(v, a)[b] == v[b] {
      LogWritesElsewhere(l, lh, v, b);
    }
  }

  lemma LogThenHead(l: Layout, lh: seq<nat>, v: seq<Block>)
    requires l.Wf() && |v| == l.nblocks && Entries(lh) && LoggedBlocks(l, lh)
    ensures forall i :: 0 <= i < |lh| ==> LogWrites(l, lh, v)[i].blockno < |v|
    ensures Apply(v, LogWrites(l, lh, v) + [HeadWrite(l, v[l.start], lh)]) ==
              Apply(v, LogWrites(l, lh, v))[l.start := PutHeader(v[l.start], lh)]
  {
    hide PutHeader;
    var a, h := LogWrites(l, lh, v), HeadWrite(l, v[l.start], lh);
    assert (a + [h])[..|a|] == a;
  }

  lemma LogWritesElsewhere(l: Layout, lh: seq<nat>, v: seq<Block>, b: nat)
    requires l.Wf() && |v| == l.nblocks && LoggedBlocks(l, lh) && l.IsHome(b)
    ensures Apply(v, LogWrites(l, lh, v))[b] == v[b] && b != l.start
  {
    ApplyElsewhere(v, LogWrites(l, lh, v), b);
  }

  lemma {:induction false} LogSlotAt(l: Layout, lh: seq<nat>, v: seq<Block>, k: nat, i: nat)
    requires l.Wf() && |v| == l.nblocks && LoggedBlocks(l, lh) && i < k <= |lh|
    ensures Apply(v, LogWrites(l, lh, v)[..k])[l.start + 1 + i] == v[lh[i]]
  {
    var a := LogWrites(l, lh, v);
    assert a[..k][..k - 1] == a[..k - 1];
    if i < k - 1 {
      LogSlotAt(l, lh, v, k - 1, i);
    }
  }

  lemma CommitHalves(l: Layout, lh: seq<nat>, v: seq<Block>, d: seq<Block>, k: nat)
    requires Entries(lh) && lh != [] && l.start < |d| && l.start < |v| && v[l.start] == d[l.start]
    requires forall i :: 0 <= i < |lh| ==> lh[i] < |v|
    ensures var a := LogWrites(l, lh, v) + [HeadWrite(l, v[l.start], lh)];
            var b := HomeWrites(lh, v) + [HeadWrite(l, PutHeader(v[l.start], lh), [])];
            CommitWrites(l, lh, v, d) == a + b && (k <= |a| ==> CommitWrites(l, lh, v, d)[..k] == a[..k])
  {
  }

  lemma CommitSecondHalf(l: Layout, lh: seq<nat>, v: seq<Block>, d: seq<Block>, m: nat)
    requires l.Wf() && |d| == |v| == l.nblocks && Entries(lh) && lh != [] && v[l.start] == d[l.start]
    requires LoggedBlocks(l, lh) && m <= |lh| + 1
    ensures var ws := CommitWrites(l, lh, v, d);
            var a := LogWrites(l, lh, v) + [HeadWrite(l, v[l.start], lh)];
            var b := HomeWrites(lh, v) + [HeadWrite(l, PutHeader(v[l.start], lh), [])];
            |ws| == |a| + |b| && ws[..|a| + m] == a + b[..m]
            && Apply(d, ws[..|a| + m]) == Apply(Apply(d, a), b[..m])
  {
    var a := LogWrites(l, lh, v) + [HeadWrite(l, v[l.start], lh)];
    var b := HomeWrites(lh, v) + [HeadWrite(l, PutHeader(v[l.start], lh), [])];
    CommitHalves(l, lh, v, d, 0);
    assert (a + b)[..|a| + m] == a + b[..m];
    ApplyConcat(d, a, b[..m]);
  }

  lemma CommitNothing(l: Layout, v: seq<Block>, d: seq<Block>)
    requires l.start < |d|
    ensures CommitWrites(l, [], v, d) == [] && Apply(d, []) == d
  {
  }

  /** Installing the logged blocks changes nothing that the cache shows. */
  lemma InstalledView(l: Layout, lh: seq<nat>, v: seq<Block>)
    requires l.Wf() && |v| == l.nblocks && Entries(lh) && LoggedBlocks(l, lh)
    ensures var a := LogWrites(l, lh, v) + [HeadWrite(l, v[l.start], lh)];
            var b := HomeWrites(lh, v) + [HeadWrite(l, PutHeader(v[l.start], lh), [])];
            forall x: nat :: l.IsHome(x) ==> Apply(Apply(v, a), b)[x] == v[x]
  {
    hide Apply, LogWrites, HomeWrites, HeadWrite, PutHeader;
    LogRange(l, lh, v, v);
    SlotsHoldView(l, lh, v);
    var a := LogWrites(l, lh, v) + [HeadWrite(l, v[l.start], lh)];
    var b := HomeWrites(lh, v) + [HeadWrite(l, PutHeader(v[l.start], lh), [])];
    forall x: nat | l.IsHome(x) ensures Apply(Apply(v, a), b)[x] == v[x] {
      HomeWritesAgree(l, lh, v, x);
      SameValueWrites(Apply(v, a), b, v, x);
    }
  }

  /** The writes up to the commit point, and those after it, stay on the disk. */
  lemma LogRange(l: Layout, lh: seq<nat>, v: seq<Block>, d: seq<Block>)
    requires l.Wf() && |v| == |d| == l.nblocks && Entries(lh) && LoggedBlocks(l, lh)
    ensures var a := LogWrites(l, lh, v) + [HeadWrite(l, d[l.start], lh)];
            forall i :: 0 <= i < |a| ==> a[i].blockno < |d|
    ensures var b := HomeWrites(lh, v) + [HeadWrite(l, PutHeader(v[l.start], lh), [])];
            forall i :: 0 <= i < |b| ==> b[i].blockno < |d|
  {
    hide PutHeader;
  }

  lemma HomeWritesAgree(l: Layout, lh: seq<nat>, v: seq<Block>, x: nat)
    requires l.Wf() && |v| == l.nblocks && Entries(lh) && LoggedBlocks(l, lh) && l.IsHome(x)
    ensures var b := HomeWrites(lh, v) + [HeadWrite(l, PutHeader(v[l.start], lh), [])];
            forall i :: 0 <= i < |b| ==> b[i].blockno < |v| && (b[i].blockno == x ==> b[i].data == v[x])
  {
    hide PutHeader;
  }

  lemma {:induction false} SameValueWrites(u: seq<Block>, ws: seq<Write>, v: seq<Block>, x: nat)
    requires |u| == |v| && x < |v| && u[x] == v[x]
    requires forall i :: 0 <= i < |ws| ==> ws[i].blockno < |v| && (ws[i].blockno == x ==> ws[i].data == v[x])
    ensures Apply(u, ws)[x] == v[x]
    decreases |ws|
  {
    if ws != [] {
      SameValueWrites(u, ws[..|ws| - 1], v, x);
    }
  }

  // ----- stopping after any of these writes -----

  /** While slots are being filled nothing changes for recovery. */
  lemma {:induction false} LogStage(l: Layout, lh: seq<nat>, v: seq<Block>, d: seq<Block>, k: nat)
    requires HeadOk(l, d) && HeaderOf(l, d) == [] && LoggedBlocks(l, lh) && |v| == |d| && k <= |lh|
    ensures var dk := Apply(d, LogWrites(l, lh, v)[..k]);
            HeadOk(l, dk) && HeaderOf(l, dk) == [] && dk[l.start] == d[l.start]
            && (forall b: nat :: l.IsHome(b) ==> dk[b] == d[b])
            && (forall i :: 0 <= i < k ==> dk[l.start + 1 + i] == v[lh[i]])
  {
    if k > 0 {
      LogStage(l, lh, v, d, k - 1);
      var a := LogWrites(l, lh, v);
      assert a[..k][..k - 1] == a[..k - 1];
      var prev := Apply(d, a[..k - 1]);
      SlotWrite(l, prev, k - 1, v[lh[k - 1]]);
      forall i | 0 <= i < k ensures prev[l.start + 1 + (k - 1) := v[lh[k - 1]]][l.start + 1 + i] == v[lh[i]] {
      }
    }
  }

  /** A disk on which the group is committed and its first j blocks are installed. */
  ghost predicate Committed(l: Layout, lh: seq<nat>, v: seq<Block>, d: seq<Block>, dk: seq<Block>, j: nat)
    requires |d| == |v| == l.nblocks && j <= |lh| && HeadOk(l, dk) && LoggedBlocks(l, lh)
  {
    && HeaderOf(l, dk) == lh && Copied(l, dk, lh, j)
    && (forall i :: 0 <= i < |lh| ==> dk[l.start + 1 + i] == v[lh[i]])
    && (forall b: nat :: l.IsHome(b) ==> RecoveredAt(l, dk, b) == if b in lh then v[b] else d[b])
  }

  lemma MarkStage(l: Layout, lh: seq<nat>, v: seq<Block>, d: seq<Block>)
    requires HeadOk(l, d) && HeaderOf(l, d) == [] && LoggedBlocks(l, lh) && Entries(lh) && |v| == |d|
    ensures var dk := Apply(d, LogWrites(l, lh, v) + [HeadWrite(l, d[l.start], lh)]);
            HeadOk(l, dk) && Committed(l, lh, v, d, dk, 0) && dk[l.start] == PutHeader(d[l.start], lh)
  {
    var a, h := LogWrites(l, lh, v), HeadWrite(l, d[l.start], lh);
    assert (a + [h])[..|a|] == a && a[..|lh|] == a;
    hide PutHeader, HeadFits, Header, RecoveredAt, Committed;
    LogStage(l, lh, v, d, |lh|);
    MarkedDisk(l, lh, v, d, Apply(d, a));
  }

  /** Writing the header on a disk whose slots hold the group commits it. */
  lemma MarkedDisk(l: Layout, lh: seq<nat>, v: seq<Block>, d: seq<Block>, dm: seq<Block>)
    requires HeadOk(l, dm) && HeaderOf(l, dm) == [] && LoggedBlocks(l, lh) && Entries(lh) && |v| == |d| == l.nblocks
    requires forall b: nat :: l.IsHome(b) ==> dm[b] == d[b]
    requires forall i :: 0 <= i < |lh| ==> dm[l.start + 1 + i] == v[lh[i]]
    ensures var dk := dm[l.start := PutHeader(dm[l.start], lh)]; HeadOk(l, dk) && Committed(l, lh, v, d, dk, 0)
  {
    hide PutHeader, HeadFits, Header, RecoveredAt, IndexOf;
    HeadPut(l, dm, lh);
    var dk := dm[l.start := PutHeader(dm[l.start], lh)];
    forall b: nat | l.IsHome(b) ensures RecoveredAt(l, dk, b) == if b in lh then v[b] else d[b] {
      if b in lh {
        assert RecoveredAt(l, dk, lh[IndexOf(lh, b)]) == dm[l.start + 1 + IndexOf(lh, b)];
      } else {
        NothingLogged(l, dm, b);
      }
    }
  }

  lemma CommittedStep(l: Layout, lh: seq<nat>, v: seq<Block>, d: seq<Block>, dk: seq<Block>, j: nat)
    requires |d| == |v| == l.nblocks && j < |lh| && HeadOk(l, dk) && LoggedBlocks(l, lh)
    requires Committed(l, lh, v, d, dk, j)
    ensures var next := dk[lh[j] := v[lh[j]]];
            HeadOk(l, next) && Committed(l, lh, v, d, next, j + 1) && next[l.start] == dk[l.start]
  {
    assert v[lh[j]] == dk[l.start + 1 + j];
    HomeWrite(l, dk, j);
    HomeWriteCopied(l, dk, j);
    HomeWriteHead(l, dk, lh[j], v[lh[j]]);
    hide IndexOf, Header, HeadFits;
    var next := dk[lh[j] := v[lh[j]]];
    forall b: nat | l.IsHome(b) ensures RecoveredAt(l, next, b) == if b in lh then v[b] else d[b] {
      assert RecoveredAt(l, next, b) == RecoveredAt(l, dk, b);
    }
  }

  lemma {:induction false} HomeStage(l: Layout, lh: seq<nat>, v: seq<Block>, d: seq<Block>, dm: seq<Block>, j: nat)
    requires |d| == |v| == l.nblocks && j <= |lh| && HeadOk(l, dm) && LoggedBlocks(l, lh)
    requires Committed(l, lh, v, d, dm, 0)
    ensures var dk := Apply(dm, HomeWrites(lh, v)[..j]);
            HeadOk(l, dk) && Committed(l, lh, v, d, dk, j) && dk[l.start] == dm[l.start]
  {
    hide Committed, RecoveredAt, Header, HeadFits;
    if j > 0 {
      HomeStage(l, lh, v, d, dm, j - 1);
      var a := HomeWrites(lh, v);
      assert a[..j][..j - 1] == a[..j - 1];
      CommittedStep(l, lh, v, d, Apply(dm, a[..j - 1]), j - 1);
    }
  }

  /** Stopping commit() after any k of its block writes: the next recovery yields
      the old home blocks up to the header write and the whole group after it. */
  lemma CommitPrefixRecovers(l: Layout, lh: seq<nat>, v: seq<Block>, d: seq<Block>, k: nat)
    requires HeadOk(l, d) && HeaderOf(l, d) == [] && LoggedBlocks(l, lh) && Entries(lh) && lh != []
    requires |v| == |d| && v[l.start] == d[l.start]
    requires k <= |CommitWrites(l, lh, v, d)|
    ensures var dk := Apply(d, CommitWrites(l, lh, v, d)[..k]);
            HeadOk(l, dk)
            && forall b: nat :: l.IsHome(b) ==>
                 RecoveredAt(l, dk, b) == if k > |lh| && b in lh then v[b] else RecoveredAt(l, d, b)
  {
    if k <= |lh| {
      CommitHalves(l, lh, v, d, k);
      var a := LogWrites(l, lh, v) + [HeadWrite(l, v[l.start], lh)];
      assert a[..k] == LogWrites(l, lh, v)[..k];
      LogStage(l, lh, v, d, k);
    } else {
      CommitHalves(l, lh, v, d, 0);
      AfterMark(l, lh, v, d, k);
    }
  }

  lemma AfterMark(l: Layout, lh: seq<nat>, v: seq<Block>, d: seq<Block>, k: nat)
    requires HeadOk(l, d) && HeaderOf(l, d) == [] && LoggedBlocks(l, lh) && Entries(lh) && lh != []
    requires |v| == |d| && v[l.start] == d[l.start] && |lh| < k <= 2 * |lh| + 2
    ensures var ws := CommitWrites(l, lh, v, d);
            |ws| == 2 * |lh| + 2
            && var dk := Apply(d, ws[..k]);
            HeadOk(l, dk)
            && forall b: nat :: l.IsHome(b) ==> RecoveredAt(l, dk, b) == if b in lh then v[b] else d[b]
  {
    hide Apply, Header, HeadFits, RecoveredAt, CommitWrites, LogWrites, HomeWrites, HeadWrite, PutHeader, Committed;
    LogRange(l, lh, v, d);
    var a := LogWrites(l, lh, v) + [HeadWrite(l, v[l.start], lh)];
    var m := k - |lh| - 1;
    MarkStage(l, lh, v, d);
    CommitSecondHalf(l, lh, v, d, m);
    InstallPrefix(l, lh, v, d, Apply(d, a), m);
  }

  lemma InstallPrefix(l: Layout, lh: seq<nat>, v: seq<Block>, d: seq<Block>, dm: seq<Block>, m: nat)
    requires |d| == |v| == l.nblocks && HeadOk(l, dm) && LoggedBlocks(l, lh) && Entries(lh)
    requires Committed(l, lh, v, d, dm, 0) && m <= |lh| + 1
    requires dm[l.start] == PutHeader(v[l.start], lh)
    ensures var b := HomeWrites(lh, v) + [HeadWrite(l, PutHeader(v[l.start], lh), [])];
            var dk := Apply(dm, b[..m]);
            HeadOk(l, dk)
            && forall x: nat :: l.IsHome(x) ==> RecoveredAt(l, dk, x) == if x in lh then v[x] else d[x]
  {
    hide RecoveredAt, Header, HeadFits;
    var h := HomeWrites(lh, v);
    var b := h + [HeadWrite(l, PutHeader(v[l.start], lh), [])];
    if m <= |lh| {
      assert b[..m] == h[..m];
      HomeStage(l, lh, v, d, dm, m);
    } else {
      assert b[..m] == b && b[..|lh|] == h[..|lh|] == h;
      HomeStage(l, lh, v, d, dm, |lh|);
      HeadClear(l, Apply(dm, h));
    }
  }

  /** Stopping recover_from_log() after any k of its block writes leaves a disk that
      recovers to the same home blocks. */
  lemma RecoverPrefixRecovers(l: Layout, d: seq<Block>, k: nat)
    requires HeadOk(l, d) && k <= |RecoverWrites(l, d)|
    ensures var dk := Apply(d, RecoverWrites(l, d)[..k]);
            HeadOk(l, dk) && SameRecovery(l, d, dk)
            && (k == |RecoverWrites(l, d)| ==>
                  HeaderOf(l, dk) == [] && forall b: nat :: l.IsHome(b) ==> dk[b] == RecoveredAt(l, d, b))
  {
    var lh := HeaderOf(l, d);
    var h := InstallWrites(l, lh, d);
    var ws := RecoverWrites(l, d);
    if k <= |lh| {
      assert ws[..k] == h[..k];
      ReplayStage(l, d, k);
    } else {
      assert ws[..k] == ws && ws[..|lh|] == h[..|lh|] == h;
      ReplayStage(l, d, |lh|);
      HeadClear(l, Apply(d, h));
    }
  }

  lemma {:induction false} ReplayStage(l: Layout, d: seq<Block>, k: nat)
    requires HeadOk(l, d) && k <= |HeaderOf(l, d)|
    ensures var lh := HeaderOf(l, d);
            var dk := Apply(d, InstallWrites(l, lh, d)[..k]);
            HeadOk(l, dk) && HeaderOf(l, dk) == lh && Copied(l, dk, lh, k) && SameRecovery(l, d, dk)
            && forall i :: l.start <= i < l.start + l.size ==> dk[i] == d[i]
  {
    hide RecoveredAt, Header, HeadFits;
    if k > 0 {
      ReplayStage(l, d, k - 1);
      var lh := HeaderOf(l, d);
      var a := InstallWrites(l, lh, d);
      assert a[..k][..k - 1] == a[..k - 1];
      var prev := Apply(d, a[..k - 1]);
      assert prev[l.start + 1 + (k - 1)] == d[l.start + 1 + (k - 1)];
      HomeWrite(l, prev, k - 1);
      HomeWriteCopied(l, prev, k - 1);
      HomeWriteHead(l, prev, lh[k - 1], d[l.start + k]);
    }
  }
}
