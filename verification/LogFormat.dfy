/** The on-disk format of the redo log (log.c) and what recovery makes of a disk. */
module LogFormat {
  import opened Blocks

  const MAXOPBLOCKS := 10
  const LOGSIZE := 3 * MAXOPBLOCKS
  const INT_LIMIT := 0x8000_0000

  /** Where the log lies: the header at `start`, `size` blocks in all. */
  datatype Layout = Layout(start: nat, size: nat, nblocks: nat) {
    /** mkfs gives the log LOGSIZE blocks and puts the inodes behind it; block
        numbers are ints. */
    predicate Wf() {
      LOGSIZE <= size && start + size < nblocks < INT_LIMIT
    }

    predicate IsHome(b: nat) {
      b < nblocks && !(start <= b < start + size)
    }
  }

  // ----- the header block -----

  /** `lh->n` read as a signed int: a negative count runs no loop. */
  function HeadCount(h: Block): (n: nat) {
    if Word(h, 0) < INT_LIMIT then Word(h, 0) else 0
  }

  predicate HeadFits(h: Block) {
    HeadCount(h) <= LOGSIZE
  }

  function Header(h: Block): (lh: seq<nat>)
    requires HeadFits(h)
  {
    seq(HeadCount(h), (i: nat) requires i < HeadCount(h) => Word(h, 1 + i) as nat)
  }

  predicate Entries(lh: seq<nat>) {
    |lh| <= LOGSIZE && forall i :: 0 <= i < |lh| ==> lh[i] < INT_LIMIT
  }

  /** write_head's copy loop, after k iterations; words beyond the count stay stale. */
  function PutEntries(h: Block, lh: seq<nat>, k: nat): (r: Block)
    requires Entries(lh) && k <= |lh|
  {
    if k == 0 then PutWord(h, 0, |lh|)
    else PutWord(PutEntries(h, lh, k - 1), k, lh[k - 1])
  }

  function PutHeader(h: Block, lh: seq<nat>): (r: Block)
    requires Entries(lh)
  {
    PutEntries(h, lh, |lh|)
  }

  lemma {:induction false} PutEntriesWords(h: Block, lh: seq<nat>, k: nat)
    requires Entries(lh) && k <= |lh|
    ensures Word(PutEntries(h, lh, k), 0) == |lh|
    ensures forall i :: 0 <= i < k ==> Word(PutEntries(h, lh, k), 1 + i) == lh[i]
  {
    if k == 0 {
      WordPutWord(h, 0, |lh|, 0);
    } else {
      var r := PutEntries(h, lh, k - 1);
      PutEntriesWords(h, lh, k - 1);
      WordPutWord(r, k, lh[k - 1], 0);
      forall i | 0 <= i < k ensures Word(PutEntries(h, lh, k), 1 + i) == lh[i] {
        WordPutWord(r, k, lh[k - 1], 1 + i);
      }
    }
  }

  /** read_head gets back what write_head stored, whatever the block held before. */
  lemma HeaderPutHeader(h: Block, lh: seq<nat>)
    requires Entries(lh)
    ensures HeadFits(PutHeader(h, lh)) && Header(PutHeader(h, lh)) == lh
  {
    PutEntriesWords(h, lh, |lh|);
  }

  // ----- what a disk recovers to -----

  /** Entries name distinct home blocks, and their copies fit the log area. */
  predicate LoggedBlocks(l: Layout, lh: seq<nat>) {
    && |lh| <= LOGSIZE && |lh| < l.size
    && Distinct(lh)
    && forall i :: 0 <= i < |lh| ==> l.IsHome(lh[i])
  }

  /** log_write's bookkeeping: a block already in the header is not added again. */
  function Absorb(lh: seq<nat>, b: nat): (r: seq<nat>) {
    if b in lh then lh else lh + [b]
  }

  predicate HeadOk(l: Layout, disk: seq<Block>) {
    && l.Wf() && |disk| == l.nblocks
    && HeadFits(disk[l.start])
    && LoggedBlocks(l, Header(disk[l.start]))
  }

  function HeaderOf(l: Layout, disk: seq<Block>): (lh: seq<nat>)
    requires HeadOk(l, disk)
  {
    Header(disk[l.start])
  }

  function IndexOf(lh: seq<nat>, b: nat): (i: nat)
    requires b in lh
    ensures i < |lh| && lh[i] == b
  {
    if lh[0] == b then 0 else 1 + IndexOf(lh[1..], b)
  }

  lemma IndexOfAt(lh: seq<nat>, i: nat)
    requires Distinct(lh) && i < |lh|
    ensures IndexOf(lh, lh[i]) == i
  {
  }

  /** Home block b as it will be once the log on this disk has been replayed. */
  function RecoveredAt(l: Layout, disk: seq<Block>, b: nat): (r: Block)
    requires HeadOk(l, disk) && l.IsHome(b)
  {
    if b in HeaderOf(l, disk) then disk[l.start + 1 + IndexOf(HeaderOf(l, disk), b)] else disk[b]
  }

  // ----- the writes of commit and of recovery -----

  /** write_log: copy each logged block from the cache to its log slot. */
  function LogWrites(l: Layout, lh: seq<nat>, view: seq<Block>): (ws: seq<Write>)
    requires forall i :: 0 <= i < |lh| ==> lh[i] < |view|
    ensures |ws| == |lh|
  {
    seq(|lh|, (i: nat) requires i < |lh| => Write(l.start + 1 + i, view[lh[i]]))
  }

  /** install_trans: copy each log slot to its home block. */
  function InstallWrites(l: Layout, lh: seq<nat>, disk: seq<Block>): (ws: seq<Write>)
    requires l.start + |lh| < |disk|
    ensures |ws| == |lh|
  {
    seq(|lh|, (i: nat) requires i < |lh| => Write(lh[i], disk[l.start + 1 + i]))
  }

  function HeadWrite(l: Layout, h: Block, lh: seq<nat>): (w: Write)
    requires Entries(lh)
  {
    Write(l.start, PutHeader(h, lh))
  }

  /** install_trans after write_log: each slot holds what the cache showed. */
  function HomeWrites(lh: seq<nat>, view: seq<Block>): (ws: seq<Write>)
    requires forall i :: 0 <= i < |lh| ==> lh[i] < |view|
    ensures |ws| == |lh|
  {
    seq(|lh|, (i: nat) requires i < |lh| => Write(lh[i], view[lh[i]]))
  }

  /** The block writes of commit(), in order; `view` is what bread returns. */
  function CommitWrites(l: Layout, lh: seq<nat>, view: seq<Block>, disk: seq<Block>): (ws: seq<Write>)
    requires Entries(lh) && l.start < |disk| && forall i :: 0 <= i < |lh| ==> lh[i] < |view|
  {
    if lh == [] then [] else
    LogWrites(l, lh, view)
    + [HeadWrite(l, disk[l.start], lh)]
    + HomeWrites(lh, view)
    + [HeadWrite(l, PutHeader(disk[l.start], lh), [])]
  }

  /** The block writes of recover_from_log(), in order. */
  function RecoverWrites(l: Layout, disk: seq<Block>): (ws: seq<Write>)
    requires HeadOk(l, disk)
  {
    InstallWrites(l, HeaderOf(l, disk), disk) + [HeadWrite(l, disk[l.start], [])]
  }

  // ----- how single block writes change what a disk recovers to -----

  /** The first k logged blocks already lie at home as in the log. */
  ghost predicate Copied(l: Layout, disk: seq<Block>, lh: seq<nat>, k: nat)
    requires l.start + |lh| < |disk| && k <= |lh|
  {
    forall i :: 0 <= i < k ==> lh[i] < |disk| && disk[lh[i]] == disk[l.start + 1 + i]
  }

  ghost predicate SameRecovery(l: Layout, d: seq<Block>, d': seq<Block>)
    requires HeadOk(l, d) && HeadOk(l, d')
  {
    forall b: nat :: l.IsHome(b) ==> RecoveredAt(l, d', b) == RecoveredAt(l, d, b)
  }

  lemma NothingLogged(l: Layout, disk: seq<Block>, b: nat)
    requires HeadOk(l, disk) && HeaderOf(l, disk) == [] && l.IsHome(b)
    ensures RecoveredAt(l, disk, b) == disk[b]
  {
  }

  /** While the header is empty, log slots are scratch space. */
  lemma SlotWrite(l: Layout, disk: seq<Block>, tail: nat, data: Block)
    requires HeadOk(l, disk) && HeaderOf(l, disk) == [] && tail + 1 < l.size
    ensures var d := disk[l.start + 1 + tail := data];
            HeadOk(l, d) && HeaderOf(l, d) == [] && SameRecovery(l, disk, d)
  {
  }

  /** Writing the header makes exactly the logged blocks recover to their slots. */
  lemma HeadPut(l: Layout, disk: seq<Block>, lh: seq<nat>)
    requires HeadOk(l, disk) && HeaderOf(l, disk) == [] && LoggedBlocks(l, lh) && Entries(lh)
    ensures var d := disk[l.start := PutHeader(disk[l.start], lh)];
            HeadOk(l, d) && HeaderOf(l, d) == lh
            && (forall i :: 0 <= i < |lh| ==> RecoveredAt(l, d, lh[i]) == disk[l.start + 1 + i])
            && (forall b: nat :: l.IsHome(b) && b !in lh ==> RecoveredAt(l, d, b) == RecoveredAt(l, disk, b))
  {
    hide Header, PutHeader, HeadFits;
    HeaderPutHeader(disk[l.start], lh);
    var d := disk[l.start := PutHeader(disk[l.start], lh)];
    forall i | 0 <= i < |lh| ensures RecoveredAt(l, d, lh[i]) == disk[l.start + 1 + i] {
      IndexOfAt(lh, i);
    }
  }

  /** A home write leaves the header and the log slots alone. */
  lemma HomeWriteHead(l: Layout, disk: seq<Block>, b: nat, data: Block)
    requires HeadOk(l, disk) && l.IsHome(b)
    ensures var d := disk[b := data];
            HeadOk(l, d) && HeaderOf(l, d) == HeaderOf(l, disk)
            && forall i :: l.start <= i < l.start + l.size ==> d[i] == disk[i]
  {
  }

  /** Installing a block, once or again, does not change what is recovered. */
  lemma HomeWrite(l: Layout, disk: seq<Block>, tail: nat)
    requires HeadOk(l, disk) && tail < |HeaderOf(l, disk)|
    ensures var lh := HeaderOf(l, disk);
            var d := disk[lh[tail] := disk[l.start + 1 + tail]];
            HeadOk(l, d) && HeaderOf(l, d) == lh && SameRecovery(l, disk, d)
  {
    var lh := HeaderOf(l, disk);
    var d := disk[lh[tail] := disk[l.start + 1 + tail]];
    HomeWriteHead(l, disk, lh[tail], disk[l.start + 1 + tail]);
    forall b: nat | l.IsHome(b) ensures RecoveredAt(l, d, b) == RecoveredAt(l, disk, b) {
      if b in lh {
        var k := l.start + 1 + IndexOf(lh, b);
        assert d[k] == disk[k];
      }
    }
  }

  lemma HomeWriteCopied(l: Layout, disk: seq<Block>, tail: nat)
    requires HeadOk(l, disk) && tail < |HeaderOf(l, disk)|
    requires Copied(l, disk, HeaderOf(l, disk), tail)
    ensures var lh := HeaderOf(l, disk);
            Copied(l, disk[lh[tail] := disk[l.start + 1 + tail]], lh, tail + 1)
  {
    var lh := HeaderOf(l, disk);
    var d := disk[lh[tail] := disk[l.start + 1 + tail]];
    HomeWriteHead(l, disk, lh[tail], disk[l.start + 1 + tail]);
    forall i | 0 <= i < tail + 1 ensures lh[i] < |d| && d[lh[i]] == d[l.start + 1 + i] {
      var k := l.start + 1 + i;
      assert d[k] == disk[k];
      assert i < tail ==> lh[i] != lh[tail];
    }
  }

  /** Once everything is installed the header can go. */
  lemma HeadClear(l: Layout, disk: seq<Block>)
    requires HeadOk(l, disk) && Copied(l, disk, HeaderOf(l, disk), |HeaderOf(l, disk)|)
    ensures var d := disk[l.start := PutHeader(disk[l.start], [])];
            HeadOk(l, d) && HeaderOf(l, d) == [] && SameRecovery(l, disk, d)
            && forall b: nat :: l.IsHome(b) ==> d[b] == RecoveredAt(l, disk, b)
  {
    HeaderPutHeader(disk[l.start], []);
    var lh := HeaderOf(l, disk);
    var d := disk[l.start := PutHeader(disk[l.start], [])];
    forall b: nat | l.IsHome(b) ensures d[b] == RecoveredAt(l, disk, b) {
      if b in lh {
        var i := IndexOf(lh, b);
        assert disk[lh[i]] == disk[l.start + 1 + i];
      }
    }
  }
}
