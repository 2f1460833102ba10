/** The logging system as a machine of interleaved steps: processes that open,
    write and close transactions, the committer's single block writes, readers that
    hold buffers, crashes at any point, and recovery, which may crash again. Every
    section that holds log.lock throughout is one step. */
module LogMachine {
  import opened Blocks
  import opened LogFormat
  import Cache

  /** Where the committing process stands in commit(). */
  datatype Phase = WritingLog(tail: nat) | WritingHead | Installing(tail: nat) | ClearingHead | Finishing

  /** Where a process stands; `touched` are the blocks its operation has logged. */
  datatype Pc =
    | Outside
    | Trying
    | Asleep
    | InOp(touched: set<nat>)
    | Dirtied(touched: set<nat>, held: nat)
    | Checked(touched: set<nat>, held: nat)
    | Committing(phase: Phase)
  {
    predicate Active() {
      InOp? || Dirtied? || Checked?
    }

    predicate HoldsBuffer() {
      Dirtied? || Checked?
    }

    function Spare(): (r: int) {
      if Active() then MAXOPBLOCKS - |touched| else 0
    }
  }

  datatype Boot = ReadingHead | Replaying(tail: nat) | Erasing
  datatype Mode = Running | Booting(boot: Boot)

  /** `pending` are the changed blocks that are pinned or locked by their writer;
      `lent` are the blocks whose buffers someone else refers to, such as a reader. */
  datatype State = State(mode: Mode, disk: seq<Block>, pending: map<nat, Block>, lh: seq<nat>,
                         outstanding: nat, committing: bool, procs: seq<Pc>, lent: set<nat>)

  /** What bread returns: pinned buffers over the disk. */
  function View(s: State, b: nat): (r: Block)
    requires b < |s.disk|
  {
    if b in s.pending then s.pending[b] else s.disk[b]
  }

  /** The blocks of the buffers that bget must not recycle; Cache.NoBuffer shows that their
      number is all that bget's search depends on. */
  function Busy(s: State): (r: set<nat>) {
    s.pending.Keys + s.lent
  }

  /** Commit(p) is any step of commit() but the header write that commits, Publish(p). */
  datatype Step =
    | Begin(p: nat)
    | Rouse(p: nat)
    | Modify(p: nat, b: nat, data: Block)
    | Check(p: nat)
    | Append(p: nat)
    | End(p: nat)
    | Commit(p: nat)
    | Publish(p: nat)
    | Take(b: nat)
    | Give(b: nat)
    | Crash
    | Recover

  predicate Sane(l: Layout, s: State) {
    && l.Wf() && |s.disk| == l.nblocks
    && Entries(s.lh) && |s.lh| <= l.size
    && (forall i :: 0 <= i < |s.lh| ==> s.lh[i] < l.nblocks)
    && HeadOk(l, s.disk)
  }

  predicate LogFull(s: State) {
    |s.lh| + (s.outstanding + 1) * MAXOPBLOCKS > LOGSIZE
  }

  predicate InPhase(s: State, p: nat) {
    s.mode.Running? && p < |s.procs| && s.procs[p].Committing?
  }

  /** A step is enabled where the code neither blocks nor panics; a panic stops
      the machine, which is what Crash does. */
  predicate Enabled(l: Layout, s: State, step: Step)
    requires Sane(l, s)
  {
    match step
    case Begin(p) => s.mode.Running? && p < |s.procs| && (s.procs[p].Outside? || s.procs[p].Trying?)
    case Rouse(p) => s.mode.Running? && p < |s.procs| && s.procs[p].Asleep?
    case Modify(p, b, data) =>
      && s.mode.Running? && p < |s.procs| && s.procs[p].InOp? && l.IsHome(b) && Cache.CanRead(Busy(s), [b])
      && |s.procs[p].touched + {b}| <= MAXOPBLOCKS
      && forall q :: 0 <= q < |s.procs| && s.procs[q].HoldsBuffer() ==> s.procs[q].held != b
    case Check(p) =>
      && s.mode.Running? && p < |s.procs| && s.procs[p].Dirtied?
      && |s.lh| < LOGSIZE && |s.lh| < l.size - 1 && s.outstanding >= 1
    case Append(p) => s.mode.Running? && p < |s.procs| && s.procs[p].Checked?
                      && |Absorb(s.lh, s.procs[p].held)| <= LOGSIZE && s.procs[p].held < l.nblocks
    case End(p) => s.mode.Running? && p < |s.procs| && s.procs[p].InOp? && s.outstanding >= 1 && !s.committing
    case Commit(p) => InPhase(s, p) && !s.procs[p].phase.WritingHead? && PhaseEnabled(l, s, s.procs[p].phase)
    case Publish(p) => InPhase(s, p) && s.procs[p].phase.WritingHead? && PhaseEnabled(l, s, s.procs[p].phase)
    case Take(b) => s.mode.Running? && l.IsHome(b) && Cache.CanRead(Busy(s), [b])
    case Give(b) => s.mode.Running? && b in s.lent
    case Crash => true
    case Recover => s.mode.Booting? && (s.mode.boot.Replaying? ==> s.mode.boot.tail < |s.lh|)
                    && Cache.CanRead(Busy(s), BootReads(l, s))
  }

  predicate PhaseEnabled(l: Layout, s: State, ph: Phase) {
    (ph.WritingLog? || ph.Installing? ==> ph.tail < |s.lh|) && Cache.CanRead(Busy(s), PhaseReads(l, s, ph))
  }

  /** The blocks that the next block write of commit() reads, in order. */
  function PhaseReads(l: Layout, s: State, ph: Phase): (r: seq<nat>)
    requires ph.WritingLog? || ph.Installing? ==> ph.tail < |s.lh|
  {
    match ph
    case WritingLog(tail) => [l.start + 1 + tail, s.lh[tail]]
    case Installing(tail) => [l.start + 1 + tail, s.lh[tail]]
    case Finishing => []
    case _ => [l.start]
  }

  function BootReads(l: Layout, s: State): (r: seq<nat>)
    requires s.mode.Booting? && (s.mode.boot.Replaying? ==> s.mode.boot.tail < |s.lh|)
  {
    if s.mode.boot.Replaying? then [l.start + 1 + s.mode.boot.tail, s.lh[s.mode.boot.tail]] else [l.start]
  }

  /** wakeup(&log). */
  function WakeAll(procs: seq<Pc>): (r: seq<Pc>) {
    seq(|procs|, i requires 0 <= i < |procs| => if procs[i].Asleep? then Trying else procs[i])
  }

  function Do(l: Layout, s: State, step: Step): (s': State)
    requires Sane(l, s) && Enabled(l, s, step)
  {
    match step
    case Begin(p) => DoBegin(s, p)
    case Rouse(p) => s.(procs := s.procs[p := Trying])
    case Modify(p, b, data) =>
      s.(procs := s.procs[p := Dirtied(s.procs[p].touched, b)], pending := s.pending[b := data])
    case Check(p) => s.(procs := s.procs[p := Checked(s.procs[p].touched, s.procs[p].held)])
    case Append(p) => DoAppend(s, p)
    case End(p) => DoEnd(s, p)
    case Commit(p) => DoPhase(l, s, p)
    case Publish(p) => DoPhase(l, s, p)
    case Take(b) => s.(lent := s.lent + {b})
    case Give(b) => s.(lent := s.lent - {b})
    case Crash => DoCrash(s)
    case Recover => DoBoot(l, s)
  }

  /** One pass of begin_op's loop under log.lock. */
  function DoBegin(s: State, p: nat): (s': State)
    requires p < |s.procs|
  {
    if s.committing || LogFull(s) then s.(procs := s.procs[p := Asleep])
    else s.(procs := s.procs[p := InOp({})], outstanding := s.outstanding + 1)
  }

  /** The locked part of log_write. */
  function DoAppend(s: State, p: nat): (s': State)
    requires p < |s.procs| && s.procs[p].Checked?
  {
    s.(procs := s.procs[p := InOp(s.procs[p].touched + {s.procs[p].held})],
       lh := Absorb(s.lh, s.procs[p].held))
  }

  /** The locked part of end_op. */
  function DoEnd(s: State, p: nat): (s': State)
    requires p < |s.procs| && s.outstanding >= 1
  {
    if s.outstanding == 1 then
      s.(procs := s.procs[p := Committing(if s.lh == [] then Finishing else WritingLog(0))],
         outstanding := 0, committing := true)
    else
      s.(procs := WakeAll(s.procs[p := Outside]), outstanding := s.outstanding - 1)
  }

  /** Stop anywhere and lose memory. */
  function DoCrash(s: State): (s': State) {
    s.(mode := Booting(ReadingHead), pending := map[], lh := [], outstanding := 0, committing := false,
       procs := seq(|s.procs|, _ => Outside), lent := {})
  }

  function DoPhase(l: Layout, s: State, p: nat): (s': State)
    requires Sane(l, s) && InPhase(s, p) && PhaseEnabled(l, s, s.procs[p].phase)
  {
    match s.procs[p].phase
    case WritingLog(tail) =>
      s.(disk := s.disk[l.start + 1 + tail := View(s, s.lh[tail])],
         procs := s.procs[p := Committing(if tail + 1 < |s.lh| then WritingLog(tail + 1) else WritingHead)])
    case WritingHead =>
      s.(disk := s.disk[l.start := PutHeader(s.disk[l.start], s.lh)],
         procs := s.procs[p := Committing(if s.lh == [] then ClearingHead else Installing(0))])
    case Installing(tail) =>
      s.(disk := s.disk[s.lh[tail] := s.disk[l.start + 1 + tail]],
         pending := s.pending - {s.lh[tail]},
         procs := s.procs[p := Committing(if tail + 1 < |s.lh| then Installing(tail + 1) else ClearingHead)])
    case ClearingHead =>
      s.(disk := s.disk[l.start := PutHeader(s.disk[l.start], [])], lh := [],
         procs := s.procs[p := Committing(Finishing)])
    case Finishing =>
      s.(committing := false, procs := WakeAll(s.procs[p := Outside]))
  }

  function DoBoot(l: Layout, s: State): (s': State)
    requires Sane(l, s) && Enabled(l, s, Recover)
  {
    match s.mode.boot
    case ReadingHead =>
      var lh := HeaderOf(l, s.disk);
      s.(lh := lh, mode := Booting(if lh == [] then Erasing else Replaying(0)))
    case Replaying(tail) =>
      s.(disk := s.disk[s.lh[tail] := s.disk[l.start + 1 + tail]],
         mode := Booting(if tail + 1 < |s.lh| then Replaying(tail + 1) else Erasing))
    case Erasing =>
      s.(disk := s.disk[l.start := PutHeader(s.disk[l.start], [])], lh := [], mode := Running)
  }

  // ----- invariants -----

  function Actives(procs: seq<Pc>): (n: nat) {
    if procs == [] then 0
    else Actives(procs[..|procs| - 1]) + if procs[|procs| - 1].Active() then 1 else 0
  }

  /** The blocks that open operations may still log. */
  function Unspent(procs: seq<Pc>): (n: int) {
    if procs == [] then 0 else Unspent(procs[..|procs| - 1]) + procs[|procs| - 1].Spare()
  }

  /** The group-commit protocol. */
  ghost predicate Protocol(s: State) {
    && s.outstanding == Actives(s.procs)
    && (s.committing ==> s.outstanding == 0)
    && (forall p :: 0 <= p < |s.procs| && s.procs[p].Committing? ==> s.committing)
    && (forall p, q :: 0 <= p < q < |s.procs| && s.procs[p].Committing? ==> !s.procs[q].Committing?)
    && (s.committing ==> exists p :: 0 <= p < |s.procs| && s.procs[p].Committing?)
    && (s.mode.Running? && !s.committing && s.outstanding == 0 ==> s.lh == [])
    && (forall p :: 0 <= p < |s.procs| && s.procs[p].Asleep? ==> s.committing || (LogFull(s) && s.outstanding > 0))
    && (s.mode.Booting? ==> !s.committing && forall p :: 0 <= p < |s.procs| ==> s.procs[p].Outside?)
  }

  ghost predicate WithinBounds(l: Layout, pc: Pc, lh: seq<nat>) {
    && (pc.Active() ==> |pc.touched| <= MAXOPBLOCKS && forall b :: b in pc.touched ==> b in lh)
    && (pc.HoldsBuffer() ==> l.IsHome(pc.held) && |pc.touched + {pc.held}| <= MAXOPBLOCKS)
  }

  /** Space: logged blocks and unspent reservations together fit the header. */
  ghost predicate Space(l: Layout, procs: seq<Pc>, lh: seq<nat>) {
    && (forall p :: 0 <= p < |procs| ==> WithinBounds(l, procs[p], lh))
    && |lh| + Unspent(procs) <= LOGSIZE
    && Distinct(lh)
    && (forall i :: 0 <= i < |lh| ==> l.IsHome(lh[i]))
  }

  ghost predicate HeldBySome(procs: seq<Pc>, b: nat) {
    exists p :: 0 <= p < |procs| && procs[p].HoldsBuffer() && procs[p].held == b
  }

  /** Changes not yet on disk are those of logged blocks and of buffers held by writers. */
  ghost predicate Pinned(l: Layout, s: State) {
    && (s.mode.Booting? ==> s.pending == map[] && s.lent == {})
    && (forall b :: b in s.pending ==> b in s.lh || HeldBySome(s.procs, b))
    && (forall p :: 0 <= p < |s.procs| && s.procs[p].HoldsBuffer() ==> s.procs[p].held in s.pending)
    && (s.mode.Running? && !s.committing ==> AllPending(s, 0))
    && (forall b :: b in s.lent ==> l.IsHome(b))
  }

  /** The logged blocks from `tail` on are pinned. */
  ghost predicate AllPending(s: State, tail: nat) {
    forall i :: tail <= i < |s.lh| ==> s.lh[i] in s.pending
  }

  /** The first `tail` log slots hold what the cache shows of the logged blocks. */
  ghost predicate SlotsFilled(l: Layout, s: State, tail: nat)
    requires Sane(l, s) && tail <= |s.lh|
  {
    forall i :: 0 <= i < tail ==> s.disk[l.start + 1 + i] == View(s, s.lh[i])
  }

  ghost predicate PhaseOk(l: Layout, s: State, ph: Phase)
    requires Sane(l, s)
  {
    match ph
    case WritingLog(tail) =>
      && tail < |s.lh| && HeaderOf(l, s.disk) == [] && (tail > 0 ==> |s.lh| < Cache.NBUF)
      && SlotsFilled(l, s, tail) && AllPending(s, 0)
    case WritingHead =>
      && s.lh != [] && |s.lh| < Cache.NBUF && HeaderOf(l, s.disk) == []
      && SlotsFilled(l, s, |s.lh|) && AllPending(s, 0)
    case Installing(tail) =>
      && tail < |s.lh| && |s.lh| < Cache.NBUF && HeaderOf(l, s.disk) == s.lh
      && Copied(l, s.disk, s.lh, tail) && AllPending(s, tail)
      && (forall b :: b in s.pending ==> b in s.lh[tail..])
    case ClearingHead =>
      && |s.lh| < Cache.NBUF && HeaderOf(l, s.disk) == s.lh && Copied(l, s.disk, s.lh, |s.lh|)
      && s.pending == map[]
    case Finishing => s.lh == [] && HeaderOf(l, s.disk) == []
  }

  ghost predicate Phases(l: Layout, s: State)
    requires Sane(l, s)
  {
    && (forall p :: 0 <= p < |s.procs| && s.procs[p].Committing? ==> PhaseOk(l, s, s.procs[p].phase))
    && (s.mode.Running? && !s.committing ==> HeaderOf(l, s.disk) == [])
    && (s.mode.Booting? ==>
          match s.mode.boot
          case ReadingHead => true
          case Replaying(tail) => s.lh == HeaderOf(l, s.disk) && tail < |s.lh| && Copied(l, s.disk, s.lh, tail)
          case Erasing => s.lh == HeaderOf(l, s.disk) && Copied(l, s.disk, s.lh, |s.lh|))
  }

  ghost predicate Inv(l: Layout, s: State) {
    && Sane(l, s)
    && Protocol(s)
    && Space(l, s.procs, s.lh)
    && Pinned(l, s)
    && Phases(l, s)
  }

  // ----- counting -----

  lemma {:induction false} Replace(procs: seq<Pc>, p: nat, pc: Pc)
    requires p < |procs|
    ensures Actives(procs[p := pc])
            == Actives(procs) - (if procs[p].Active() then 1 else 0) + (if pc.Active() then 1 else 0)
    ensures Unspent(procs[p := pc]) == Unspent(procs) - procs[p].Spare() + pc.Spare()
  {
    var n := |procs| - 1;
    if p == n {
      assert procs[p := pc][..n] == procs[..n];
    } else {
      Replace(procs[..n], p, pc);
      assert procs[p := pc][..n] == procs[..n][p := pc];
    }
  }

  lemma {:induction false} SameCounts(procs: seq<Pc>, procs': seq<Pc>)
    requires |procs| == |procs'|
    requires forall i :: 0 <= i < |procs| ==>
               procs[i].Active() == procs'[i].Active() && procs[i].Spare() == procs'[i].Spare()
    ensures Actives(procs) == Actives(procs') && Unspent(procs) == Unspent(procs')
  {
    if procs != [] {
      SameCounts(procs[..|procs| - 1], procs'[..|procs| - 1]);
    }
  }

  /** A process leaves, and all who sleep on the log wake up. */
  lemma WakeCounts(procs: seq<Pc>, p: nat)
    requires p < |procs|
    ensures var woken := WakeAll(procs[p := Outside]);
            && Actives(woken) == Actives(procs) - (if procs[p].Active() then 1 else 0)
            && Unspent(woken) == Unspent(procs) - procs[p].Spare()
  {
    Replace(procs, p, Outside);
    SameCounts(procs[p := Outside], WakeAll(procs[p := Outside]));
  }

  lemma {:induction false} NoActives(procs: seq<Pc>)
    ensures Actives(procs) == 0 <==> forall i :: 0 <= i < |procs| ==> !procs[i].Active()
    ensures Actives(procs) == 0 ==> Unspent(procs) == 0
  {
    if procs != [] {
      NoActives(procs[..|procs| - 1]);
    }
  }

  lemma {:induction false} UnspentBound(procs: seq<Pc>)
    requires forall i :: 0 <= i < |procs| && procs[i].Active() ==> |procs[i].touched| <= MAXOPBLOCKS
    ensures Unspent(procs) <= MAXOPBLOCKS * Actives(procs)
    ensures forall i :: 0 <= i < |procs| ==> 0 <= procs[i].Spare() <= Unspent(procs)
  {
    if procs != [] {
      var n := |procs| - 1;
      UnspentBound(procs[..n]);
      assert forall i :: 0 <= i < n ==> procs[..n][i] == procs[i];
    }
  }

  lemma SpareBound(l: Layout, procs: seq<Pc>, lh: seq<nat>)
    requires Space(l, procs, lh)
    ensures Unspent(procs) <= MAXOPBLOCKS * Actives(procs)
    ensures forall i :: 0 <= i < |procs| ==> 0 <= procs[i].Spare() <= Unspent(procs)
  {
    forall i | 0 <= i < |procs| && procs[i].Active() ensures |procs[i].touched| <= MAXOPBLOCKS {
      assert WithinBounds(l, procs[i], lh);
    }
    UnspentBound(procs);
  }

  // ----- Space: what each step does to reservations -----

  /** One process moves on; its spare blocks do not grow unless there is room for them. */
  lemma SpaceReplace(l: Layout, procs: seq<Pc>, lh: seq<nat>, p: nat, pc: Pc)
    requires Space(l, procs, lh) && p < |procs| && WithinBounds(l, pc, lh)
    requires |lh| + Unspent(procs) - procs[p].Spare() + pc.Spare() <= LOGSIZE
    ensures Space(l, procs[p := pc], lh)
  {
    Replace(procs, p, pc);
    hide WithinBounds;
    var after := procs[p := pc];
    forall q | 0 <= q < |after| ensures WithinBounds(l, after[q], lh) {
      assert WithinBounds(l, procs[q], lh);
    }
  }

  lemma SpaceLeave(l: Layout, procs: seq<Pc>, lh: seq<nat>, p: nat)
    requires Space(l, procs, lh) && p < |procs|
    ensures Space(l, WakeAll(procs[p := Outside]), lh)
  {
    SpareBound(l, procs, lh);
    WakeCounts(procs, p);
    var after := WakeAll(procs[p := Outside]);
    forall q | 0 <= q < |after| ensures WithinBounds(l, after[q], lh) {
      assert WithinBounds(l, procs[q], lh);
    }
  }

  lemma SpaceEmpty(l: Layout, procs: seq<Pc>, lh: seq<nat>)
    requires Space(l, procs, lh) && forall i :: 0 <= i < |procs| ==> !procs[i].Active()
    ensures Space(l, procs, [])
  {
    NoActives(procs);
  }

  /** The reservation made by begin_op covers every append, although log_write
      tests lh.n before it takes log.lock: lh.block[LOGSIZE] is never exceeded. */
  lemma AppendNeverOverruns(l: Layout, procs: seq<Pc>, lh: seq<nat>, p: nat)
    requires Space(l, procs, lh) && p < |procs| && procs[p].HoldsBuffer()
    ensures |Absorb(lh, procs[p].held)| <= LOGSIZE
  {
    SpareBound(l, procs, lh);
    assert WithinBounds(l, procs[p], lh);
    if procs[p].held !in lh {
      assert procs[p].held !in procs[p].touched;
      assert |procs[p].touched + {procs[p].held}| == |procs[p].touched| + 1;
    }
  }

  lemma AppendSpace(l: Layout, procs: seq<Pc>, lh: seq<nat>, p: nat)
    requires Space(l, procs, lh) && p < |procs| && procs[p].Checked?
    ensures var pc := procs[p];
            Space(l, procs[p := InOp(pc.touched + {pc.held})], Absorb(lh, pc.held))
  {
    var pc := procs[p];
    var now := InOp(pc.touched + {pc.held});
    assert WithinBounds(l, pc, lh);
    Replace(procs, p, now);
    if pc.held in pc.touched {
      assert pc.touched + {pc.held} == pc.touched;
    } else {
      assert |pc.touched + {pc.held}| == |pc.touched| + 1;
    }
    var after := procs[p := now];
    forall q | 0 <= q < |after| ensures WithinBounds(l, after[q], Absorb(lh, pc.held)) {
      assert WithinBounds(l, procs[q], lh);
    }
  }

  // ----- Protocol: who is open, asleep or committing -----

  lemma ActiveMeansNoCommit(s: State, p: nat)
    requires Protocol(s) && p < |s.procs| && s.procs[p].Active()
    ensures s.outstanding >= 1 && !s.committing && s.mode.Running?
    ensures forall q :: 0 <= q < |s.procs| ==> !s.procs[q].Committing?
  {
    NoActives(s.procs);
  }

  lemma BeginProtocol(s: State, p: nat)
    requires Protocol(s) && s.mode.Running?
    requires p < |s.procs| && (s.procs[p].Outside? || s.procs[p].Trying?)
    ensures Protocol(DoBegin(s, p))
  {
    var s' := DoBegin(s, p);
    Replace(s.procs, p, s'.procs[p]);
    if s.committing {
      var q :| 0 <= q < |s.procs| && s.procs[q].Committing?;
      assert s'.procs[q].Committing?;
    }
  }

  /** A step of one process that neither opens nor closes an operation. */
  lemma LocalProtocol(s: State, s': State, p: nat)
    requires Protocol(s) && s.mode.Running?
    requires p < |s.procs| && |s'.procs| == |s.procs| && s'.procs == s.procs[p := s'.procs[p]]
    requires !s.procs[p].Committing? && !s'.procs[p].Committing? && !s'.procs[p].Asleep?
    requires s.procs[p].Active() == s'.procs[p].Active()
    requires s'.mode == s.mode && |s'.lh| >= |s.lh| && (s.lh == [] ==> s'.lh == [] || s.procs[p].Active())
    requires s'.outstanding == s.outstanding && s'.committing == s.committing
    ensures Protocol(s')
  {
    Replace(s.procs, p, s'.procs[p]);
    NoActives(s.procs);
    if s.committing {
      var q :| 0 <= q < |s.procs| && s.procs[q].Committing?;
      assert s'.procs[q].Committing?;
    }
  }

  lemma EndProtocol(s: State, p: nat)
    requires Protocol(s) && s.mode.Running? && p < |s.procs| && s.procs[p].InOp?
    ensures s.outstanding >= 1 && !s.committing
    ensures Protocol(DoEnd(s, p))
  {
    ActiveMeansNoCommit(s, p);
    if s.outstanding == 1 {
      Replace(s.procs, p, DoEnd(s, p).procs[p]);
    } else {
      WakeCounts(s.procs, p);
    }
  }

  /** A commit step of the one committer keeps the protocol while it goes on. */
  lemma PhaseProtocol(s: State, s': State, p: nat, ph: Phase)
    requires Protocol(s) && s.mode.Running?
    requires p < |s.procs| && s.procs[p].Committing? && s'.procs == s.procs[p := Committing(ph)]
    requires s'.mode == s.mode && s'.outstanding == s.outstanding && s'.committing == s.committing
    requires s'.lh == s.lh || s'.lh == []
    ensures Protocol(s')
  {
    Replace(s.procs, p, Committing(ph));
    assert s'.procs[p].Committing?;
  }

  lemma FinishProtocol(s: State, s': State, p: nat)
    requires Protocol(s) && s.mode.Running? && s.lh == []
    requires p < |s.procs| && s.procs[p].Committing? && s'.procs == WakeAll(s.procs[p := Outside])
    requires s'.mode == s.mode && s'.outstanding == s.outstanding && !s'.committing && s'.lh == s.lh
    ensures Protocol(s')
  {
    WakeCounts(s.procs, p);
  }

  lemma BootProtocol(s: State, s': State)
    requires Protocol(s) && s.mode.Booting? && s'.procs == s.procs
    requires s'.outstanding == s.outstanding && s'.committing == s.committing
    requires s'.mode.Running? ==> s'.lh == []
    ensures Protocol(s')
  {
  }

  // ----- Pinned: changed blocks and their buffers -----

  /** A process that keeps or does not hold a buffer leaves Pinned alone. */
  lemma PinnedReplace(l: Layout, s: State, s': State, p: nat)
    requires Pinned(l, s) && s.mode.Running? && s'.mode == s.mode
    requires p < |s.procs| && |s'.procs| == |s.procs| && s'.procs == s.procs[p := s'.procs[p]]
    requires s.procs[p].HoldsBuffer() == s'.procs[p].HoldsBuffer()
    requires s.procs[p].HoldsBuffer() ==> s'.procs[p].held == s.procs[p].held
    requires s'.pending == s.pending && s'.lh == s.lh && s'.lent == s.lent && (s.committing ==> s'.committing)
    ensures Pinned(l, s')
  {
    forall b | b in s'.pending ensures b in s'.lh || HeldBySome(s'.procs, b) {
      if b !in s.lh {
        var q :| 0 <= q < |s.procs| && s.procs[q].HoldsBuffer() && s.procs[q].held == b;
        assert s'.procs[q].HoldsBuffer() && s'.procs[q].held == b;
      }
    }
    assert s.mode.Running? && !s.committing ==> AllPending(s, 0) == AllPending(s', 0);
  }

  lemma ModifyPinned(l: Layout, s: State, s': State, p: nat, b: nat)
    requires Pinned(l, s) && s.mode.Running? && s'.mode == s.mode && s'.lh == s.lh && s'.lent == s.lent
    requires p < |s.procs| && |s'.procs| == |s.procs| && s'.procs == s.procs[p := s'.procs[p]]
    requires !s.procs[p].HoldsBuffer() && s'.procs[p].HoldsBuffer() && s'.procs[p].held == b
    requires s'.pending.Keys == s.pending.Keys + {b} && s'.committing == s.committing
    ensures Pinned(l, s')
  {
    forall c | c in s'.pending ensures c in s'.lh || HeldBySome(s'.procs, c) {
      if c == b {
        assert s'.procs[p].HoldsBuffer() && s'.procs[p].held == c;
      } else if c !in s.lh {
        assert c in s.pending;
        var q :| 0 <= q < |s.procs| && s.procs[q].HoldsBuffer() && s.procs[q].held == c;
        assert s'.procs[q].HoldsBuffer() && s'.procs[q].held == c;
      }
    }
    assert forall c :: c in s.pending ==> c in s'.pending;
    assert b in s'.pending;
  }

  lemma AppendPinned(l: Layout, s: State, p: nat)
    requires Pinned(l, s) && s.mode.Running? && p < |s.procs| && s.procs[p].Checked?
    ensures Pinned(l, DoAppend(s, p))
  {
    var s' := DoAppend(s, p);
    forall c | c in s'.pending ensures c in s'.lh || HeldBySome(s'.procs, c) {
      if c !in s.lh && c != s.procs[p].held {
        var q :| 0 <= q < |s.procs| && s.procs[q].HoldsBuffer() && s.procs[q].held == c;
        assert s'.procs[q].HoldsBuffer() && s'.procs[q].held == c;
      }
    }
    assert s.procs[p].held in s.pending;
    assert !s.committing ==> AllPending(s, 0);
  }

  lemma EndPinned(l: Layout, s: State, p: nat)
    requires Pinned(l, s) && s.mode.Running? && p < |s.procs| && s.procs[p].InOp?
    requires s.outstanding >= 1 && !s.committing
    ensures Pinned(l, DoEnd(s, p)) && AllPending(DoEnd(s, p), 0)
  {
    var s' := DoEnd(s, p);
    assert forall q :: 0 <= q < |s.procs| ==> s'.procs[q].HoldsBuffer() == s.procs[q].HoldsBuffer();
    forall c | c in s'.pending ensures c in s'.lh || HeldBySome(s'.procs, c) {
      if c !in s.lh {
        var q :| 0 <= q < |s.procs| && s.procs[q].HoldsBuffer() && s.procs[q].held == c;
        assert s'.procs[q].HoldsBuffer() && s'.procs[q].held == c;
      }
    }
    assert AllPending(s, 0);
  }

  /** With nobody holding a buffer, what is pending is exactly the logged blocks. */
  lemma NobodyHolds(l: Layout, s: State)
    requires Pinned(l, s) && forall q :: 0 <= q < |s.procs| ==> !s.procs[q].HoldsBuffer()
    ensures forall b :: b in s.pending ==> b in s.lh
  {
    forall b | b in s.pending ensures b in s.lh {
      assert !HeldBySome(s.procs, b);
    }
  }

  lemma QuietPinned(l: Layout, s: State)
    requires forall q :: 0 <= q < |s.procs| ==> !s.procs[q].HoldsBuffer()
    requires forall b :: b in s.pending ==> b in s.lh
    requires forall b :: b in s.lent ==> l.IsHome(b)
    requires s.mode.Running? && (!s.committing ==> AllPending(s, 0))
    ensures Pinned(l, s)
  {
  }

  /** With a commit under way nobody else is inside an operation. */
  lemma CommitterAlone(l: Layout, s: State, p: nat)
    requires Protocol(s) && Pinned(l, s) && p < |s.procs| && s.procs[p].Committing?
    ensures s.committing && s.outstanding == 0 && s.mode.Running?
    ensures forall q :: 0 <= q < |s.procs| ==> !s.procs[q].Active() && (q != p ==> !s.procs[q].Committing?)
    ensures forall b :: b in s.pending ==> b in s.lh
    ensures forall b :: b in s.lent ==> l.IsHome(b)
  {
    NoActives(s.procs);
    NobodyHolds(l, s);
  }

  // ----- the steps of processes -----

  /** Steps that leave disk, header and pending blocks alone keep the phases. */
  lemma PhasesSame(l: Layout, s: State, s': State)
    requires Sane(l, s) && Phases(l, s)
    requires s'.disk == s.disk && s'.lh == s.lh && s'.mode == s.mode && s'.committing == s.committing
    requires |s'.procs| == |s.procs|
    requires s'.pending == s.pending || forall p :: 0 <= p < |s.procs| ==> !s.procs[p].Committing?
    requires forall p :: 0 <= p < |s.procs| && s'.procs[p].Committing? ==> s'.procs[p] == s.procs[p]
    ensures Sane(l, s') && Phases(l, s')
  {
    forall p | 0 <= p < |s'.procs| && s'.procs[p].Committing? ensures PhaseOk(l, s', s'.procs[p].phase) {
      assert PhaseOk(l, s, s.procs[p].phase);
    }
  }

  lemma BeginKeeps(l: Layout, s: State, p: nat)
    requires Inv(l, s) && Enabled(l, s, Begin(p))
    ensures Inv(l, Do(l, s, Begin(p)))
  {
    hide Protocol, Space, Pinned, Phases, Sane, HeadOk;
    var s' := DoBegin(s, p);
    BeginProtocol(s, p);
    BeginSpace(l, s, p);
    PinnedReplace(l, s, s', p);
    PhasesSame(l, s, s');
  }

  lemma BeginSpace(l: Layout, s: State, p: nat)
    requires Protocol(s) && Space(l, s.procs, s.lh)
    requires p < |s.procs| && (s.procs[p].Outside? || s.procs[p].Trying?)
    ensures var s' := DoBegin(s, p); Space(l, s'.procs, s'.lh)
  {
    SpareBound(l, s.procs, s.lh);
    var s' := DoBegin(s, p);
    var pc := s'.procs[p];
    assert s.outstanding == Actives(s.procs);
    hide Protocol, Space;
    assert WithinBounds(l, pc, s.lh);
    SpaceRoom(l, s.procs, s.lh);
    SpaceReplace(l, s.procs, s.lh, p, pc);
    assert s'.procs == s.procs[p := pc];
  }

  lemma SpaceRoom(l: Layout, procs: seq<Pc>, lh: seq<nat>)
    requires Space(l, procs, lh)
    ensures |lh| + Unspent(procs) <= LOGSIZE
  {
  }

  /** A step of one process that changes neither the header nor what it may still log. */
  lemma LocalSpace(l: Layout, s: State, p: nat, pc: Pc)
    requires Space(l, s.procs, s.lh) && p < |s.procs|
    requires s.procs[p].Active() == pc.Active()
    requires pc.Active() ==> pc.touched == s.procs[p].touched
    requires pc.HoldsBuffer() ==> l.IsHome(pc.held) && |pc.touched + {pc.held}| <= MAXOPBLOCKS
    ensures Space(l, s.procs[p := pc], s.lh)
  {
    assert WithinBounds(l, s.procs[p], s.lh);
    SpaceReplace(l, s.procs, s.lh, p, pc);
  }

  lemma RouseKeeps(l: Layout, s: State, p: nat)
    requires Inv(l, s) && Enabled(l, s, Rouse(p))
    ensures Inv(l, Do(l, s, Rouse(p)))
  {
    hide Protocol, Space, Pinned, Phases, Sane, HeadOk;
    var s' := Do(l, s, Rouse(p));
    LocalProtocol(s, s', p);
    LocalSpace(l, s, p, Trying);
    PinnedReplace(l, s, s', p);
    PhasesSame(l, s, s');
  }

  lemma HeldBounds(l: Layout, procs: seq<Pc>, lh: seq<nat>, p: nat)
    requires Space(l, procs, lh) && p < |procs| && procs[p].HoldsBuffer()
    ensures l.IsHome(procs[p].held) && |procs[p].touched + {procs[p].held}| <= MAXOPBLOCKS
  {
    assert WithinBounds(l, procs[p], lh);
  }

  lemma CheckKeeps(l: Layout, s: State, p: nat)
    requires Inv(l, s) && Enabled(l, s, Check(p))
    ensures Inv(l, Do(l, s, Check(p)))
  {
    hide Protocol, Space, Pinned, Phases, Sane, HeadOk;
    var s' := Do(l, s, Check(p));
    HeldBounds(l, s.procs, s.lh, p);
    LocalProtocol(s, s', p);
    LocalSpace(l, s, p, s'.procs[p]);
    PinnedReplace(l, s, s', p);
    PhasesSame(l, s, s');
  }

  lemma ModifyKeeps(l: Layout, s: State, p: nat, b: nat, data: Block)
    requires Inv(l, s) && Enabled(l, s, Modify(p, b, data))
    ensures Inv(l, Do(l, s, Modify(p, b, data)))
  {
    hide Protocol, Space, Pinned, Phases, Sane, HeadOk;
    var s' := Do(l, s, Modify(p, b, data));
    ActiveMeansNoCommit(s, p);
    LocalProtocol(s, s', p);
    LocalSpace(l, s, p, s'.procs[p]);
    PhasesSame(l, s, s');
    ModifyPinned(l, s, s', p, b);
  }

  lemma AppendPhases(l: Layout, s: State, s': State)
    requires Sane(l, s) && Phases(l, s) && s.mode.Running? && !s.committing
    requires s'.disk == s.disk && s'.mode == s.mode && s'.committing == s.committing
    requires forall q :: 0 <= q < |s'.procs| ==> !s'.procs[q].Committing?
    requires Space(l, s'.procs, s'.lh) && Entries(s'.lh) && |s'.lh| <= l.size
    ensures Sane(l, s') && Phases(l, s')
  {
  }

  lemma AppendFits(l: Layout, s: State, p: nat)
    requires Sane(l, s) && Enabled(l, s, Append(p))
    ensures var s' := DoAppend(s, p); Entries(s'.lh) && |s'.lh| <= l.size && |s'.lh| >= |s.lh|
  {
    hide HeadOk;
  }

  lemma AppendKeeps(l: Layout, s: State, p: nat)
    requires Inv(l, s) && Enabled(l, s, Append(p))
    ensures Inv(l, Do(l, s, Append(p)))
  {
    hide Protocol, Space, Pinned, Phases, Sane, HeadOk, Entries;
    var s' := DoAppend(s, p);
    AppendFits(l, s, p);
    ActiveMeansNoCommit(s, p);
    LocalProtocol(s, s', p);
    AppendSpace(l, s.procs, s.lh, p);
    AppendPinned(l, s, p);
    AppendPhases(l, s, s');
  }

  lemma EndPhases(l: Layout, s: State, p: nat)
    requires Sane(l, s) && Phases(l, s) && s.mode.Running? && !s.committing && s.outstanding >= 1
    requires p < |s.procs| && forall q :: 0 <= q < |s.procs| ==> !s.procs[q].Committing?
    requires AllPending(DoEnd(s, p), 0)
    ensures var s' := DoEnd(s, p); Sane(l, s') && Phases(l, s')
  {
  }

  lemma EndSpace(l: Layout, s: State, p: nat)
    requires Space(l, s.procs, s.lh) && p < |s.procs| && s.procs[p].InOp? && s.outstanding >= 1
    ensures var s' := DoEnd(s, p); Space(l, s'.procs, s'.lh)
  {
    hide Space;
    if s.outstanding == 1 {
      SpareBound(l, s.procs, s.lh);
      SpaceRoom(l, s.procs, s.lh);
      SpaceReplace(l, s.procs, s.lh, p, DoEnd(s, p).procs[p]);
    } else {
      SpaceLeave(l, s.procs, s.lh, p);
    }
  }

  lemma EndKeeps(l: Layout, s: State, p: nat)
    requires Inv(l, s) && Enabled(l, s, End(p))
    ensures Inv(l, Do(l, s, End(p)))
  {
    hide Protocol, Space, Pinned, Phases, Sane, HeadOk;
    ActiveMeansNoCommit(s, p);
    EndProtocol(s, p);
    EndSpace(l, s, p);
    EndPinned(l, s, p);
    EndPhases(l, s, p);
  }

  lemma LentKeeps(l: Layout, s: State, lent: set<nat>)
    requires Inv(l, s) && s.mode.Running? && forall b :: b in lent ==> l.IsHome(b)
    ensures Inv(l, s.(lent := lent))
  {
    var s' := s.(lent := lent);
    PhasesSame(l, s, s');
    LentPinned(l, s, lent);
    hide Space, Pinned, Phases, Sane, HeadOk;
  }

  lemma LentPinned(l: Layout, s: State, lent: set<nat>)
    requires Pinned(l, s) && s.mode.Running? && forall b :: b in lent ==> l.IsHome(b)
    ensures Pinned(l, s.(lent := lent))
  {
    assert !s.committing ==> AllPending(s, 0);
  }

  lemma CrashKeeps(l: Layout, s: State)
    requires Inv(l, s)
    ensures Inv(l, DoCrash(s))
  {
    NoActives(DoCrash(s).procs);
  }

  // ----- the steps of commit -----

  lemma OnlyCommitter(l: Layout, s: State, p: nat)
    requires Sane(l, s) && Protocol(s) && s.mode.Running?
    requires p < |s.procs| && s.procs[p].Committing? && PhaseOk(l, s, s.procs[p].phase)
    ensures Phases(l, s)
  {
    assert s.committing;
  }

  /** A step of the committer to phase `ph` keeps all that does not concern the phase. */
  lemma CommitStays(l: Layout, s: State, s': State, p: nat, ph: Phase)
    requires Inv(l, s) && p < |s.procs| && s.procs[p].Committing? && s'.procs == s.procs[p := Committing(ph)]
    requires s'.mode == s.mode && s'.outstanding == s.outstanding && s'.committing == s.committing
    requires s'.lent == s.lent && (s'.lh == s.lh || s'.lh == [])
    requires forall b :: b in s'.pending ==> b in s'.lh
    requires Sane(l, s') && PhaseOk(l, s', ph)
    ensures Inv(l, s')
  {
    hide Sane, HeadOk, Protocol, Space, Pinned, Phases, PhaseOk;
    CommitterAlone(l, s, p);
    PhaseProtocol(s, s', p, ph);
    SpareBound(l, s.procs, s.lh);
    SpaceRoom(l, s.procs, s.lh);
    SpaceReplace(l, s.procs, s.lh, p, Committing(ph));
    if s'.lh == [] {
      SpaceEmpty(l, s'.procs, s.lh);
    }
    QuietPinned(l, s');
    OnlyCommitter(l, s', p);
  }

  lemma PhaseHere(l: Layout, s: State, p: nat)
    requires Sane(l, s) && Phases(l, s) && p < |s.procs| && s.procs[p].Committing?
    ensures PhaseOk(l, s, s.procs[p].phase)
  {
  }

  /** Once the first block of the log is read for writing, the pinned blocks leave a buffer. */
  lemma LogFits(l: Layout, s: State, tail: nat)
    requires l.Wf() && Space(l, s.procs, s.lh) && AllPending(s, 0) && tail < |s.lh| <= l.size
    requires Cache.CanRead(Busy(s), [l.start + 1 + tail, s.lh[tail]]) && l.start + 1 + tail !in Busy(s)
    ensures |s.lh| < Cache.NBUF <= l.size
  {
    Pigeonhole(s.lh, Busy(s));
  }

  /** Nobody but the log code refers to the buffers of log blocks. */
  lemma LogAreaNotBusy(l: Layout, s: State, b: nat)
    requires Space(l, s.procs, s.lh) && !l.IsHome(b)
    requires forall c :: c in s.pending ==> c in s.lh
    requires forall c :: c in s.lent ==> l.IsHome(c)
    ensures b !in Busy(s)
  {
  }

  lemma WriteLogPhase(l: Layout, s: State, p: nat)
    requires Sane(l, s) && Space(l, s.procs, s.lh) && InPhase(s, p) && s.procs[p].phase.WritingLog?
    requires PhaseEnabled(l, s, s.procs[p].phase) && PhaseOk(l, s, s.procs[p].phase) && |s.lh| < Cache.NBUF
    ensures var s' := DoPhase(l, s, p);
            Sane(l, s') && SameRecovery(l, s.disk, s'.disk) && PhaseOk(l, s', s'.procs[p].phase)
  {
    var s' := DoPhase(l, s, p);
    var tail := s.procs[p].phase.tail;
    SlotWrite(l, s.disk, tail, View(s, s.lh[tail]));
    hide HeadOk, HeaderOf;
    forall i | 0 <= i < tail + 1 ensures s'.disk[l.start + 1 + i] == View(s', s.lh[i]) {
      assert l.IsHome(s.lh[i]);
      if i < tail {
        assert s.disk[l.start + 1 + i] == View(s, s.lh[i]);
      }
    }
    assert SlotsFilled(l, s', tail + 1);
  }

  lemma WriteLogKeeps(l: Layout, s: State, p: nat)
    requires Inv(l, s) && InPhase(s, p) && s.procs[p].phase.WritingLog? && PhaseEnabled(l, s, s.procs[p].phase)
    ensures var s' := DoPhase(l, s, p); Inv(l, s') && SameRecovery(l, s.disk, s'.disk)
    ensures |s.lh| < Cache.NBUF
  {
    var tail := s.procs[p].phase.tail;
    hide Protocol, Space, Pinned, Phases, HeadOk;
    var s' := DoPhase(l, s, p);
    PhaseHere(l, s, p);
    CommitterAlone(l, s, p);
    LogAreaNotBusy(l, s, l.start + 1 + tail);
    LogFits(l, s, tail);
    WriteLogPhase(l, s, p);
    CommitStays(l, s, s', p, s'.procs[p].phase);
  }

  lemma WriteHeadPhase(l: Layout, s: State, p: nat, s': State)
    requires Sane(l, s) && Space(l, s.procs, s.lh) && PhaseOk(l, s, WritingHead)
    requires forall b :: b in s.pending ==> b in s.lh
    requires s'.disk == s.disk[l.start := PutHeader(s.disk[l.start], s.lh)] && s'.lh == s.lh && s'.pending == s.pending
    ensures Sane(l, s') && PhaseOk(l, s', Installing(0))
  {
    HeadPut(l, s.disk, s.lh);
    assert s.lh[0..] == s.lh;
    hide PutHeader, HeadOk, HeaderOf;
  }

  lemma WriteHeadKeeps(l: Layout, s: State, p: nat)
    requires Inv(l, s) && Enabled(l, s, Publish(p))
    ensures Inv(l, Do(l, s, Publish(p)))
  {
    hide Protocol, Space, Pinned, Phases, HeadOk, PutHeader;
    var s' := DoPhase(l, s, p);
    CommitterAlone(l, s, p);
    PhaseHere(l, s, p);
    WriteHeadPhase(l, s, p, s');
    CommitStays(l, s, s', p, s'.procs[p].phase);
  }

  /** The header write is the point at which the whole group takes effect: from then
      on recovery yields, block by block, what the cache shows. */
  lemma GroupBecomesDurable(l: Layout, s: State, p: nat)
    requires Inv(l, s) && Enabled(l, s, Publish(p))
    ensures var s' := Do(l, s, Publish(p));
            Sane(l, s') && forall b: nat :: l.IsHome(b) ==> RecoveredAt(l, s'.disk, b) == View(s, b) == View(s', b)
  {
    hide Protocol, Pinned, Phases, PutHeader, HeadOk, RecoveredAt;
    PhaseHere(l, s, p);
    CommitterAlone(l, s, p);
    var s' := DoPhase(l, s, p);
    forall b: nat | l.IsHome(b) ensures HeadOk(l, s'.disk) && RecoveredAt(l, s'.disk, b) == View(s, b) {
      PublishedAt(l, s, s'.disk, b);
    }
    HeadPut(l, s.disk, s.lh);
  }

  lemma PublishedAt(l: Layout, s: State, d: seq<Block>, b: nat)
    requires Sane(l, s) && Space(l, s.procs, s.lh) && PhaseOk(l, s, WritingHead) && l.IsHome(b)
    requires forall c :: c in s.pending ==> c in s.lh
    requires d == s.disk[l.start := PutHeader(s.disk[l.start], s.lh)]
    ensures HeadOk(l, d) && RecoveredAt(l, d, b) == View(s, b)
  {
    hide PutHeader, HeadOk, HeaderOf, RecoveredAt;
    HeadPut(l, s.disk, s.lh);
    if b in s.lh {
      var i := IndexOf(s.lh, b);
      assert s.disk[l.start + 1 + i] == View(s, s.lh[i]);
    } else {
      NothingLogged(l, s.disk, b);
    }
  }

  lemma PendingShrinks(s: State, s': State, tail: nat)
    requires tail < |s.lh| && Distinct(s.lh) && s'.lh == s.lh && s'.pending == s.pending - {s.lh[tail]}
    requires AllPending(s, tail) && forall b :: b in s.pending ==> b in s.lh[tail..]
    ensures AllPending(s', tail + 1) && forall b :: b in s'.pending ==> b in s.lh && b in s.lh[tail + 1..]
    ensures tail + 1 == |s.lh| ==> s'.pending == map[]
  {
    forall b | b in s'.pending ensures b in s.lh[tail + 1..] && b in s.lh {
      var i :| 0 <= i < |s.lh[tail..]| && s.lh[tail..][i] == b;
      assert s.lh[tail + 1..][i - 1] == b;
    }
  }

  /** Where the next home block has been written, and what is then on disk. */
  lemma InstallDisk(l: Layout, s: State, disk: seq<Block>, tail: nat)
    requires Sane(l, s) && tail < |s.lh| && HeaderOf(l, s.disk) == s.lh && Copied(l, s.disk, s.lh, tail)
    requires disk == s.disk[s.lh[tail] := s.disk[l.start + 1 + tail]]
    ensures HeadOk(l, disk) && HeaderOf(l, disk) == s.lh && Copied(l, disk, s.lh, tail + 1)
    ensures SameRecovery(l, s.disk, disk)
  {
    HomeWrite(l, s.disk, tail);
    HomeWriteCopied(l, s.disk, tail);
  }

  lemma InstallPhase(l: Layout, s: State, s': State, tail: nat)
    requires Sane(l, s) && PhaseOk(l, s, Installing(tail)) && Distinct(s.lh)
    requires s'.disk == s.disk[s.lh[tail] := s.disk[l.start + 1 + tail]]
    requires s'.pending == s.pending - {s.lh[tail]} && s'.lh == s.lh
    ensures Sane(l, s') && SameRecovery(l, s.disk, s'.disk)
    ensures PhaseOk(l, s', if tail + 1 < |s.lh| then Installing(tail + 1) else ClearingHead)
    ensures forall b :: b in s'.pending ==> b in s'.lh
  {
    hide HeadOk, HeaderOf, RecoveredAt, Copied, SameRecovery, Distinct, AllPending, SlotsFilled, View;
    InstallDisk(l, s, s'.disk, tail);
    PendingShrinks(s, s', tail);
  }

  lemma InstallKeeps(l: Layout, s: State, p: nat)
    requires Inv(l, s) && InPhase(s, p) && s.procs[p].phase.Installing? && PhaseEnabled(l, s, s.procs[p].phase)
    ensures var s' := DoPhase(l, s, p); Inv(l, s') && SameRecovery(l, s.disk, s'.disk)
  {
    hide Inv, Cache.CanRead, SameRecovery, HeadOk, Entries;
    InvSane(l, s);
    InstallNext(l, s, DoPhase(l, s, p), p, s.procs[p].phase.tail);
  }

  lemma InvSane(l: Layout, s: State)
    requires Inv(l, s)
    ensures Sane(l, s)
  {
  }

  lemma InstallNext(l: Layout, s: State, s': State, p: nat, tail: nat)
    requires Inv(l, s) && p < |s.procs| && s.procs[p] == Committing(Installing(tail)) && tail < |s.lh|
    requires s' == s.(disk := s.disk[s.lh[tail] := s.disk[l.start + 1 + tail]], pending := s.pending - {s.lh[tail]},
                      procs := s'.procs)
    requires s'.procs == s.procs[p := Committing(if tail + 1 < |s.lh| then Installing(tail + 1) else ClearingHead)]
    ensures Inv(l, s') && SameRecovery(l, s.disk, s'.disk)
  {
    assert Distinct(s.lh);
    hide Sane, Protocol, Space, Pinned, Phases, HeadOk, PhaseOk, SameRecovery, Distinct;
    PhaseHere(l, s, p);
    InstallPhase(l, s, s', tail);
    CommitStays(l, s, s', p, if tail + 1 < |s.lh| then Installing(tail + 1) else ClearingHead);
  }

  lemma ClearKeeps(l: Layout, s: State, p: nat)
    requires Inv(l, s) && InPhase(s, p) && s.procs[p].phase.ClearingHead? && PhaseEnabled(l, s, s.procs[p].phase)
    ensures var s' := DoPhase(l, s, p); Inv(l, s') && SameRecovery(l, s.disk, s'.disk)
  {
    hide Protocol, Space, Pinned, Phases, HeadOk, PutHeader, PhaseOk, SameRecovery;
    var s' := DoPhase(l, s, p);
    PhaseHere(l, s, p);
    ClearPhase(l, s, s');
    CommitStays(l, s, s', p, Finishing);
  }

  lemma ClearPhase(l: Layout, s: State, s': State)
    requires Sane(l, s) && PhaseOk(l, s, ClearingHead)
    requires s'.disk == s.disk[l.start := PutHeader(s.disk[l.start], [])] && s'.lh == [] && s'.pending == s.pending
    ensures Sane(l, s') && SameRecovery(l, s.disk, s'.disk) && PhaseOk(l, s', Finishing) && s'.pending == map[]
  {
    HeadClear(l, s.disk);
  }

  lemma FinishPhases(l: Layout, s: State, s': State, p: nat)
    requires Sane(l, s) && PhaseOk(l, s, Finishing) && s'.disk == s.disk && s'.lh == s.lh
    requires s.mode.Running? && s'.mode == s.mode
    requires forall q :: 0 <= q < |s'.procs| ==> !s'.procs[q].Committing?
    ensures Sane(l, s') && Phases(l, s')
  {
  }

  lemma FinishKeeps(l: Layout, s: State, p: nat)
    requires Inv(l, s) && InPhase(s, p) && s.procs[p].phase.Finishing? && PhaseEnabled(l, s, s.procs[p].phase)
    ensures Inv(l, DoPhase(l, s, p))
  {
    hide Protocol, Space, Pinned, Phases, HeadOk;
    var s' := DoPhase(l, s, p);
    PhaseHere(l, s, p);
    CommitterAlone(l, s, p);
    FinishProtocol(s, s', p);
    SpaceLeave(l, s.procs, s.lh, p);
    QuietPinned(l, s');
    FinishPhases(l, s, s', p);
  }

  lemma CommitKeeps(l: Layout, s: State, p: nat)
    requires Inv(l, s) && Enabled(l, s, Commit(p))
    ensures Inv(l, Do(l, s, Commit(p)))
  {
    hide Sane, Protocol, Space, Pinned, Phases, PhaseEnabled, DoPhase;
    match s.procs[p].phase {
      case WritingLog(_) => WriteLogKeeps(l, s, p);
      case Installing(_) => InstallKeeps(l, s, p);
      case ClearingHead => ClearKeeps(l, s, p);
      case Finishing => FinishKeeps(l, s, p);
    }
  }

  // ----- the steps of recovery -----

  lemma BootPhase(l: Layout, s: State)
    requires Sane(l, s) && Phases(l, s) && Enabled(l, s, Recover) && !s.committing
    requires forall p :: 0 <= p < |s.procs| ==> !s.procs[p].Committing?
    ensures var s' := DoBoot(l, s); Sane(l, s') && Phases(l, s') && SameRecovery(l, s.disk, s'.disk)
  {
    if s.mode.boot.Replaying? {
      ReplayPhase(l, s);
    } else if s.mode.boot.Erasing? {
      HeadClear(l, s.disk);
    }
  }

  lemma ReplayPhase(l: Layout, s: State)
    requires Sane(l, s) && Phases(l, s) && Enabled(l, s, Recover) && s.mode.boot.Replaying?
    requires forall p :: 0 <= p < |s.procs| ==> !s.procs[p].Committing?
    ensures var s' := DoBoot(l, s); Sane(l, s') && Phases(l, s') && SameRecovery(l, s.disk, s'.disk)
  {
    hide HeadOk, HeaderOf, RecoveredAt, Copied, SameRecovery, Cache.CanRead;
    InstallDisk(l, s, DoBoot(l, s).disk, s.mode.boot.tail);
  }

  lemma BootSpace(l: Layout, s: State, s': State)
    requires Sane(l, s') && Space(l, s.procs, s.lh) && s'.procs == s.procs
    requires forall p :: 0 <= p < |s.procs| ==> s.procs[p].Outside?
    requires s'.lh == s.lh || s'.lh == [] || s'.lh == HeaderOf(l, s'.disk)
    ensures Space(l, s'.procs, s'.lh)
  {
    NoActives(s.procs);
  }

  lemma BootPinned(l: Layout, s: State, s': State)
    requires Pinned(l, s) && s.mode.Booting? && s'.pending == s.pending && s'.lent == s.lent && s'.procs == s.procs
    requires s'.mode.Running? ==> s'.lh == []
    requires forall p :: 0 <= p < |s.procs| ==> s.procs[p].Outside?
    ensures Pinned(l, s')
  {
  }

  lemma RecoverKeeps(l: Layout, s: State)
    requires Inv(l, s) && Enabled(l, s, Recover)
    ensures var s' := Do(l, s, Recover); Inv(l, s') && SameRecovery(l, s.disk, s'.disk)
  {
    assert !s.committing && forall p :: 0 <= p < |s.procs| ==> s.procs[p].Outside?;
    hide Protocol, Space, Pinned, Phases, HeadOk;
    var s' := DoBoot(l, s);
    BootPhase(l, s);
    BootProtocol(s, s');
    BootSpace(l, s, s');
    BootPinned(l, s, s');
  }

  // ----- whole runs -----

  lemma StepKeeps(l: Layout, s: State, step: Step)
    requires Inv(l, s) && Enabled(l, s, step)
    ensures Inv(l, Do(l, s, step))
  {
    match step {
      case Begin(p) => BeginKeeps(l, s, p);
      case Rouse(p) => RouseKeeps(l, s, p);
      case Modify(p, b, data) => ModifyKeeps(l, s, p, b, data);
      case Check(p) => CheckKeeps(l, s, p);
      case Append(p) => AppendKeeps(l, s, p);
      case End(p) => EndKeeps(l, s, p);
      case Commit(p) => CommitKeeps(l, s, p);
      case Publish(p) => WriteHeadKeeps(l, s, p);
      case Take(b) => LentKeeps(l, s, s.lent + {b});
      case Give(b) => LentKeeps(l, s, s.lent - {b});
      case Crash => CrashKeeps(l, s);
      case Recover => RecoverKeeps(l, s);
    }
  }

  /** Each step is enabled where it is taken. */
  ghost predicate Legal(l: Layout, s: State, steps: seq<Step>)
    decreases |steps|
  {
    steps == [] ||
    (Sane(l, s) && Enabled(l, s, steps[0]) && Legal(l, Do(l, s, steps[0]), steps[1..]))
  }

  ghost function Exec(l: Layout, s: State, steps: seq<Step>): (s': State)
    requires Legal(l, s, steps)
    decreases |steps|
  {
    if steps == [] then s else Exec(l, Do(l, s, steps[0]), steps[1..])
  }

  /** Power-on with n processes: any disk whose log, if any, is well formed. */
  predicate PowerOn(l: Layout, s: State) {
    && HeadOk(l, s.disk)
    && s.mode == Booting(ReadingHead) && s.pending == map[] && s.lent == {} && s.lh == []
    && s.outstanding == 0 && !s.committing
    && forall p :: 0 <= p < |s.procs| ==> s.procs[p].Outside?
  }

  lemma PowerOnInv(l: Layout, s: State)
    requires PowerOn(l, s)
    ensures Inv(l, s)
  {
    NoActives(s.procs);
  }

  lemma {:induction false} RunKeeps(l: Layout, s: State, steps: seq<Step>)
    requires Inv(l, s) && Legal(l, s, steps)
    ensures Inv(l, Exec(l, s, steps))
    decreases |steps|
  {
    hide Inv;
    if steps != [] {
      StepKeeps(l, s, steps[0]);
      RunKeeps(l, Do(l, s, steps[0]), steps[1..]);
    }
  }

  /** One step more at the end of a run. */
  lemma {:induction false} OneMore(l: Layout, s: State, steps: seq<Step>, x: Step)
    requires Legal(l, s, steps) && Sane(l, Exec(l, s, steps)) && Enabled(l, Exec(l, s, steps), x)
    ensures Legal(l, s, steps + [x]) && Exec(l, s, steps + [x]) == Do(l, Exec(l, s, steps), x)
    decreases |steps|
  {
    if steps == [] {
      assert (steps + [x])[1..] == [];
    } else {
      assert (steps + [x])[1..] == steps[1..] + [x];
      OneMore(l, Do(l, s, steps[0]), steps[1..], x);
    }
  }

  /** The group-commit protocol in every interleaving: a commit runs with no
      operation open; an idle log is empty; end_op never meets a commit; and a
      process asleep on the log is owed a wakeup by a commit or an open operation. */
  lemma GroupCommit(l: Layout, s0: State, steps: seq<Step>)
    requires PowerOn(l, s0) && Legal(l, s0, steps)
    ensures var s := Exec(l, s0, steps);
            (s.committing ==> s.outstanding == 0)
            && (s.mode.Running? && !s.committing && s.outstanding == 0 ==> s.lh == [])
            && (forall p :: 0 <= p < |s.procs| && s.procs[p].InOp? ==> s.outstanding >= 1 && !s.committing)
            && (forall p :: 0 <= p < |s.procs| && s.procs[p].Asleep? ==>
                  s.committing || (s.outstanding > 0 && |s.lh| + MAXOPBLOCKS * (Actives(s.procs) + 1) > LOGSIZE))
  {
    PowerOnInv(l, s0);
    RunKeeps(l, s0, steps);
    NoActives(Exec(l, s0, steps).procs);
  }

  /** begin_op lets a process in exactly if no commit runs and the log has room for what is
      logged and MAXOPBLOCKS for every open operation and the new one; otherwise it sleeps. */
  lemma BeginDecides(l: Layout, s0: State, steps: seq<Step>, p: nat)
    requires PowerOn(l, s0) && Legal(l, s0, steps) && Sane(l, Exec(l, s0, steps))
    requires Enabled(l, Exec(l, s0, steps), Begin(p))
    ensures var s := Exec(l, s0, steps); var t := Do(l, s, Begin(p));
            var room := !s.committing && |s.lh| + MAXOPBLOCKS * (Actives(s.procs) + 1) <= LOGSIZE;
            && (t.procs[p] == InOp({}) <==> room) && (t.procs[p] == Asleep <==> !room)
            && t.outstanding == Actives(s.procs) + (if room then 1 else 0)
            && t == s.(procs := t.procs, outstanding := t.outstanding)
            && forall q :: 0 <= q < |s.procs| && q != p ==> t.procs[q] == s.procs[q]
  {
    PowerOnInv(l, s0);
    RunKeeps(l, s0, steps);
  }

  /** end_op starts a commit exactly if its operation was the only one open; otherwise it
      leaves nobody asleep on the log. */
  lemma EndDecides(l: Layout, s0: State, steps: seq<Step>, p: nat)
    requires PowerOn(l, s0) && Legal(l, s0, steps) && Sane(l, Exec(l, s0, steps))
    requires Enabled(l, Exec(l, s0, steps), End(p))
    ensures var s := Exec(l, s0, steps); var t := Do(l, s, End(p));
            var last := forall q :: 0 <= q < |s.procs| && q != p ==> !s.procs[q].Active();
            && |t.procs| == |s.procs| && t.lh == s.lh && t.disk == s.disk && t.pending == s.pending
            && (t.procs[p].Committing? <==> last) && (t.procs[p] == Outside <==> !last) && t.committing == last
            && (last ==> forall q :: 0 <= q < |s.procs| && q != p ==> t.procs[q] == s.procs[q])
            && (!last ==> forall q :: 0 <= q < |s.procs| ==> !t.procs[q].Asleep?)
  {
    hide Pinned, Phases, Space, HeadOk;
    PowerOnInv(l, s0);
    RunKeeps(l, s0, steps);
    OnlyActive(Exec(l, s0, steps).procs, p);
  }

  lemma OnlyActive(procs: seq<Pc>, p: nat)
    requires p < |procs| && procs[p].Active()
    ensures Actives(procs) == 1 <==> forall q :: 0 <= q < |procs| && q != p ==> !procs[q].Active()
  {
    var others := procs[p := Outside];
    Replace(procs, p, Outside);
    NoActives(others);
    assert forall q :: 0 <= q < |procs| && q != p ==> others[q] == procs[q];
  }

  /** Reservations: logged blocks plus unspent reservations fit the header in every
      interleaving, so no append runs past lh.block. */
  lemma ReservationBound(l: Layout, s0: State, steps: seq<Step>)
    requires PowerOn(l, s0) && Legal(l, s0, steps)
    ensures var s := Exec(l, s0, steps);
            |s.lh| + Unspent(s.procs) <= LOGSIZE
            && (forall p :: 0 <= p < |s.procs| && s.procs[p].HoldsBuffer() ==>
                  |Absorb(s.lh, s.procs[p].held)| <= LOGSIZE)
  {
    PowerOnInv(l, s0);
    RunKeeps(l, s0, steps);
    var s := Exec(l, s0, steps);
    forall p | 0 <= p < |s.procs| && s.procs[p].HoldsBuffer()
      ensures |Absorb(s.lh, s.procs[p].held)| <= LOGSIZE
    {
      AppendNeverOverruns(l, s.procs, s.lh, p);
    }
  }
}
