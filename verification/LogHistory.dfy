/** What the log promises about the data that operations write: crash atomicity and
    durability over whole runs, stated over the list of steps. */
module LogHistory {
  import opened Blocks
  import opened LogFormat
  import opened LogMachine
  import Cache

  /** The blocks as the operations see them, and as they were at the last commit. */
  datatype Picture = Picture(seen: seq<Block>, saved: seq<Block>)

  /** A write is seen at once, a commit saves what is seen, a crash brings back what was saved. */
  function Next(pic: Picture, step: Step): (r: Picture) {
    match step
    case Modify(_, b, data) => if b < |pic.seen| then pic.(seen := pic.seen[b := data]) else pic
    case Publish(_) => pic.(saved := pic.seen)
    case Crash => pic.(seen := pic.saved)
    case _ => pic
  }

  function After(pic: Picture, steps: seq<Step>): (r: Picture)
    decreases |steps|
  {
    if steps == [] then pic else After(Next(pic, steps[0]), steps[1..])
  }

  /** At power-on: what the disk recovers to. */
  function RecoveredDisk(l: Layout, disk: seq<Block>): (r: seq<Block>)
    requires HeadOk(l, disk)
    ensures |r| == |disk|
  {
    seq(|disk|, (b: nat) requires b < |disk| => if l.IsHome(b) then RecoveredAt(l, disk, b) else disk[b])
  }

  function Start(l: Layout, disk: seq<Block>): (r: Picture)
    requires HeadOk(l, disk)
  {
    Picture(RecoveredDisk(l, disk), RecoveredDisk(l, disk))
  }

  ghost predicate SameHome(l: Layout, a: seq<Block>, b: seq<Block>) {
    |a| == |b| == l.nblocks && forall x: nat :: l.IsHome(x) ==> a[x] == b[x]
  }

  /** The disk recovers to `saved`. */
  ghost predicate Keeps(l: Layout, disk: seq<Block>, saved: seq<Block>)
    requires HeadOk(l, disk)
  {
    |saved| == l.nblocks && forall b: nat :: l.IsHome(b) ==> RecoveredAt(l, disk, b) == saved[b]
  }

  /** A reader of home blocks sees `seen`. */
  ghost predicate Reads(l: Layout, s: State, seen: seq<Block>)
    requires Sane(l, s)
  {
    |seen| == l.nblocks && forall b: nat :: l.IsHome(b) ==> View(s, b) == seen[b]
  }

  predicate Committed(pc: Pc) {
    pc.Committing? && (pc.phase.Installing? || pc.phase.ClearingHead? || pc.phase.Finishing?)
  }

  /** How the machine's state relates to the picture that its steps have painted. */
  ghost predicate Shows(l: Layout, s: State, pic: Picture)
    requires Sane(l, s)
  {
    && Keeps(l, s.disk, pic.saved)
    && |pic.seen| == l.nblocks
    && (s.mode.Running? ==> Reads(l, s, pic.seen))
    && (s.mode.Booting? ==> SameHome(l, pic.seen, pic.saved))
    && (forall p :: 0 <= p < |s.procs| && Committed(s.procs[p]) ==> SameHome(l, pic.seen, pic.saved))
  }

  // ----- each step paints what the machine does -----

  lemma SameKeeps(l: Layout, d: seq<Block>, d': seq<Block>, saved: seq<Block>)
    requires HeadOk(l, d) && HeadOk(l, d') && SameRecovery(l, d, d') && Keeps(l, d, saved)
    ensures Keeps(l, d', saved)
  {
    forall b: nat | l.IsHome(b) ensures RecoveredAt(l, d', b) == saved[b] {
      assert RecoveredAt(l, d', b) == RecoveredAt(l, d, b);
    }
  }

  /** Steps that change neither disk nor pending blocks. */
  lemma QuietShows(l: Layout, s: State, s': State, pic: Picture)
    requires Sane(l, s) && Sane(l, s') && Shows(l, s, pic)
    requires s'.disk == s.disk && s'.pending == s.pending && s'.mode == s.mode
    requires forall p :: 0 <= p < |s'.procs| && Committed(s'.procs[p]) ==> SameHome(l, pic.seen, pic.saved)
    ensures Shows(l, s', pic)
  {
  }

  lemma ModifyShows(l: Layout, s: State, pic: Picture, p: nat, b: nat, data: Block)
    requires Inv(l, s) && Enabled(l, s, Modify(p, b, data)) && Shows(l, s, pic)
    ensures var step := Modify(p, b, data); var s' := Do(l, s, step);
            Sane(l, s') && Shows(l, s', Next(pic, step))
  {
    hide Space, Pinned, Phases, HeadOk, RecoveredAt;
    ActiveMeansNoCommit(s, p);
  }

  /** While no block is logged and none is pending, what is seen is what is saved. */
  lemma IdleSame(l: Layout, s: State, pic: Picture)
    requires Sane(l, s) && Shows(l, s, pic) && s.mode.Running? && HeaderOf(l, s.disk) == [] && s.pending == map[]
    ensures SameHome(l, pic.seen, pic.saved)
  {
    hide HeadOk, HeaderOf, RecoveredAt;
    forall b: nat | l.IsHome(b) ensures pic.seen[b] == pic.saved[b] {
      NothingLogged(l, s.disk, b);
      assert View(s, b) == s.disk[b];
    }
  }

  lemma EndShows(l: Layout, s: State, pic: Picture, p: nat)
    requires Inv(l, s) && Enabled(l, s, End(p)) && Shows(l, s, pic)
    ensures var s' := Do(l, s, End(p)); Sane(l, s') && Shows(l, s', pic)
  {
    hide Space, Pinned, HeadOk, RecoveredAt, Keeps, Reads, SameHome;
    var s' := DoEnd(s, p);
    ActiveMeansNoCommit(s, p);
    EndKeeps(l, s, p);
    if s.outstanding == 1 && s.lh == [] {
      CommitterAlone(l, s', p);
      assert s.pending == map[] by {
        assert forall b :: b in s'.pending ==> b in s'.lh;
      }
      IdleSame(l, s, pic);
    }
    QuietShows(l, s, s', pic);
  }

  /** A write to the disk that changes neither what recovery yields nor what readers see. */
  lemma DiskShows(l: Layout, s: State, s': State, pic: Picture)
    requires Sane(l, s) && Sane(l, s') && Shows(l, s, pic) && SameRecovery(l, s.disk, s'.disk)
    requires s'.mode.Running? && Reads(l, s', pic.seen)
    requires forall p :: 0 <= p < |s'.procs| && Committed(s'.procs[p]) ==> SameHome(l, pic.seen, pic.saved)
    ensures Shows(l, s', pic)
  {
    hide HeadOk, RecoveredAt, SameRecovery, Keeps, Reads, SameHome;
    SameKeeps(l, s.disk, s'.disk, pic.saved);
  }

  /** Writing to the log area is not seen by readers of home blocks. */
  lemma LogAreaReads(l: Layout, s: State, s': State, x: nat, data: Block, seen: seq<Block>)
    requires Sane(l, s) && Sane(l, s') && Reads(l, s, seen) && x < l.nblocks && !l.IsHome(x)
    requires s'.disk == s.disk[x := data] && s'.pending == s.pending
    ensures Reads(l, s', seen)
  {
    hide HeadOk;
    forall b: nat | l.IsHome(b) ensures View(s', b) == seen[b] {
      assert View(s, b) == seen[b];
    }
  }

  lemma SlotShows(l: Layout, s: State, pic: Picture, p: nat)
    requires Inv(l, s) && Shows(l, s, pic)
    requires InPhase(s, p) && s.procs[p].phase.WritingLog? && PhaseEnabled(l, s, s.procs[p].phase)
    ensures var s' := DoPhase(l, s, p); Sane(l, s') && Shows(l, s', pic)
  {
    hide Protocol, Space, Pinned, Phases, HeadOk, RecoveredAt, Keeps, Reads, SameRecovery, SameHome, Cache.CanRead;
    WriteLogKeeps(l, s, p);
    CommitterAlone(l, s, p);
    var s' := DoPhase(l, s, p);
    var tail := s.procs[p].phase.tail;
    LogAreaReads(l, s, s', l.start + 1 + tail, View(s, s.lh[tail]), pic.seen);
    DiskShows(l, s, s', pic);
  }

  lemma PublishShows(l: Layout, s: State, pic: Picture, p: nat)
    requires Inv(l, s) && Shows(l, s, pic) && Enabled(l, s, Publish(p))
    ensures var s' := Do(l, s, Publish(p)); Sane(l, s') && Shows(l, s', Next(pic, Publish(p)))
  {
    hide Protocol, Space, Pinned, Phases, HeadOk, RecoveredAt, PutHeader, Cache.CanRead;
    GroupBecomesDurable(l, s, p);
  }

  lemma InstallShows(l: Layout, s: State, pic: Picture, p: nat)
    requires Inv(l, s) && Shows(l, s, pic)
    requires InPhase(s, p) && s.procs[p].phase.Installing? && PhaseEnabled(l, s, s.procs[p].phase)
    ensures var s' := DoPhase(l, s, p); Sane(l, s') && Shows(l, s', pic)
  {
    hide Protocol, Pinned, Space, Phases, HeadOk, HeaderOf;
    hide RecoveredAt, SameRecovery, Cache.CanRead, Reads, Keeps, SameHome;
    InstallKeeps(l, s, p);
    PhaseHere(l, s, p);
    assert Committed(s.procs[p]);
    var s' := DoPhase(l, s, p);
    InstallSeen(l, s, s', pic, s.procs[p].phase.tail);
    DiskShows(l, s, s', pic);
  }

  lemma InstallSeen(l: Layout, s: State, s': State, pic: Picture, tail: nat)
    requires Sane(l, s) && Sane(l, s') && Reads(l, s, pic.seen) && Keeps(l, s.disk, pic.saved)
    requires SameHome(l, pic.seen, pic.saved) && HeaderOf(l, s.disk) == s.lh && tail < |s.lh|
    requires s'.disk == s.disk[s.lh[tail] := s.disk[l.start + 1 + tail]] && s'.pending == s.pending - {s.lh[tail]}
    ensures Reads(l, s', pic.seen)
  {
    hide HeadOk, HeaderOf, RecoveredAt;
    SlotIsRecovered(l, s.disk, tail);
    forall b: nat | l.IsHome(b) ensures View(s', b) == pic.seen[b] {
      assert View(s, b) == pic.seen[b];
    }
  }

  lemma SlotIsRecovered(l: Layout, disk: seq<Block>, tail: nat)
    requires HeadOk(l, disk) && tail < |HeaderOf(l, disk)|
    ensures var lh := HeaderOf(l, disk);
            l.IsHome(lh[tail]) && RecoveredAt(l, disk, lh[tail]) == disk[l.start + 1 + tail]
  {
    IndexOfAt(HeaderOf(l, disk), tail);
  }

  lemma ClearShows(l: Layout, s: State, pic: Picture, p: nat)
    requires Inv(l, s) && Shows(l, s, pic)
    requires InPhase(s, p) && s.procs[p].phase.ClearingHead? && PhaseEnabled(l, s, s.procs[p].phase)
    ensures var s' := DoPhase(l, s, p); Sane(l, s') && Shows(l, s', pic)
  {
    hide Protocol, Space, Pinned, Phases, HeadOk, RecoveredAt;
    hide SameRecovery, Keeps, Reads, SameHome, PutHeader, Cache.CanRead;
    ClearKeeps(l, s, p);
    var s' := DoPhase(l, s, p);
    assert Committed(s.procs[p]);
    LogAreaReads(l, s, s', l.start, PutHeader(s.disk[l.start], []), pic.seen);
    DiskShows(l, s, s', pic);
  }

  lemma FinishShows(l: Layout, s: State, pic: Picture, p: nat)
    requires Inv(l, s) && Shows(l, s, pic)
    requires InPhase(s, p) && s.procs[p].phase.Finishing? && PhaseEnabled(l, s, s.procs[p].phase)
    ensures var s' := DoPhase(l, s, p); Sane(l, s') && Shows(l, s', pic)
  {
    hide Protocol, Space, Pinned, Phases, HeadOk, RecoveredAt, Keeps, Reads, SameHome, Cache.CanRead;
    FinishKeeps(l, s, p);
    assert Committed(s.procs[p]);
    QuietShows(l, s, DoPhase(l, s, p), pic);
  }

  lemma CommitShows(l: Layout, s: State, pic: Picture, p: nat)
    requires Inv(l, s) && Shows(l, s, pic) && Enabled(l, s, Commit(p))
    ensures var s' := Do(l, s, Commit(p)); Sane(l, s') && Shows(l, s', pic)
  {
    hide Sane, Protocol, Space, Pinned, Phases, PhaseEnabled, DoPhase, Shows;
    match s.procs[p].phase {
      case WritingLog(_) => SlotShows(l, s, pic, p);
      case Installing(_) => InstallShows(l, s, pic, p);
      case ClearingHead => ClearShows(l, s, pic, p);
      case Finishing => FinishShows(l, s, pic, p);
    }
  }

  lemma CrashShows(l: Layout, s: State, pic: Picture)
    requires Inv(l, s) && Shows(l, s, pic)
    ensures Sane(l, DoCrash(s)) && Shows(l, DoCrash(s), Next(pic, Crash))
  {
    hide Protocol, Space, Pinned, Phases, HeadOk, RecoveredAt;
  }

  lemma RecoverShows(l: Layout, s: State, pic: Picture)
    requires Inv(l, s) && Enabled(l, s, Recover) && Shows(l, s, pic)
    ensures var s' := Do(l, s, Recover); Sane(l, s') && Shows(l, s', pic)
  {
    RecoverKeeps(l, s);
    assert forall p :: 0 <= p < |s.procs| ==> s.procs[p].Outside?;
    assert s.pending == map[];
    hide Protocol, Space, Pinned, HeadOk, RecoveredAt, SameRecovery, Cache.CanRead;
    var s' := DoBoot(l, s);
    SameKeeps(l, s.disk, s'.disk, pic.saved);
    if s'.mode.Running? {
      forall b: nat | l.IsHome(b) ensures View(s', b) == pic.seen[b] {
        NothingLogged(l, s'.disk, b);
      }
    }
  }

  lemma StepShows(l: Layout, s: State, pic: Picture, step: Step)
    requires Inv(l, s) && Shows(l, s, pic) && Enabled(l, s, step)
    ensures var s' := Do(l, s, step); Sane(l, s') && Shows(l, s', Next(pic, step))
  {
    hide Sane, Protocol, Space, Pinned, Phases, DoPhase, DoBoot, DoEnd, DoCrash, PhaseEnabled, Cache.CanRead, Shows;
    match step {
      case Modify(p, b, data) => ModifyShows(l, s, pic, p, b, data);
      case End(p) => EndShows(l, s, pic, p);
      case Commit(p) => CommitShows(l, s, pic, p);
      case Publish(p) => PublishShows(l, s, pic, p);
      case Crash => CrashShows(l, s, pic);
      case Recover => RecoverShows(l, s, pic);
      case _ => OtherShows(l, s, pic, step);
    }
  }

  lemma OtherShows(l: Layout, s: State, pic: Picture, step: Step)
    requires Inv(l, s) && Shows(l, s, pic) && Enabled(l, s, step)
    requires step.Begin? || step.Rouse? || step.Check? || step.Append? || step.Take? || step.Give?
    ensures var s' := Do(l, s, step); Sane(l, s') && Shows(l, s', pic)
  {
    hide Protocol, Space, Pinned, Phases, HeadOk, DoPhase, DoBoot, DoEnd, DoCrash, PhaseEnabled, Cache.CanRead;
    hide Keeps, Reads, SameHome;
    StepKeeps(l, s, step);
    var s' := Do(l, s, step);
    assert forall p :: 0 <= p < |s'.procs| && Committed(s'.procs[p]) ==> s'.procs[p] == s.procs[p];
    QuietShows(l, s, s', pic);
  }

  // ----- whole runs -----

  lemma {:induction false} RunShows(l: Layout, s: State, pic: Picture, steps: seq<Step>)
    requires Inv(l, s) && Shows(l, s, pic) && Legal(l, s, steps)
    ensures var s' := Exec(l, s, steps); Inv(l, s') && Shows(l, s', After(pic, steps))
    decreases |steps|
  {
    hide Protocol, Space, Pinned, Phases, Sane, Shows, Enabled, Do, Next;
    if steps != [] {
      StepKeeps(l, s, steps[0]);
      StepShows(l, s, pic, steps[0]);
      RunShows(l, Do(l, s, steps[0]), Next(pic, steps[0]), steps[1..]);
    }
  }

  lemma StartShows(l: Layout, s: State)
    requires PowerOn(l, s)
    ensures Inv(l, s) && Shows(l, s, Start(l, s.disk))
  {
    PowerOnInv(l, s);
  }

  /** Taking a run in two parts. */
  lemma {:induction false} Split(l: Layout, s: State, pic: Picture, steps: seq<Step>, k: nat)
    requires Legal(l, s, steps) && k <= |steps|
    ensures Legal(l, s, steps[..k]) && Legal(l, Exec(l, s, steps[..k]), steps[k..])
    ensures Exec(l, s, steps) == Exec(l, Exec(l, s, steps[..k]), steps[k..])
    ensures After(pic, steps) == After(After(pic, steps[..k]), steps[k..])
    decreases k
  {
    hide Sane, Enabled, Do, Next;
    if k == 0 {
      assert steps[..0] == [] && steps[0..] == steps;
    } else {
      assert steps[..k][0] == steps[0] && steps[..k][1..] == steps[1..][..k - 1] && steps[1..][k - 1..] == steps[k..];
      Split(l, Do(l, s, steps[0]), Next(pic, steps[0]), steps[1..], k - 1);
    }
  }

  /** After the first k steps no operation is open, and the picture then seen is `saved`. */
  ghost predicate Moment(l: Layout, s0: State, steps: seq<Step>, k: nat, saved: seq<Block>) {
    && HeadOk(l, s0.disk) && k <= |steps| && Legal(l, s0, steps[..k])
    && Exec(l, s0, steps[..k]).outstanding == 0
    && After(Start(l, s0.disk), steps[..k]).seen == saved
  }

  lemma {:induction false} SavedAtSomeMoment(l: Layout, s0: State, steps: seq<Step>) returns (k: nat)
    requires PowerOn(l, s0) && Legal(l, s0, steps)
    ensures Moment(l, s0, steps, k, After(Start(l, s0.disk), steps).saved)
    decreases |steps|
  {
    hide Legal, Exec, After, Start;
    var n := |steps|;
    if n == 0 {
      assert steps[..0] == [];
      StartMoment(l, s0);
      k := 0;
    } else {
      var was, x := steps[..n - 1], steps[n - 1];
      Split(l, s0, Start(l, s0.disk), steps, n - 1);
      assert steps[n - 1..] == [x] && steps[..n] == steps;
      SavedByLast(l, s0, was, x);
      if x.Publish? {
        k := n;
      } else {
        k := SavedAtSomeMoment(l, s0, was);
        assert was[..k] == steps[..k];
      }
    }
  }

  lemma StartMoment(l: Layout, s0: State)
    requires PowerOn(l, s0)
    ensures Moment(l, s0, [], 0, After(Start(l, s0.disk), []).saved)
  {
    var none: seq<Step> := [];
    assert none[..0] == none;
  }

  /** Only a commit changes what is saved, and then no operation is open. */
  lemma SavedByLast(l: Layout, s0: State, was: seq<Step>, x: Step)
    requires PowerOn(l, s0) && Legal(l, s0, was) && Legal(l, Exec(l, s0, was), [x])
    ensures var pic := After(Start(l, s0.disk), was);
            var pic' := After(pic, [x]);
            if x.Publish? then pic'.saved == pic'.seen && Exec(l, Exec(l, s0, was), [x]).outstanding == 0
            else pic'.saved == pic.saved
  {
    var s := Exec(l, s0, was);
    assert [x][1..] == [];
    if x.Publish? {
      PowerOnInv(l, s0);
      RunKeeps(l, s0, was);
      CommitterAlone(l, s, x.p);
    }
  }

  /** Crash atomicity over whole runs. After any run from power-on, with crashes anywhere
      and inside recovery too, readers see exactly the writes made since the last crash on
      top of what was saved, and the disk recovers to what operations saw at one moment of
      the run at which none of them was open. With nothing open that moment is now. */
  lemma CrashAtomicity(l: Layout, s0: State, steps: seq<Step>)
    requires PowerOn(l, s0) && Legal(l, s0, steps)
    ensures var s := Exec(l, s0, steps);
            var pic := After(Start(l, s0.disk), steps);
            && Sane(l, s) && Keeps(l, s.disk, pic.saved)
            && (s.mode.Running? ==> Reads(l, s, pic.seen))
            && (exists k :: Moment(l, s0, steps, k, pic.saved))
            && (s.mode.Running? && s.outstanding == 0 && !s.committing ==> SameHome(l, pic.seen, pic.saved))
  {
    var start := Start(l, s0.disk);
    StartShows(l, s0);
    RunShows(l, s0, start, steps);
    var k := SavedAtSomeMoment(l, s0, steps);
    var s := Exec(l, s0, steps);
    if s.mode.Running? && s.outstanding == 0 && !s.committing {
      NothingPending(l, s);
      IdleSame(l, s, After(start, steps));
    }
  }

  lemma NothingPending(l: Layout, s: State)
    requires Inv(l, s) && s.mode.Running? && !s.committing && s.outstanding == 0
    ensures s.lh == [] && s.pending == map[] && HeaderOf(l, s.disk) == []
  {
    hide Space, HeadOk;
    NoActives(s.procs);
    NobodyHolds(l, s);
  }

  /** With no operation open and no commit under way, every process reads from the
      cache what lies on the disk and is what recovery would yield; the log is empty. */
  lemma QuiescentView(l: Layout, s: State)
    requires Inv(l, s) && s.mode.Running? && !s.committing && s.outstanding == 0
    ensures s.lh == [] && s.pending == map[] && HeaderOf(l, s.disk) == []
    ensures forall b: nat :: l.IsHome(b) ==> View(s, b) == s.disk[b] == RecoveredAt(l, s.disk, b)
  {
    NothingPending(l, s);
    hide Protocol, Space, Pinned, Phases, HeadOk, RecoveredAt, HeaderOf;
    forall b: nat | l.IsHome(b) ensures s.disk[b] == RecoveredAt(l, s.disk, b) {
      NothingLogged(l, s.disk, b);
    }
  }

  predicate Untouched(steps: seq<Step>, b: nat) {
    forall i :: 0 <= i < |steps| ==> steps[i].Modify? ==> steps[i].b != b
  }

  lemma {:induction false} StaysSaved(pic: Picture, steps: seq<Step>, b: nat)
    requires b < |pic.seen| == |pic.saved| && pic.seen[b] == pic.saved[b] && Untouched(steps, b)
    ensures var r := After(pic, steps);
            |r.seen| == |r.saved| == |pic.saved| && r.seen[b] == r.saved[b] == pic.saved[b]
    decreases |steps|
  {
    if steps != [] {
      StaysSaved(Next(pic, steps[0]), steps[1..], b);
    }
  }

  /** Durability. Once commits have returned and nothing is open, whatever a process reads
      is kept: after any further run, crashes included, that does not write the block again,
      the disk recovers to it and readers still see it. */
  lemma CommittedStays(l: Layout, s0: State, steps: seq<Step>, more: seq<Step>, b: nat)
    requires PowerOn(l, s0) && Legal(l, s0, steps) && Legal(l, Exec(l, s0, steps), more)
    requires var s := Exec(l, s0, steps); s.mode.Running? && s.outstanding == 0 && !s.committing
    requires l.IsHome(b) && Untouched(more, b)
    ensures var s := Exec(l, s0, steps);
            var t := Exec(l, s, more);
            && Sane(l, s) && Sane(l, t) && RecoveredAt(l, t.disk, b) == View(s, b)
            && (t.mode.Running? ==> View(t, b) == View(s, b))
  {
    var start := Start(l, s0.disk);
    var s := Exec(l, s0, steps);
    StartShows(l, s0);
    RunShows(l, s0, start, steps);
    RunShows(l, s, After(start, steps), more);
    CrashAtomicity(l, s0, steps);
    hide Inv, HeadOk, RecoveredAt, Moment;
    StaysSaved(After(start, steps), more, b);
  }

  // ----- recovery comes to an end -----

  function Recoveries(n: nat): (steps: seq<Step>) {
    if n == 0 then [] else [Recover] + Recoveries(n - 1)
  }

  /** The block writes, plus one header read, that recovery still needs. */
  function StepsLeft(l: Layout, s: State): (n: nat)
    requires HeadOk(l, s.disk)
  {
    if s.mode.Running? then 0
    else match s.mode.boot
      case ReadingHead => |HeaderOf(l, s.disk)| + 2
      case Replaying(tail) => (if tail <= |s.lh| then |s.lh| - tail else 0) + 1
      case Erasing => 1
  }

  /** Recovery always finds the buffers it needs: nothing else runs yet. */
  lemma RecoverEnabled(l: Layout, s: State)
    requires Inv(l, s) && s.mode.Booting?
    ensures Enabled(l, s, Recover)
  {
    assert Busy(s) == {};
    var blocks := BootReads(l, s);
    assert Cache.CanRead({} + {blocks[0]}, blocks[1..]) by {
      assert |{} + {blocks[0]}| == 1;
      if |blocks| == 2 {
        assert blocks[1..][1..] == [];
      }
    }
  }

  lemma RecoverProgress(l: Layout, s: State)
    requires Inv(l, s) && s.mode.Booting?
    ensures Enabled(l, s, Recover)
    ensures var s' := Do(l, s, Recover);
            Inv(l, s') && StepsLeft(l, s') == StepsLeft(l, s) - 1 && !s'.committing && s'.outstanding == 0
  {
    RecoverEnabled(l, s);
    RecoverKeeps(l, s);
    NoActives(s.procs);
  }

  lemma {:induction false} RecoveryRuns(l: Layout, s: State)
    requires Inv(l, s) && !s.committing && s.outstanding == 0
    ensures Legal(l, s, Recoveries(StepsLeft(l, s)))
    ensures var s' := Exec(l, s, Recoveries(StepsLeft(l, s)));
            Inv(l, s') && s'.mode.Running? && !s'.committing && s'.outstanding == 0
    decreases StepsLeft(l, s)
  {
    hide Protocol, Space, Pinned, Phases, Do, Cache.CanRead;
    if s.mode.Booting? {
      RecoverProgress(l, s);
      var rest := Recoveries(StepsLeft(l, s));
      assert rest[0] == Recover && rest[1..] == Recoveries(StepsLeft(l, s) - 1);
      RecoveryRuns(l, Do(l, s, Recover));
    }
  }

  lemma {:induction false} RecoveriesPaintNothing(pic: Picture, n: nat)
    ensures After(pic, Recoveries(n)) == pic
  {
    if n > 0 {
      var rest := Recoveries(n);
      assert rest[0] == Recover && rest[1..] == Recoveries(n - 1);
      RecoveriesPaintNothing(pic, n - 1);
    }
  }

  /** After any run, a crash followed by an undisturbed recovery leaves the home
      blocks on disk as they were saved, and an empty log. */
  lemma RecoveryRestores(l: Layout, s0: State, steps: seq<Step>)
    requires PowerOn(l, s0) && Legal(l, s0, steps)
    ensures var s := Exec(l, s0, steps);
            var down := DoCrash(s);
            && HeadOk(l, down.disk) && Legal(l, down, Recoveries(StepsLeft(l, down)))
            && var up := Exec(l, down, Recoveries(StepsLeft(l, down)));
            && up.mode.Running? && up.lh == [] && HeadOk(l, up.disk) && HeaderOf(l, up.disk) == []
            && SameHome(l, up.disk, After(Start(l, s0.disk), steps).saved)
  {
    var pic := After(Start(l, s0.disk), steps);
    StartShows(l, s0);
    RunShows(l, s0, Start(l, s0.disk), steps);
    var s := Exec(l, s0, steps);
    var down := DoCrash(s);
    CrashKeeps(l, s);
    CrashShows(l, s, pic);
    hide Protocol, Space, Pinned, Phases, HeadOk, RecoveredAt, Legal, Exec;
    RecoveryRuns(l, down);
    RunShows(l, down, Next(pic, Crash), Recoveries(StepsLeft(l, down)));
    RecoveriesPaintNothing(Next(pic, Crash), StepsLeft(l, down));
    QuiescentView(l, Exec(l, down, Recoveries(StepsLeft(l, down))));
  }
}
