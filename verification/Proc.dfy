/** The process table (proc.c): CPUs run schedulers and processes, which fork, exit, wait, sleep and
    wake each other under ptable.lock. The lock is owned by a CPU and travels through swtch. */
module Proc {
  import opened Blocks

  datatype Status = Unused | Embryo | Sleeping | Runnable | Running | Zombie

  /** A wait channel: nothing, a process slot (used by wait), or any other kernel object. */
  datatype Chan = NoChan | OfProc(slot: nat) | Object(id: nat)

  /** Where a process continues when it is switched in: forkret, the rest of yield, the rest of sleep,
      or the rest of the sleep inside wait. */
  datatype Resume = ForkRet | AfterYield | AfterSleep | InWait

  /** Whether the process is between allocproc and the end of fork, and for which slot. */
  datatype Job = NoJob | Forking(child: nat, named: bool)

  datatype Proc = Proc(status: Status, chan: Chan, parent: Option<nat>, killed: bool, resume: Resume, job: Job)
  {
    predicate Alive() {
      status.Sleeping? || status.Runnable? || status.Running?
    }
  }

  /** Idle and Scan are the scheduler outside and inside the lock; Picked has set c->proc; Entered is a
      process just switched in, still under the lock; Free runs without it; Leaving is about to swtch. */
  datatype Pc = Idle | Scan(k: nat) | Picked | Entered | Free | Leaving

  datatype Cpu = Cpu(proc: Option<nat>, pc: Pc)

  datatype State = State(procs: seq<Proc>, cpus: seq<Cpu>, lock: Option<nat>, init: nat)

  // ----- operations on the table -----

  /** wakeup1 */
  function Wake(ps: seq<Proc>, chan: Chan): (r: seq<Proc>)
    ensures |r| == |ps|
    ensures forall i :: 0 <= i < |ps| ==>
              r[i] == if ps[i].status.Sleeping? && ps[i].chan == chan then ps[i].(status := Runnable) else ps[i]
  {
    seq(|ps|, i requires 0 <= i < |ps| =>
      if ps[i].status.Sleeping? && ps[i].chan == chan then ps[i].(status := Runnable) else ps[i])
  }

  function Adopt(ps: seq<Proc>, cur: nat, init: nat): (r: seq<Proc>)
    ensures |r| == |ps|
    ensures forall i :: 0 <= i < |ps| ==>
              r[i] == if ps[i].parent == Some(cur) then ps[i].(parent := Some(init)) else ps[i]
  {
    seq(|ps|, i requires 0 <= i < |ps| =>
      if ps[i].parent == Some(cur) then ps[i].(parent := Some(init)) else ps[i])
  }

  predicate HasZombie(ps: seq<Proc>, cur: nat) {
    exists i :: 0 <= i < |ps| && ps[i].parent == Some(cur) && ps[i].status.Zombie?
  }

  predicate HasChild(ps: seq<Proc>, cur: nat) {
    exists i :: 0 <= i < |ps| && ps[i].parent == Some(cur)
  }

  /** What exit does to the table: wake the parent, pass the children to init, become a zombie. */
  function ExitTable(ps: seq<Proc>, cur: nat, init: nat): (r: seq<Proc>)
    requires cur < |ps|
    ensures |r| == |ps|
  {
    var a := if ps[cur].parent.Some? then Wake(ps, OfProc(ps[cur].parent.value)) else ps;
    var b := Adopt(a, cur, init);
    var d := if HasZombie(a, cur) then Wake(b, OfProc(init)) else b;
    d[cur := d[cur].(status := Zombie)]
  }

  predicate FirstUnused(ps: seq<Proc>, k: nat) {
    k < |ps| && ps[k].status.Unused? && forall i :: 0 <= i < k ==> !ps[i].status.Unused?
  }

  predicate FirstZombie(ps: seq<Proc>, cur: nat, k: nat) {
    && k < |ps| && ps[k].parent == Some(cur) && ps[k].status.Zombie?
    && forall i :: 0 <= i < k ==> !(ps[i].parent == Some(cur) && ps[i].status.Zombie?)
  }

  // ----- the loops over the table -----

  method Wakeup1(table: array<Proc>, chan: Chan)
    modifies table
    ensures table[..] == Wake(old(table[..]), chan)
  {
    var i := 0;
    while i < table.Length
      invariant 0 <= i <= table.Length
      invariant forall j :: 0 <= j < i ==> table[j] == Wake(old(table[..]), chan)[j]
      invariant forall j :: i <= j < table.Length ==> table[j] == old(table[..])[j]
    {
      if table[i].status.Sleeping? && table[i].chan == chan {
        table[i] := table[i].(status := Runnable);
      }
      i := i + 1;
    }
  }

  /** An entry of the table once exit's loop has or has not passed it, and has or has not woken init. */
  function Passed(p: Proc, cur: nat, init: nat, passed: bool, woken: bool): (r: Proc) {
    var a := if passed && p.parent == Some(cur) then p.(parent := Some(init)) else p;
    if woken && a.status.Sleeping? && a.chan == OfProc(init) then a.(status := Runnable) else a
  }

  /** exit's work on the table, with ptable.lock held. */
  method ExitScan(table: array<Proc>, cur: nat, init: nat)
    requires cur < table.Length && init < table.Length
    modifies table
    ensures table[..] == ExitTable(old(table[..]), cur, init)
  {
    if table[cur].parent.Some? {
      Wakeup1(table, OfProc(table[cur].parent.value));
    }
    ghost var a := table[..];
    var i := 0;
    while i < table.Length
      invariant 0 <= i <= table.Length
      invariant forall j :: 0 <= j < table.Length ==> table[j] == Passed(a[j], cur, init, j < i, HasZombie(a[..i], cur))
    {
      PassOn(table, cur, init, i, a);
      i := i + 1;
    }
    assert a[..i] == a;
    table[cur] := table[cur].(status := Zombie);
    assert table[..] == ExitTable(old(table[..]), cur, init);
  }

  /** One turn of exit's loop: a child of cur goes to init, which is woken if the child is a zombie. */
  method PassOn(table: array<Proc>, cur: nat, init: nat, i: nat, ghost a: seq<Proc>)
    requires i < table.Length == |a|
    requires forall j :: 0 <= j < |a| ==> table[j] == Passed(a[j], cur, init, j < i, HasZombie(a[..i], cur))
    modifies table
    ensures forall j :: 0 <= j < |a| ==> table[j] == Passed(a[j], cur, init, j < i + 1, HasZombie(a[..i + 1], cur))
  {
    ZombieSoFar(a, cur, i);
    ghost var z, z' := HasZombie(a[..i], cur), HasZombie(a[..i + 1], cur);
    hide HasZombie;
    if table[i].parent == Some(cur) {
      table[i] := table[i].(parent := Some(init));
      if table[i].status.Zombie? {
        Wakeup1(table, OfProc(init));
      }
    }
  }

  lemma ZombieSoFar(a: seq<Proc>, cur: nat, i: nat)
    requires i < |a|
    ensures HasZombie(a[..i + 1], cur) <==> HasZombie(a[..i], cur) || (a[i].parent == Some(cur) && a[i].status.Zombie?)
  {
    if HasZombie(a[..i], cur) {
      var j :| 0 <= j < i && a[..i][j].parent == Some(cur) && a[..i][j].status.Zombie?;
      assert a[..i + 1][j] == a[j];
    }
    if a[i].parent == Some(cur) && a[i].status.Zombie? {
      assert a[..i + 1][i] == a[i];
    }
  }

  /** wait's scan: the first zombie child, if there is one, and whether there are children at all. */
  method WaitScan(table: array<Proc>, cur: nat) returns (k: nat, havekids: bool)
    ensures k < table.Length ==> FirstZombie(table[..], cur, k)
    ensures k >= table.Length ==> !HasZombie(table[..], cur) && havekids == HasChild(table[..], cur)
  {
    havekids := false;
    k := 0;
    while k < table.Length
      invariant 0 <= k <= table.Length
      invariant forall j :: 0 <= j < k ==> !(table[j].parent == Some(cur) && table[j].status.Zombie?)
      invariant havekids <==> exists j :: 0 <= j < k && table[j].parent == Some(cur)
    {
      if table[k].parent == Some(cur) {
        havekids := true;
        if table[k].status.Zombie? {
          return;
        }
      }
      k := k + 1;
    }
    if havekids {
      var j :| 0 <= j < table.Length && table[j].parent == Some(cur);
      assert table[..][j].parent == Some(cur);
    }
  }

  // ----- steps -----

  datatype Step =
    | SchedAcquire | SchedSkip | SchedPick | SchedEnter | SchedRelease
    | Resumed
    | SwitchBack
    | Yield
    | Sleep(id: nat)
    | Wakeup(id: nat)
    | Kill(q: nat)
    | Exit
    | WaitReap(k: nat)
    | WaitFail
    | WaitSleep
    | ForkAlloc(k: nat)
    | ForkName
    | ForkFail
    | ForkDone

  /** CPU c runs a process that holds no lock. */
  predicate Outside(s: State, c: nat)
    requires c < |s.cpus|
  {
    s.cpus[c].pc.Free? && s.cpus[c].proc.Some? && s.cpus[c].proc.value < |s.procs|
  }

  /** ... and can take ptable.lock. */
  predicate Taking(s: State, c: nat)
    requires c < |s.cpus|
  {
    Outside(s, c) && s.lock.None?
  }

  /** In wait with the lock held: just acquired, or back from the sleep inside wait. */
  predicate Waiting(s: State, c: nat)
    requires c < |s.cpus|
  {
    || (Taking(s, c) && s.procs[s.cpus[c].proc.value].job.NoJob?)
    || (s.cpus[c].pc.Entered? && s.cpus[c].proc.Some? && s.cpus[c].proc.value < |s.procs|
        && s.procs[s.cpus[c].proc.value].resume.InWait?)
  }

  predicate Enabled(s: State, c: nat, x: Step) {
    c < |s.cpus| && match x {
      case SchedAcquire => s.cpus[c].pc.Idle? && s.lock.None?
      case SchedSkip => s.cpus[c].pc.Scan? && s.cpus[c].pc.k < |s.procs| && !s.procs[s.cpus[c].pc.k].status.Runnable?
      case SchedPick => s.cpus[c].pc.Scan? && s.cpus[c].pc.k < |s.procs| && s.procs[s.cpus[c].pc.k].status.Runnable?
      case SchedEnter => s.cpus[c].pc.Picked? && s.cpus[c].proc.Some? && s.cpus[c].proc.value < |s.procs|
      case SchedRelease => s.cpus[c].pc.Scan? && s.cpus[c].pc.k >= |s.procs|
      case Resumed => s.cpus[c].pc.Entered? && s.cpus[c].proc.Some? && s.cpus[c].proc.value < |s.procs|
                      && !s.procs[s.cpus[c].proc.value].resume.InWait?
      case SwitchBack => s.cpus[c].pc.Leaving? && s.cpus[c].proc.Some?
      case Yield => Taking(s, c)
      case Sleep(_) => Taking(s, c) && s.procs[s.cpus[c].proc.value].job.NoJob?
      case Wakeup(_) => Taking(s, c)
      case Kill(q) => Taking(s, c) && q < |s.procs|
      case Exit => Taking(s, c) && s.procs[s.cpus[c].proc.value].job.NoJob? && s.cpus[c].proc.value != s.init
      case WaitReap(k) => Waiting(s, c) && FirstZombie(s.procs, s.cpus[c].proc.value, k)
      case WaitFail => Waiting(s, c) && !HasZombie(s.procs, s.cpus[c].proc.value)
                       && (!HasChild(s.procs, s.cpus[c].proc.value) || s.procs[s.cpus[c].proc.value].killed)
      case WaitSleep => Waiting(s, c) && !HasZombie(s.procs, s.cpus[c].proc.value)
                        && HasChild(s.procs, s.cpus[c].proc.value) && !s.procs[s.cpus[c].proc.value].killed
      case ForkAlloc(k) => Taking(s, c) && s.procs[s.cpus[c].proc.value].job.NoJob? && FirstUnused(s.procs, k)
      case ForkName => Outside(s, c) && s.procs[s.cpus[c].proc.value].job.Forking?
        && !s.procs[s.cpus[c].proc.value].job.named
                       && s.procs[s.cpus[c].proc.value].job.child < |s.procs|
      case ForkFail => Outside(s, c) && s.procs[s.cpus[c].proc.value].job.Forking?
        && !s.procs[s.cpus[c].proc.value].job.named
                       && s.procs[s.cpus[c].proc.value].job.child < |s.procs|
      case ForkDone => Taking(s, c) && s.procs[s.cpus[c].proc.value].job.Forking?
        && s.procs[s.cpus[c].proc.value].job.named
                       && s.procs[s.cpus[c].proc.value].job.child < |s.procs|
    }
  }

  /** The process running on CPU c changes to `r` and, with the lock, is about to enter the scheduler. */
  function Leave(s: State, c: nat, r: Proc): (t: State)
    requires c < |s.cpus| && s.cpus[c].proc.Some? && s.cpus[c].proc.value < |s.procs|
  {
    s.(procs := s.procs[s.cpus[c].proc.value := r], cpus := s.cpus[c := s.cpus[c].(pc := Leaving)], lock := Some(c))
  }

  /** The process running on CPU c goes on without the lock. */
  function Go(s: State, c: nat, ps: seq<Proc>): (t: State)
    requires c < |s.cpus|
  {
    s.(procs := ps, cpus := s.cpus[c := s.cpus[c].(pc := Free)], lock := None)
  }

  function Next(s: State, c: nat, x: Step): (t: State)
    requires Enabled(s, c, x)
  {
    var cpu := s.cpus[c];
    match x
    case SchedAcquire => s.(cpus := s.cpus[c := Cpu(None, Scan(0))], lock := Some(c))
    case SchedSkip => s.(cpus := s.cpus[c := cpu.(pc := Scan(cpu.pc.k + 1))])
    case SchedPick => s.(cpus := s.cpus[c := Cpu(Some(cpu.pc.k), Picked)])
    case SchedEnter =>
      s.(procs := s.procs[cpu.proc.value := s.procs[cpu.proc.value].(status := Running)],
         cpus := s.cpus[c := cpu.(pc := Entered)])
    case SchedRelease => s.(cpus := s.cpus[c := cpu.(pc := Idle)], lock := None)
    case Resumed =>
      var p := s.procs[cpu.proc.value];
      Go(s, c, s.procs[cpu.proc.value := if p.resume.AfterSleep? then p.(chan := NoChan) else p])
    case SwitchBack => s.(cpus := s.cpus[c := Cpu(None, Scan(cpu.proc.value + 1))])
    case Yield => Leave(s, c, s.procs[cpu.proc.value].(status := Runnable, resume := AfterYield))
    case Sleep(id) =>
      Leave(s, c, s.procs[cpu.proc.value].(status := Sleeping, chan := Object(id), resume := AfterSleep))
    case Wakeup(id) => s.(procs := Wake(s.procs, Object(id)))
    case Kill(q) =>
      var p := s.procs[q];
      s.(procs := s.procs[q := p.(killed := true, status := if p.status.Sleeping? then Runnable else p.status)])
    case Exit =>
      var ps := ExitTable(s.procs, cpu.proc.value, s.init);
      Leave(s.(procs := ps), c, ps[cpu.proc.value])
    case WaitReap(k) =>
      Go(s, c, s.procs[cpu.proc.value := s.procs[cpu.proc.value].(chan := NoChan)]
                      [k := s.procs[k].(status := Unused, parent := None, killed := false)])
    case WaitFail => Go(s, c, s.procs[cpu.proc.value := s.procs[cpu.proc.value].(chan := NoChan)])
    case WaitSleep =>
      Leave(s, c, s.procs[cpu.proc.value].(status := Sleeping, chan := OfProc(cpu.proc.value), resume := InWait))
    case ForkAlloc(k) =>
      s.(procs := s.procs[k := s.procs[k].(status := Embryo, resume := ForkRet, job := NoJob)]
                         [cpu.proc.value := s.procs[cpu.proc.value].(job := Forking(k, false))])
    case ForkName =>
      var k := s.procs[cpu.proc.value].job.child;
      s.(procs := s.procs[k := s.procs[k].(parent := Some(cpu.proc.value))]
                         [cpu.proc.value := s.procs[cpu.proc.value].(job := Forking(k, true))])
    case ForkFail =>
      var k := s.procs[cpu.proc.value].job.child;
      s.(procs := s.procs[k := s.procs[k].(status := Unused)]
                         [cpu.proc.value := s.procs[cpu.proc.value].(job := NoJob)])
    case ForkDone =>
      var k := s.procs[cpu.proc.value].job.child;
      s.(procs := s.procs[k := s.procs[k].(status := Runnable)]
                         [cpu.proc.value := s.procs[cpu.proc.value].(job := NoJob)])
  }

  /** userinit has run and no CPU has entered its scheduler loop. */
  ghost predicate Init(s: State) {
    && s.init < |s.procs| && s.lock.None?
    && (forall p :: 0 <= p < |s.procs| ==>
          s.procs[p].status == (if p == s.init then Runnable else Unused) && s.procs[p].parent.None?
          && s.procs[p].chan.NoChan? && s.procs[p].job.NoJob? && s.procs[p].resume.ForkRet?)
    && (forall c :: 0 <= c < |s.cpus| ==> s.cpus[c] == Cpu(None, Idle))
  }

  // ----- what every step keeps -----

  predicate UnderLock(pc: Pc) {
    pc.Scan? || pc.Picked? || pc.Entered? || pc.Leaving?
  }

  ghost predicate Locked(s: State) {
    && (s.lock.Some? ==> s.lock.value < |s.cpus|)
    && forall c: nat :: c < |s.cpus| ==> (UnderLock(s.cpus[c].pc) <==> s.lock == Some(c))
  }

  /** What c->proc says about the process table at each point of CPU c. */
  predicate CpuOk(s: State, cpu: Cpu) {
    match cpu.pc
    case Idle => cpu.proc.None?
    case Scan(_) => cpu.proc.None?
    case Picked => cpu.proc.Some? && cpu.proc.value < |s.procs| && s.procs[cpu.proc.value].status.Runnable?
    case Entered => cpu.proc.Some? && cpu.proc.value < |s.procs| && s.procs[cpu.proc.value].status.Running?
    case Free => cpu.proc.Some? && cpu.proc.value < |s.procs| && s.procs[cpu.proc.value].status.Running?
    case Leaving => cpu.proc.Some? && cpu.proc.value < |s.procs|
                    && (s.procs[cpu.proc.value].status.Runnable? || s.procs[cpu.proc.value].status.Sleeping?
                        || s.procs[cpu.proc.value].status.Zombie?)
  }

  ghost predicate Cpus(s: State) {
    forall c :: 0 <= c < |s.cpus| ==> CpuOk(s, s.cpus[c])
  }

  ghost predicate Exclusive(s: State) {
    forall c, d :: 0 <= c < d < |s.cpus| && s.cpus[c].proc.Some? ==> s.cpus[c].proc != s.cpus[d].proc
  }

  predicate OnSomeCpu(s: State, p: nat) {
    exists c :: 0 <= c < |s.cpus| && s.cpus[c].proc == Some(p)
  }

  ghost predicate RunningOnCpu(s: State) {
    forall p :: 0 <= p < |s.procs| && s.procs[p].status.Running? ==> OnSomeCpu(s, p)
  }

  /** Families: init never dies, every parent is alive, and every process but init has one. */
  ghost predicate Families(s: State) {
    && s.init < |s.procs| && s.procs[s.init].Alive() && s.procs[s.init].parent.None?
    && (forall p: nat :: p < |s.procs| ==> FamilyOk(s, p))
  }

  predicate FamilyOk(s: State, p: nat)
    requires p < |s.procs|
  {
    && (s.procs[p].parent.Some? ==>
          && s.procs[p].parent.value < |s.procs| && s.procs[p].parent.value != p
          && s.procs[s.procs[p].parent.value].Alive() && !s.procs[p].status.Unused?)
    && (p != s.init && (s.procs[p].Alive() || s.procs[p].status.Zombie?) ==> s.procs[p].parent.Some?)
  }

  /** Each fork under way owns one embryo. */
  ghost predicate Forks(s: State) {
    && (forall p: nat :: p < |s.procs| && s.procs[p].job.Forking? ==> ForkOk(s, p))
    && (forall p: nat, q: nat :: p < q < |s.procs| && s.procs[p].job.Forking? && s.procs[q].job.Forking? ==>
          s.procs[p].job.child != s.procs[q].job.child)
  }

  predicate ForkOk(s: State, p: nat)
    requires p < |s.procs| && s.procs[p].job.Forking?
  {
    var k := s.procs[p].job.child;
    && s.procs[p].Alive() && k < |s.procs| && s.procs[k].status.Embryo?
    && s.procs[k].parent == if s.procs[p].job.named then Some(p) else None
  }

  /** A process asleep in wait has no zombie child. */
  ghost predicate Waiters(s: State) {
    forall p: nat, q: nat ::
      p < |s.procs| && q < |s.procs| && s.procs[p].status.Sleeping? && s.procs[p].chan == OfProc(p) ==>
      !(s.procs[q].parent == Some(p) && s.procs[q].status.Zombie?)
  }

  ghost predicate Inv(s: State) {
    Locked(s) && Cpus(s) && Exclusive(s) && RunningOnCpu(s) && Families(s) && Forks(s) && Waiters(s)
  }

  lemma StepKeepsLock(s: State, c: nat, x: Step)
    requires Locked(s) && Enabled(s, c, x)
    ensures Locked(Next(s, c, x))
  {
  }

  // ----- CPUs -----

  predicate ForkerOk(s: State, p: Option<nat>) {
    p.Some? && p.value < |s.procs| && s.procs[p.value].job.Forking? ==> ForkOk(s, p.value)
  }

  /** What a step on CPU c does to the status of any process p. */
  lemma Moves(s: State, c: nat, x: Step, p: nat)
    requires Enabled(s, c, x) && Locked(s) && CpuOk(s, s.cpus[c]) && p < |s.procs|
    requires ForkerOk(s, s.cpus[c].proc)
    ensures var t := Next(s, c, x);
            && |t.procs| == |s.procs|
            && (s.procs[p].status.Running? && s.cpus[c].proc != Some(p) ==> t.procs[p].status.Running?)
            && (t.procs[p].status.Running? ==>
                   s.procs[p].status.Running? || (x.SchedEnter? && s.cpus[c].proc == Some(p)))
            && (x.ForkName? || x.ForkFail? ==> t.procs[p].status == s.procs[p].status || s.procs[p].status.Embryo?)
  {
  }

  /** CPU c itself is in order after its step. */
  lemma OwnCpu(s: State, c: nat, x: Step)
    requires Enabled(s, c, x) && Locked(s) && CpuOk(s, s.cpus[c])
    requires ForkerOk(s, s.cpus[c].proc)
    ensures CpuOk(Next(s, c, x), Next(s, c, x).cpus[c])
    ensures var t := Next(s, c, x);
            && (t.cpus[c].proc == s.cpus[c].proc || t.cpus[c].proc.None? || x.SchedPick?)
            && (x.SchedPick? ==> t.cpus[c].proc == Some(s.cpus[c].pc.k))
            && (t.cpus[c].proc != s.cpus[c].proc && s.cpus[c].proc.Some? ==>
                   !t.procs[s.cpus[c].proc.value].status.Running?)
  {
  }

  lemma StepKeepsCpus(s: State, c: nat, x: Step)
    requires Locked(s) && Cpus(s) && Forks(s) && Enabled(s, c, x) && Exclusive(s)
    ensures Cpus(Next(s, c, x))
  {
    var t := Next(s, c, x);
    OwnCpu(s, c, x);
    StepKeepsLock(s, c, x);
    forall d | 0 <= d < |t.cpus| && d != c ensures CpuOk(t, t.cpus[d]) {
      OtherCpu(s, c, x, d);
    }
  }

  lemma OtherCpu(s: State, c: nat, x: Step, d: nat)
    requires Locked(s) && Cpus(s) && Forks(s) && Enabled(s, c, x) && Exclusive(s) && d < |s.cpus| && d != c
    ensures var t := Next(s, c, x); d < |t.cpus| && t.cpus[d] == s.cpus[d] && CpuOk(t, t.cpus[d])
  {
    assert CpuOk(s, s.cpus[d]) && CpuOk(s, s.cpus[c]);
    if s.cpus[d].proc.Some? {
      Moves(s, c, x, s.cpus[d].proc.value);
      OtherCpus(s, c, x, d);
      assert s.cpus[d].proc != s.cpus[c].proc by {
        if c < d {
          assert s.cpus[c].proc.Some? ==> s.cpus[c].proc != s.cpus[d].proc;
        }
      }
      LockSide(s, c, x, d);
      hide Next, Enabled, Exclusive, Forks, Cpus, Locked;
    } else {
      OtherCpus(s, c, x, d);
    }
  }

  lemma OtherCpus(s: State, c: nat, x: Step, d: nat)
    requires Enabled(s, c, x) && d < |s.cpus| && d != c
    ensures var t := Next(s, c, x); |t.cpus| == |s.cpus| && t.cpus[d] == s.cpus[d] && |t.procs| == |s.procs|
  {
  }

  /** While CPU d is under the lock, another CPU can only name or give up an embryo. */
  lemma LockSide(s: State, c: nat, x: Step, d: nat)
    requires Locked(s) && Enabled(s, c, x) && d < |s.cpus| && d != c
    ensures UnderLock(s.cpus[d].pc) ==> x.ForkName? || x.ForkFail?
  {
  }

  lemma StepKeepsExclusive(s: State, c: nat, x: Step)
    requires Locked(s) && Cpus(s) && Forks(s) && Enabled(s, c, x) && Exclusive(s)
    ensures Exclusive(Next(s, c, x))
  {
    var t := Next(s, c, x);
    assert CpuOk(s, s.cpus[c]);
    OwnCpu(s, c, x);
    forall d: nat | d < |t.cpus| && d != c
      ensures t.cpus[d] == s.cpus[d] && (t.cpus[c].proc.Some? ==> t.cpus[d].proc != t.cpus[c].proc)
    {
      OtherCpus(s, c, x, d);
      LockSide(s, c, x, d);
      assert CpuOk(s, s.cpus[d]);
    }
    OtherLength(s, c, x);
    hide Next, Enabled;
  }

  lemma OtherLength(s: State, c: nat, x: Step)
    requires Enabled(s, c, x)
    ensures |Next(s, c, x).cpus| == |s.cpus|
  {
  }

  lemma StepKeepsRunning(s: State, c: nat, x: Step)
    requires Locked(s) && Cpus(s) && Forks(s) && Enabled(s, c, x) && RunningOnCpu(s)
    ensures RunningOnCpu(Next(s, c, x))
  {
    var t := Next(s, c, x);
    assert CpuOk(s, s.cpus[c]);
    OwnCpu(s, c, x);
    OtherLength(s, c, x);
    forall p | 0 <= p < |t.procs| && t.procs[p].status.Running? ensures OnSomeCpu(t, p) {
      if |s.procs| > p {
        Moves(s, c, x, p);
      }
      if x.SchedEnter? && s.cpus[c].proc == Some(p) {
        assert t.cpus[c].proc == Some(p);
      } else {
        var d :| 0 <= d < |s.cpus| && s.cpus[d].proc == Some(p);
        if d != c {
          OtherCpus(s, c, x, d);
        }
        assert t.cpus[d].proc == Some(p);
      }
    }
  }

  // ----- families -----

  /** Same parent, same fork, and alive, unborn, dead or absent as before. */
  predicate SameKin(a: Proc, b: Proc) {
    && a.parent == b.parent && a.job == b.job && (a.Alive() <==> b.Alive())
    && (a.status.Zombie? <==> b.status.Zombie?) && (a.status.Unused? <==> b.status.Unused?)
  }

  predicate Dozing(p: Proc) {
    p.status.Sleeping? && p.chan.OfProc?
  }

  predicate Kinless(x: Step) {
    !(x.Exit? || x.WaitReap? || x.ForkAlloc? || x.ForkName? || x.ForkFail? || x.ForkDone?)
  }

  lemma KinKept(s: State, c: nat, x: Step)
    requires Enabled(s, c, x) && CpuOk(s, s.cpus[c]) && Kinless(x)
    ensures var t := Next(s, c, x);
            && |t.procs| == |s.procs| && t.init == s.init
            && (forall p :: 0 <= p < |s.procs| ==> SameKin(s.procs[p], t.procs[p]))
            && (forall p :: 0 <= p < |s.procs| && Dozing(t.procs[p]) && !(x.WaitSleep? && s.cpus[c].proc == Some(p)) ==>
                  Dozing(s.procs[p]) && s.procs[p].chan == t.procs[p].chan)
  {
  }

  lemma KinlessKeeps(s: State, c: nat, x: Step)
    requires Enabled(s, c, x) && Cpus(s) && Kinless(x) && Families(s) && Forks(s) && Waiters(s)
    ensures Families(Next(s, c, x)) && Forks(Next(s, c, x)) && Waiters(Next(s, c, x))
  {
    var t := Next(s, c, x);
    assert CpuOk(s, s.cpus[c]);
    KinKept(s, c, x);
    assert x.WaitSleep? ==> s.cpus[c].proc.Some? && !HasZombie(s.procs, s.cpus[c].proc.value);
    hide Next, Enabled;
    forall p: nat | p < |t.procs| ensures FamilyOk(t, p) {
      assert FamilyOk(s, p) && SameKin(s.procs[p], t.procs[p]);
      if s.procs[p].parent.Some? {
        assert SameKin(s.procs[s.procs[p].parent.value], t.procs[s.procs[p].parent.value]);
      }
    }
    forall p: nat | p < |t.procs| && t.procs[p].job.Forking? ensures ForkOk(t, p) {
      assert SameKin(s.procs[p], t.procs[p]) && ForkOk(s, p);
      assert SameKin(s.procs[s.procs[p].job.child], t.procs[s.procs[p].job.child]);
    }
  }

  lemma ExitAt(ps: seq<Proc>, cur: nat, init: nat, p: nat)
    requires cur < |ps| && init < |ps| && p < |ps|
    ensures var r := ExitTable(ps, cur, init);
            && r[p].job == ps[p].job && r[p].chan == ps[p].chan
            && r[p].parent == (if ps[p].parent == Some(cur) then Some(init) else ps[p].parent)
            && (if p == cur then r[p].status.Zombie?
                else r[p].status == ps[p].status || (ps[p].status.Sleeping? && r[p].status.Runnable?))
            && (ps[cur].parent == Some(p) && p != cur ==> !(r[p].status.Sleeping? && r[p].chan == OfProc(p)))
            && (p == init && HasZombie(ps, cur) ==> !(r[p].status.Sleeping? && r[p].chan == OfProc(p)))
  {
    var a := if ps[cur].parent.Some? then Wake(ps, OfProc(ps[cur].parent.value)) else ps;
    if HasZombie(ps, cur) {
      var i :| 0 <= i < |ps| && ps[i].parent == Some(cur) && ps[i].status.Zombie?;
      assert a[i].parent == Some(cur) && a[i].status.Zombie?;
    }
  }

  lemma ExitKeeps(s: State, c: nat, x: Step)
    requires Enabled(s, c, x) && Cpus(s) && x.Exit? && Families(s) && Forks(s) && Waiters(s)
    ensures Families(Next(s, c, x)) && Forks(Next(s, c, x)) && Waiters(Next(s, c, x))
  {
    var t := Next(s, c, x);
    var cur := s.cpus[c].proc.value;
    assert CpuOk(s, s.cpus[c]);
    assert t.procs == ExitTable(s.procs, cur, s.init) && t.init == s.init;
    assert s.procs[cur].job.NoJob? && cur != s.init && s.procs[cur].status.Running?;
    hide Next, Enabled;
    ExitFamilies(s, t, cur);
    ExitForks(s, t, cur);
    ExitWaiters(s, t, cur);
  }

  lemma ExitFamilies(s: State, t: State, cur: nat)
    requires Families(s) && cur < |s.procs| && cur != s.init
    requires t.procs == ExitTable(s.procs, cur, s.init) && t.init == s.init && s.procs[cur].status.Running?
    ensures Families(t)
  {
    ExitAt(s.procs, cur, s.init, s.init);
    forall p: nat | p < |t.procs| ensures FamilyOk(t, p) {
      assert FamilyOk(s, p);
      ExitAt(s.procs, cur, s.init, p);
      if s.procs[p].parent.Some? {
        ExitAt(s.procs, cur, s.init, s.procs[p].parent.value);
      }
      hide ExitTable;
    }
  }

  lemma ExitForks(s: State, t: State, cur: nat)
    requires Forks(s) && cur < |s.procs| && s.init < |s.procs|
    requires t.procs == ExitTable(s.procs, cur, s.init) && t.init == s.init
    requires s.procs[cur].job.NoJob? && s.procs[cur].status.Running?
    ensures Forks(t)
  {
    forall p: nat | p < |t.procs|
      ensures t.procs[p].job == s.procs[p].job && (t.procs[p].job.Forking? ==> ForkOk(t, p))
    {
      ExitAt(s.procs, cur, s.init, p);
      if s.procs[p].job.Forking? {
        assert ForkOk(s, p);
        ExitAt(s.procs, cur, s.init, s.procs[p].job.child);
      }
      hide ExitTable;
    }
    hide ExitTable;
  }

  lemma ExitWaiters(s: State, t: State, cur: nat)
    requires Families(s) && Waiters(s) && cur < |s.procs| && cur != s.init
    requires t.procs == ExitTable(s.procs, cur, s.init) && t.init == s.init
    ensures Waiters(t)
  {
    forall p: nat, q: nat | p < |t.procs| && q < |t.procs|
                            && t.procs[p].status.Sleeping? && t.procs[p].chan == OfProc(p)
      ensures !(t.procs[q].parent == Some(p) && t.procs[q].status.Zombie?)
    {
      assert FamilyOk(s, q) && FamilyOk(s, cur);
      ExitAt(s.procs, cur, s.init, p);
      ExitAt(s.procs, cur, s.init, q);
      hide ExitTable;
      assert s.procs[q].parent == Some(cur) && s.procs[q].status.Zombie? ==> HasZombie(s.procs, cur);
    }
  }

  lemma ReapKeeps(s: State, c: nat, x: Step)
    requires Enabled(s, c, x) && Cpus(s) && x.WaitReap? && Families(s) && Forks(s) && Waiters(s)
    ensures Families(Next(s, c, x)) && Forks(Next(s, c, x)) && Waiters(Next(s, c, x))
  {
    var t := Next(s, c, x);
    var cur := s.cpus[c].proc.value;
    assert CpuOk(s, s.cpus[c]);
    var reaped := s.procs[x.k].(status := Unused, parent := None, killed := false);
    assert t.procs == s.procs[cur := s.procs[cur].(chan := NoChan)][x.k := reaped];
    assert t.init == s.init && s.procs[x.k].status.Zombie?;
    hide Next, Enabled;
    forall p: nat | p < |t.procs| ensures FamilyOk(t, p) {
      assert FamilyOk(s, p);
    }
    forall p: nat | p < |t.procs| && t.procs[p].job.Forking? ensures ForkOk(t, p) {
      assert ForkOk(s, p);
    }
  }

  predicate IsFork(x: Step) {
    x.ForkAlloc? || x.ForkName? || x.ForkFail? || x.ForkDone?
  }

  /** The embryo a fork step on CPU c works on. */
  function Child(s: State, c: nat, x: Step): (k: nat)
    requires Enabled(s, c, x) && IsFork(x)
  {
    if x.ForkAlloc? then x.k else s.procs[s.cpus[c].proc.value].job.child
  }

  /** What a fork step does to its embryo, its process, and nobody else. */
  lemma ForkMoves(s: State, c: nat, x: Step)
    requires Enabled(s, c, x) && IsFork(x) && CpuOk(s, s.cpus[c]) && ForkerOk(s, s.cpus[c].proc)
    ensures var t, cur, k := Next(s, c, x), s.cpus[c].proc.value, Child(s, c, x);
            && cur < |s.procs| && k < |s.procs| && k != cur && s.procs[cur].status.Running?
            && |t.procs| == |s.procs| && t.init == s.init
            && (forall p :: 0 <= p < |s.procs| && p != k && p != cur ==> t.procs[p] == s.procs[p])
            && t.procs[cur] == s.procs[cur].(job := t.procs[cur].job)
            && t.procs[k].job == (if x.ForkAlloc? then NoJob else s.procs[k].job)
            && s.procs[k].status == (if x.ForkAlloc? then Unused else Embryo)
            && t.procs[k].status == (if x.ForkFail? then Unused else if x.ForkDone? then Runnable else Embryo)
            && t.procs[k].parent == (if x.ForkName? then Some(cur) else s.procs[k].parent)
            && s.procs[cur].job == (if x.ForkAlloc? then NoJob else Forking(k, x.ForkDone?))
            && t.procs[cur].job == (if x.ForkAlloc? then Forking(k, false)
                                    else if x.ForkName? then Forking(k, true) else NoJob)
  {
  }

  lemma ForkKeepsFamilies(s: State, c: nat, x: Step)
    requires Enabled(s, c, x) && IsFork(x) && Cpus(s) && Families(s) && Forks(s)
    ensures Families(Next(s, c, x))
  {
    var t, cur, k := Next(s, c, x), s.cpus[c].proc.value, Child(s, c, x);
    assert CpuOk(s, s.cpus[c]);
    ForkMoves(s, c, x);
    assert s.procs[cur].job.Forking? ==> ForkOk(s, cur);
    hide Next, Enabled, Forks;
    forall p: nat | p < |t.procs| ensures FamilyOk(t, p) {
      assert FamilyOk(s, p);
    }
  }

  lemma ForkStaysOk(s: State, c: nat, x: Step)
    requires Enabled(s, c, x) && IsFork(x) && Cpus(s) && Families(s) && Forks(s)
    ensures var t := Next(s, c, x); forall p: nat :: p < |t.procs| && t.procs[p].job.Forking? ==> ForkOk(t, p)
  {
    var t, cur, k := Next(s, c, x), s.cpus[c].proc.value, Child(s, c, x);
    assert CpuOk(s, s.cpus[c]);
    ForkMoves(s, c, x);
    assert FamilyOk(s, k) && (s.procs[cur].job.Forking? ==> ForkOk(s, cur));
    hide Next, Enabled, Families, Child;
    forall p: nat | p < |t.procs| && t.procs[p].job.Forking? ensures ForkOk(t, p) {
      assert s.procs[p].job.Forking? ==> ForkOk(s, p);
    }
  }

  lemma ForkKeepsForks(s: State, c: nat, x: Step)
    requires Enabled(s, c, x) && IsFork(x) && Cpus(s) && Families(s) && Forks(s)
    ensures Forks(Next(s, c, x))
  {
    var t, cur, k := Next(s, c, x), s.cpus[c].proc.value, Child(s, c, x);
    assert CpuOk(s, s.cpus[c]);
    ForkMoves(s, c, x);
    assert FamilyOk(s, k) && (s.procs[cur].job.Forking? ==> ForkOk(s, cur));
    ForkStaysOk(s, c, x);
    hide Next, Enabled, Families, Child;
    forall p: nat, q: nat | p < q < |t.procs| && t.procs[p].job.Forking? && t.procs[q].job.Forking?
      ensures t.procs[p].job.child != t.procs[q].job.child
    {
      assert s.procs[p].job.Forking? ==> ForkOk(s, p);
      assert s.procs[q].job.Forking? ==> ForkOk(s, q);
    }
  }

  lemma ForkKeepsWaiters(s: State, c: nat, x: Step)
    requires Enabled(s, c, x) && IsFork(x) && Cpus(s) && Families(s) && Forks(s) && Waiters(s)
    ensures Waiters(Next(s, c, x))
  {
    assert CpuOk(s, s.cpus[c]);
    ForkMoves(s, c, x);
    hide Next, Enabled, Families, Child, Forks;
  }

  lemma StepKeeps(s: State, c: nat, x: Step)
    requires Inv(s) && Enabled(s, c, x)
    ensures Inv(Next(s, c, x))
  {
    StepKeepsLock(s, c, x);
    StepKeepsCpus(s, c, x);
    StepKeepsExclusive(s, c, x);
    StepKeepsRunning(s, c, x);
    if Kinless(x) {
      KinlessKeeps(s, c, x);
    } else if x.Exit? {
      ExitKeeps(s, c, x);
    } else if x.WaitReap? {
      ReapKeeps(s, c, x);
    } else {
      ForkKeepsFamilies(s, c, x);
      ForkKeepsForks(s, c, x);
      ForkKeepsWaiters(s, c, x);
    }
  }

  // ----- whole runs -----

  datatype Event = Event(cpu: nat, step: Step)

  ghost predicate Run(ss: seq<State>, xs: seq<Event>) {
    && |ss| == |xs| + 1 && Init(ss[0])
    && (forall i :: 0 <= i < |xs| ==>
           Enabled(ss[i], xs[i].cpu, xs[i].step) && ss[i + 1] == Next(ss[i], xs[i].cpu, xs[i].step))
  }

  lemma InitInv(s: State)
    requires Init(s)
    ensures Inv(s)
  {
    assert forall p: nat :: p < |s.procs| ==> s.procs[p].parent.None?;
    assert forall p: nat :: p < |s.procs| ==> s.procs[p].job.NoJob?;
  }

  lemma {:induction false} RunKeeps(ss: seq<State>, xs: seq<Event>, i: nat)
    requires Run(ss, xs) && i < |ss|
    ensures Inv(ss[i])
  {
    if i == 0 {
      InitInv(ss[0]);
    } else {
      RunKeeps(ss, xs, i - 1);
      StepKeeps(ss[i - 1], xs[i - 1].cpu, xs[i - 1].step);
      assert ss[i - 1 + 1] == Next(ss[i - 1], xs[i - 1].cpu, xs[i - 1].step);
    }
  }

  /** Whenever ptable.lock is free: each running process is current on exactly one CPU, and whatever is
      current on a CPU is running. */
  lemma RunningIsCurrent(ss: seq<State>, xs: seq<Event>, i: nat)
    requires Run(ss, xs) && i < |ss| && ss[i].lock.None?
    ensures forall p :: 0 <= p < |ss[i].procs| && ss[i].procs[p].status.Running? ==>
              exists c :: 0 <= c < |ss[i].cpus| && ss[i].cpus[c].proc == Some(p)
                       && forall d :: 0 <= d < |ss[i].cpus| && d != c ==> ss[i].cpus[d].proc != Some(p)
    ensures forall c :: 0 <= c < |ss[i].cpus| && ss[i].cpus[c].proc.Some? ==>
              ss[i].cpus[c].proc.value < |ss[i].procs| && ss[i].procs[ss[i].cpus[c].proc.value].status.Running?
  {
    RunKeeps(ss, xs, i);
    var s := ss[i];
    forall c | 0 <= c < |s.cpus| && s.cpus[c].proc.Some?
      ensures s.cpus[c].proc.value < |s.procs| && s.procs[s.cpus[c].proc.value].status.Running?
    {
      assert CpuOk(s, s.cpus[c]) && !UnderLock(s.cpus[c].pc);
    }
    forall p | 0 <= p < |s.procs| && s.procs[p].status.Running?
      ensures exists c :: 0 <= c < |s.cpus| && s.cpus[c].proc == Some(p)
                       && forall d :: 0 <= d < |s.cpus| && d != c ==> s.cpus[d].proc != Some(p)
    {
      assert OnSomeCpu(s, p);
      var c :| 0 <= c < |s.cpus| && s.cpus[c].proc == Some(p);
      forall d | 0 <= d < |s.cpus| && d != c ensures s.cpus[d].proc != Some(p) {
        assert d < c ==> (s.cpus[d].proc.Some? ==> s.cpus[d].proc != s.cpus[c].proc);
      }
    }
  }

  /** A process asleep in wait has no zombie child, whoever that child was born to; and every zombie
      has a parent that is still alive, so that someone can reap it. */
  lemma NoLostZombie(ss: seq<State>, xs: seq<Event>, i: nat, q: nat)
    requires Run(ss, xs) && i < |ss| && q < |ss[i].procs| && ss[i].procs[q].status.Zombie?
    ensures var s := ss[i];
            && s.procs[q].parent.Some? && s.procs[q].parent.value < |s.procs|
               && s.procs[s.procs[q].parent.value].Alive()
            && var p := s.procs[q].parent.value; !(s.procs[p].status.Sleeping? && s.procs[p].chan == OfProc(p))
  {
    RunKeeps(ss, xs, i);
    assert FamilyOk(ss[i], q);
  }

  /** What wakeup, kill, sleep and yield are for: afterwards nobody sleeps on the channel, the killed process
      does not sleep, the sleeper does, on its channel, and who yields can run again. Nobody else is touched. */
  lemma StepEffects(s: State, c: nat, x: Step)
    requires Enabled(s, c, x)
    ensures var t := Next(s, c, x);
            && (x.Wakeup? ==>
                  |t.procs| == |s.procs| && forall p :: 0 <= p < |s.procs| ==>
                    && !SleepsOn(t.procs[p], Object(x.id))
                    && (if SleepsOn(s.procs[p], Object(x.id)) then t.procs[p].status.Runnable?
                        else t.procs[p] == s.procs[p]))
            && (x.Kill? ==>
                  && Others(s, t, x.q) && t.procs[x.q].killed && !t.procs[x.q].status.Sleeping?
                  && (if s.procs[x.q].status.Sleeping? then t.procs[x.q].status.Runnable?
                      else t.procs[x.q].status == s.procs[x.q].status))
            && (x.Sleep? ==> var p := s.cpus[c].proc.value;
                  Others(s, t, p) && SleepsOn(t.procs[p], Object(x.id)) && t.cpus[c].pc.Leaving?)
            && (x.Yield? ==> var p := s.cpus[c].proc.value;
                  Others(s, t, p) && t.procs[p].status.Runnable? && t.cpus[c].pc.Leaving?)
  {
  }

  predicate SleepsOn(p: Proc, chan: Chan) {
    p.status.Sleeping? && p.chan == chan
  }

  /** Every process but p is as before. */
  predicate Others(s: State, t: State, p: nat) {
    p < |s.procs| && |t.procs| == |s.procs| && forall q :: 0 <= q < |s.procs| && q != p ==> t.procs[q] == s.procs[q]
  }

  /** Two of the tests at the head of sched never fail: whoever is about to switch holds ptable.lock and is no
      longer running. The other two are about the nesting of locks and interrupts, which is not modelled. */
  lemma SchedIsSafe(ss: seq<State>, xs: seq<Event>, i: nat, c: nat)
    requires Run(ss, xs) && i < |ss| && c < |ss[i].cpus| && ss[i].cpus[c].pc.Leaving?
    ensures var s := ss[i];
            && s.lock == Some(c) && s.cpus[c].proc.Some? && s.cpus[c].proc.value < |s.procs|
            && !s.procs[s.cpus[c].proc.value].status.Running?
  {
    RunKeeps(ss, xs, i);
    assert CpuOk(ss[i], ss[i].cpus[c]);
  }

  /** Whoever holds ptable.lock can go on: no run gets stuck with the lock held. */
  lemma HolderGoesOn(ss: seq<State>, xs: seq<Event>, i: nat) returns (x: Step)
    requires Run(ss, xs) && i < |ss| && ss[i].lock.Some?
    ensures Enabled(ss[i], ss[i].lock.value, x)
  {
    RunKeeps(ss, xs, i);
    var s := ss[i];
    var c := s.lock.value;
    assert CpuOk(s, s.cpus[c]) && UnderLock(s.cpus[c].pc);
    hide Inv;
    match s.cpus[c].pc
    case Scan(k) =>
      x := if k >= |s.procs| then SchedRelease else if s.procs[k].status.Runnable? then SchedPick else SchedSkip;
    case Picked => x := SchedEnter;
    case Leaving => x := SwitchBack;
    case Entered =>
      var p := s.cpus[c].proc.value;
      if !s.procs[p].resume.InWait? {
        x := Resumed;
      } else if HasZombie(s.procs, p) {
        var k := FirstOfZombies(s.procs, p);
        x := WaitReap(k);
      } else {
        x := if HasChild(s.procs, p) && !s.procs[p].killed then WaitSleep else WaitFail;
      }
  }

  lemma FirstOfZombies(ps: seq<Proc>, cur: nat) returns (k: nat)
    requires HasZombie(ps, cur)
    ensures FirstZombie(ps, cur, k)
  {
    k := 0;
    while !(ps[k].parent == Some(cur) && ps[k].status.Zombie?)
      invariant k < |ps| && forall i :: 0 <= i < k ==> !(ps[i].parent == Some(cur) && ps[i].status.Zombie?)
      decreases |ps| - k
    {
      k := k + 1;
    }
  }
}
