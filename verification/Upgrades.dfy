/** Rolling upgrades: while every build can read what any build writes, every reader of every
    replica sees a version at all times; a build that cannot may show what no version says. */
module Upgrades {
  import opened Wrappers
  import opened Model
  import opened Snapshots
  import opened Replay
  import opened Repos
  import opened Guards
  import opened Checkpoints
  import opened Tracking
  import opened Protocol
  import opened Safety
  import opened Groups
  import opened Scan
  import opened Policy
  import opened Visibility

  // ----- builds that read one another's rows -----

  ghost predicate Understood(c: Cluster) {
    forall r, v | r in c.replicas && v in c.log :: AcceptsAll(c.replicas[r].known, c.log[v].actions)
  }

  ghost predicate ReplicaWhole(log: Log, r: Replica)
    requires Contiguous(log)
  {
    WholeAt(log, r.version, r.snap) && forall d | d in r.dumps :: WholeAt(log, r.dumps[d].version, Load(r.dumps[d].lines))
  }

  ghost predicate AllWhole(c: Cluster) {
    && Contiguous(c.log)
    && (forall v | v in c.checkpoints :: WholeAt(c.log, v, Load(c.checkpoints[v])))
    && (forall r | r in c.replicas :: ReplicaWhole(c.log, c.replicas[r]))
  }

  lemma ReplicaSwapped(c: Cluster, r: nat, replica: Replica)
    requires AllWhole(c) && ReplicaWhole(c.log, replica)
    ensures AllWhole(c.(replicas := c.replicas[r := replica]))
  {
    hide WholeAt, Load, Contiguous;
  }

  lemma AppendKeepsAllWhole(c: Cluster, e: Entry)
    requires AllWhole(c)
    ensures AllWhole(c.(log := Appended(c.log, e)))
  {
    hide WholeAt, Load, Appended;
    AppendedIsContiguous(c.log, e);
    forall v | v in c.checkpoints ensures WholeAt(Appended(c.log, e), v, Load(c.checkpoints[v])) {
      AppendKeepsWhole(c.log, e, v, Load(c.checkpoints[v]));
    }
    forall r | r in c.replicas ensures ReplicaWhole(Appended(c.log, e), c.replicas[r]) {
      AppendKeepsWhole(c.log, e, c.replicas[r].version, c.replicas[r].snap);
      forall d | d in c.replicas[r].dumps ensures WholeAt(Appended(c.log, e), c.replicas[r].dumps[d].version, Load(c.replicas[r].dumps[d].lines)) {
        AppendKeepsWhole(c.log, e, c.replicas[r].dumps[d].version, Load(c.replicas[r].dumps[d].lines));
      }
    }
  }

  lemma FreshWhole(log: Log, known: Known)
    requires Contiguous(log)
    ensures ReplicaWhole(log, Fresh(known))
  {
    hide Coherent;
    EmptyTrusted();
    TrustedIsCoherent(EMPTY);
  }

  lemma SettleWhole(log: Log, r: Replica, t: nat)
    requires LogOk(log) && Contiguous(log) && ReplicaOk(log, r) && ReplicaWhole(log, r) && t in r.tasks && r.tasks[t].Landed?
    requires forall v | v in log :: AcceptsAll(r.known, log[v].actions)
    ensures ReplicaWhole(log, AfterSettle(r, t))
  {
    hide LogOk, Held, WholeAt, AfterAll, ApplyUpTo, AcceptsAll, Load, TaskOk, Accepted;
    LandedAhead(log, r, t, r.version);
    var task := r.tasks[t];
    AllAccepted(r.known, task.entry.actions);
    if r.version + 1 == task.target {
      WholeIsHeld(log, r.version, r.snap);
      InLog(log, task.target);
      OneReplayed(log, r.snap, r.version);
      assert task.target <= |log|;
      HeldReplayStays(log, r.snap, r.version, task.target);
    }
  }

  lemma CatchUpWhole(c: Cluster, r: nat, base: Option<nat>, listed: nat)
    requires LogOk(c.log) && AllWhole(c) && r in c.replicas && CanReplay(c, c.replicas[r], base, listed, None)
    requires forall v | v in c.log :: AcceptsAll(c.replicas[r].known, c.log[v].actions)
    ensures ReplicaWhole(c.log, AfterCatchUp(c, c.replicas[r], base, listed))
  {
    hide LogOk, Held, WholeAt, AfterAll, ApplyUpTo, AcceptsAll, Load, AfterCatchUp, StartState, ReplayFrom;
    var replica := c.replicas[r];
    CatchUpTouches(c, replica, base, listed);
    if replica.version == 0 && base.Some? && !AcceptsAll(replica.known, c.checkpoints[base.value]) {
      UnreadableBase(c, replica, base, listed);
    } else {
      StartsWhole(c, r, base);
      InLog(c.log, listed);
      ReachesListed(c.log, replica.known, StartVersion(replica, base), listed);
      var s := CatchUpEnds(c, replica, base, listed);
      CatchUpShape(c, replica, base, listed);
    }
  }

  lemma StartsWhole(c: Cluster, r: nat, base: Option<nat>)
    requires AllWhole(c) && r in c.replicas && (base.Some? ==> base.value in c.checkpoints)
    ensures WholeAt(c.log, StartVersion(c.replicas[r], base), StartState(c, c.replicas[r], base))
  {
    hide WholeAt, Load;
    assert ReplicaWhole(c.log, c.replicas[r]);
  }

  lemma UnreadableBase(c: Cluster, r: Replica, base: Option<nat>, listed: nat)
    requires CanReplay(c, r, base, listed, None)
    requires r.version == 0 && base.Some? && !AcceptsAll(r.known, c.checkpoints[base.value])
    ensures AfterCatchUp(c, r, base, listed) == r
  {
    hide ReplayFrom, Load, AfterAll, AcceptsAll, Reached;
  }

  lemma ReadWhole(log: Log, r: Replica, t: nat, q: Request, ids: seq<Id>, head: nat)
    requires Contiguous(log) && ReplicaWhole(log, r) && q.WellFormed() && |ids| >= q.Demand()
    ensures ReplicaWhole(log, AfterRead(head, r, t, q, ids))
  {
    hide Build, WholeAt, Load;
  }

  lemma DumpWhole(log: Log, r: Replica, d: nat)
    requires Contiguous(log) && ReplicaWhole(log, r) && Typed(r.snap)
    ensures ReplicaWhole(log, r.(dumps := r.dumps[d := Dumped(r.version, Dump(r.snap))]))
  {
    hide Fold, Coherent, Dump, Load, GuardedTo, Typed;
    DumpAgrees(Fold(log, r.version), r.snap, GUARDED);
    if Tidy(log, r.version) { DumpAgrees(Fold(log, r.version), r.snap, COLUMNS); }
  }

  lemma PutWhole(c: Cluster, r: nat, t: nat)
    requires Inv(c) && AllWhole(c) && Enabled(c, Put(r, t))
    ensures AllWhole(Do(c, Put(r, t)))
  {
    hide Inv, WholeAt, Load, AllWhole, Appended, AnswersWith;
    var replica := c.replicas[r];
    var task := replica.tasks[t];
    WholeTasks(c, r, t, Beaten(|c.log|, task));
    if task.target in c.log {
      ReplicaSwapped(c, r, WithTask(replica, t, Beaten(|c.log|, task)));
    } else {
      StillContiguous(c);
      StagedFacts(c, r, t);
      assert Appended(c.log, task.entry) == c.log[task.target := task.entry] by { AppendedAt(c.log, task.entry); }
      AppendKeepsAllWhole(c, task.entry);
      var between := c.(log := Appended(c.log, task.entry));
      WholeTasks(between, r, t, Landed(task.entry, task.target, task.reply));
      ReplicaSwapped(between, r, WithTask(replica, t, Landed(task.entry, task.target, task.reply)));
    }
  }

  lemma StillContiguous(c: Cluster)
    requires AllWhole(c)
    ensures Contiguous(c.log)
  {
  }

  lemma AppendedAt(log: Log, e: Entry)
    ensures Appended(log, e) == log[|log| + 1 := e]
  {
  }

  lemma WholeReplica(c: Cluster, r: nat)
    requires AllWhole(c) && r in c.replicas
    ensures ReplicaWhole(c.log, c.replicas[r])
  {
    hide WholeAt, Load;
  }

  lemma WholeTasks(c: Cluster, r: nat, t: nat, task: Task)
    requires AllWhole(c) && r in c.replicas
    ensures ReplicaWhole(c.log, c.replicas[r]) && ReplicaWhole(c.log, WithTask(c.replicas[r], t, task))
  {
    hide WholeAt, Load;
  }

  lemma CheckpointWhole(c: Cluster, r: nat, d: nat)
    requires AllWhole(c) && Enabled(c, PutCheckpoint(r, d))
    ensures AllWhole(Do(c, PutCheckpoint(r, d)))
  {
    hide WholeAt, Load;
    assert ReplicaWhole(c.log, c.replicas[r]);
  }

  lemma StepKeepsWhole(c: Cluster, step: Step)
    requires Inv(c) && Enabled(c, step) && AllWhole(c) && Understood(c)
    ensures AllWhole(Do(c, step))
  {
    hide Inv, AllWhole, ReplicaWhole, AfterRead, AfterSettle, AfterCatchUp, MayRead, Typed, AcceptsAll, ReplicaOk, LogOk, Dump, Reaches, Contiguous;
    StillContiguous(c);
    InvFacts(c, step.replica);
    if step.replica in c.replicas { WholeReplica(c, step.replica); }
    match step
    case Boot(r, known) =>
      FreshWhole(c.log, known);
      ReplicaSwapped(c, r, Fresh(known));
    case Read(r, t, q, ids) =>
      ReadWhole(c.log, c.replicas[r], t, q, ids, |c.log|);
      ReplicaSwapped(c, r, AfterRead(|c.log|, c.replicas[r], t, q, ids));
    case Put(r, t) => PutWhole(c, r, t);
    case Settle(r, t) =>
      SettleWhole(c.log, c.replicas[r], t);
      ReplicaSwapped(c, r, AfterSettle(c.replicas[r], t));
    case CatchUp(r, base, listed) =>
      CatchUpWhole(c, r, base, listed);
      ReplicaSwapped(c, r, AfterCatchUp(c, c.replicas[r], base, listed));
    case GiveUp(r, t) =>
      var task := Finished(c.replicas[r].tasks[t].request, [], None, Exhausted);
      WholeTasks(c, r, t, task);
      ReplicaSwapped(c, r, WithTask(c.replicas[r], t, task));
    case TakeDump(r, d) =>
      var replica := c.replicas[r];
      DumpWhole(c.log, replica, d);
      ReplicaSwapped(c, r, replica.(dumps := replica.dumps[d := Dumped(replica.version, Dump(replica.snap))]));
    case PutCheckpoint(r, d) => CheckpointWhole(c, r, d);
    case Abandon(r, t) =>
      WithoutTaskWhole(c.log, c.replicas[r], t);
      ReplicaSwapped(c, r, c.replicas[r].(tasks := c.replicas[r].tasks - {t}));
  }

  lemma WithoutTaskWhole(log: Log, r: Replica, t: nat)
    requires Contiguous(log) && ReplicaWhole(log, r)
    ensures ReplicaWhole(log, r.(tasks := r.tasks - {t}))
  {
    hide WholeAt, Load;
  }

  lemma {:induction false} RunKeepsWhole(cs: seq<Cluster>, steps: seq<Step>, i: nat)
    requires Run(cs, steps) && i < |cs| && forall j | 0 <= j < i :: Understood(cs[j])
    ensures AllWhole(cs[i])
  {
    hide Inv, Enabled, Do, Understood, WholeAt;
    if i == 0 {
      RunKeeps(cs, steps, 0);
      InvFacts(cs[0], 0);
    } else {
      RunKeepsWhole(cs, steps, i - 1);
      RunKeeps(cs, steps, i - 1);
      StepKeepsWhole(cs[i - 1], steps[i - 1]);
    }
  }

  /** As long as every replica has been able to read every entry, all readers everywhere see
      exactly what their snapshot's version says, and so does whoever loads a checkpoint. */
  lemma WithoutSkewAllSeeVersions(cs: seq<Cluster>, steps: seq<Step>, i: nat, r: nat, v: nat)
    requires Run(cs, steps) && i < |cs| && forall j | 0 <= j < i :: Understood(cs[j])
    ensures r in cs[i].replicas ==> ShowsVersion(cs[i].log, cs[i].replicas[r].version, cs[i].replicas[r].snap)
    ensures v in cs[i].checkpoints ==> ShowsVersion(cs[i].log, v, Load(cs[i].checkpoints[v]))
  {
    hide Run, Inv, WholeAt, ShowsVersion, Load, Understood;
    RunKeeps(cs, steps, i);
    InvFacts(cs[i], r);
    RunKeepsWhole(cs, steps, i);
    if r in cs[i].replicas {
      assert ReplicaWhole(cs[i].log, cs[i].replicas[r]);
      WholeShows(cs[i].log, cs[i].replicas[r].version, cs[i].replicas[r].snap);
    }
    if v in cs[i].checkpoints { WholeShows(cs[i].log, v, Load(cs[i].checkpoints[v])); }
  }

  // ----- a build that does not -----

  ghost predicate EndsIn(cs: seq<Cluster>, steps: seq<Step>, c: Cluster) {
    Run(cs, steps) && |cs| == |steps| + 1 && cs[|steps|] == c
  }

  lemma Extend(cs: seq<Cluster>, steps: seq<Step>, c: Cluster, step: Step)
    requires EndsIn(cs, steps, c) && Enabled(c, step)
    ensures EndsIn(cs + [Do(c, step)], steps + [step], Do(c, step))
  {
    hide Enabled, Do;
  }

  /** A replica at the head whose build reads its own rows commits with nobody in between. */
  predicate CanCommit(c: Cluster, r: nat, t: nat, q: Request, ids: seq<Id>) {
    && r in c.replicas && t !in c.replicas[r].tasks && c.replicas[r].version + 1 !in c.log
    && q.WellFormed() && |ids| >= q.Demand() && Build(q, ids, c.replicas[r].snap).Built?
    && Build(q, ids, c.replicas[r].snap).actions != []
    && AcceptsAll(c.replicas[r].known, Build(q, ids, c.replicas[r].snap).actions)
  }

  function AfterCommit(c: Cluster, r: nat, t: nat, q: Request, ids: seq<Id>): Cluster
    requires CanCommit(c, r, t, q, ids)
  {
    var replica := c.replicas[r];
    var b := Build(q, ids, replica.snap);
    var done := Finished(q, ids, Some(replica.version), Answer(b.reply));
    c.(log := c.log[replica.version + 1 := Entry(q, ids, b.actions)],
       replicas := c.replicas[r := replica.(snap := AfterAll(replica.snap, b.actions), version := replica.version + 1, torn := false,
                                            tasks := replica.tasks[t := done])])
  }

  lemma CommitAlone(cs: seq<Cluster>, steps: seq<Step>, c: Cluster, r: nat, t: nat, q: Request, ids: seq<Id>)
      returns (cs': seq<Cluster>, steps': seq<Step>)
    requires EndsIn(cs, steps, c) && CanCommit(c, r, t, q, ids)
    ensures EndsIn(cs', steps', AfterCommit(c, r, t, q, ids))
  {
    hide Run, Build, AfterAll, AcceptsAll, Accepted;
    var replica := c.replicas[r];
    var b := Build(q, ids, replica.snap);
    var e := Entry(q, ids, b.actions);
    AllAccepted(replica.known, b.actions);
    Extend(cs, steps, c, Read(r, t, q, ids));
    var c1 := Do(c, Read(r, t, q, ids));
    assert c1 == c.(replicas := c.replicas[r := WithTask(replica, t, Staged(e, replica.version + 1, b.reply, Past(|c.log|, replica.version, [], 0)))]);
    Extend(cs + [c1], steps + [Read(r, t, q, ids)], c1, Put(r, t));
    var c2 := Do(c1, Put(r, t));
    assert c2.replicas[r].tasks == replica.tasks[t := Landed(e, replica.version + 1, b.reply)];
    assert c2.replicas == c.replicas[r := WithTask(replica, t, Landed(e, replica.version + 1, b.reply))];
    Extend(cs + [c1] + [c2], steps + [Read(r, t, q, ids)] + [Put(r, t)], c2, Settle(r, t));
    var c3 := Do(c2, Settle(r, t));
    assert c3.replicas[r].tasks == AfterCommit(c, r, t, q, ids).replicas[r].tasks;
    cs', steps' := cs + [c1] + [c2] + [c3], steps + [Read(r, t, q, ids)] + [Put(r, t)] + [Settle(r, t)];
  }

  const ALL: Known := (row: Row) => true

  lemma ReadsAll(q: Request, ids: seq<Id>, s: State)
    requires q.WellFormed() && |ids| >= q.Demand() && Build(q, ids, s).Built?
    ensures AcceptsAll(ALL, Build(q, ids, s).actions)
  {
    hide Build;
    BuildReadable(q, ids, s);
  }

  lemma RunOfNothing()
    ensures EndsIn([GENESIS], [], GENESIS)
  {
  }

  /** What committing the request on this state puts in the log. */
  function Written(q: Request, ids: seq<Id>, s: State): Entry
    requires BuildsCommit(q, ids, s)
  {
    Entry(q, ids, Build(q, ids, s).actions)
  }

  /** Replica 1 has committed two entries, and replica 0, with a build of its own, is new. */
  ghost predicate Behind(c: Cluster, known: Known, e1: Entry, e2: Entry) {
    c.log == map[1 := e1, 2 := e2] && 0 in c.replicas && c.replicas[0] == Fresh(known)
  }

  lemma TwoCommits(known: Known, q1: Request, ids1: seq<Id>, q2: Request, ids2: seq<Id>, e1: Entry, e2: Entry)
      returns (cs: seq<Cluster>, steps: seq<Step>, c: Cluster)
    requires BuildsCommit(q1, ids1, EMPTY) && e1 == Written(q1, ids1, EMPTY)
    requires BuildsCommit(q2, ids2, AfterAll(EMPTY, e1.actions)) && e2 == Written(q2, ids2, AfterAll(EMPTY, e1.actions))
    ensures EndsIn(cs, steps, c) && Behind(c, known, e1, e2)
  {
    hide Run, Build, AfterAll, AcceptsAll;
    RunOfNothing();
    var c1 := Cluster(map[], map[], map[1 := Fresh(ALL)]);
    Extend([GENESIS], [], GENESIS, Boot(1, ALL));
    assert Do(GENESIS, Boot(1, ALL)) == c1;
    var c2 := c1.(replicas := c1.replicas[0 := Fresh(known)]);
    Extend([GENESIS] + [c1], [] + [Boot(1, ALL)], c1, Boot(0, known));
    ReadsAll(q1, ids1, EMPTY);
    cs, steps := CommitAlone([GENESIS] + [c1] + [c2], [] + [Boot(1, ALL)] + [Boot(0, known)], c2, 1, 0, q1, ids1);
    var c3 := AfterCommit(c2, 1, 0, q1, ids1);
    ReadsAll(q2, ids2, c3.replicas[1].snap);
    cs, steps := CommitAlone(cs, steps, c3, 1, 1, q2, ids2);
    c := AfterCommit(c3, 1, 1, q2, ids2);
  }

  lemma TwoFolds(log: Log)
    requires log.Keys == {1, 2}
    ensures Reaches(log, 2) && |log| == 2
    ensures Fold(log, 1) == AfterAll(EMPTY, log[1].actions) && Fold(log, 2) == AfterAll(Fold(log, 1), log[2].actions)
  {
    assert |log| == |log.Keys|;
  }

  /** Catching up, it stops inside the second commit if its build can read the first only. */
  lemma StopsInSecond(c: Cluster, known: Known)
    requires LogOk(c.log) && Contiguous(c.log) && Reaches(c.log, 2) && |c.log| == 2
    requires AcceptsAll(known, c.log[1].actions) && !AcceptsAll(known, c.log[2].actions)
    ensures ShowsFirstEntries(c.log, known, 1, AfterCatchUp(c, Fresh(known), None, 2).snap)
    ensures ShowsFirstRules(c.log, known, 1, AfterCatchUp(c, Fresh(known), None, 2).snap)
  {
    hide LogOk, Fold, AcceptsAll, AfterCatchUp, WholeAt, ShowsFirstEntries, ShowsFirstRules;
    FreshWhole(c.log, known);
    CatchUpShows(c, Fresh(known), None, 2);
    CatchUpShape(c, Fresh(known), None, 2);
    assert Reached(c.log, known, 0, 2) == 1;
  }

  lemma CaughtUp(cs: seq<Cluster>, steps: seq<Step>, c: Cluster, known: Known)
    requires EndsIn(cs, steps, c) && 0 in c.replicas && c.replicas[0] == Fresh(known) && Reaches(c.log, 2)
    ensures Enabled(c, CatchUp(0, None, 2))
    ensures var c' := Do(c, CatchUp(0, None, 2));
            && EndsIn(cs + [c'], steps + [CatchUp(0, None, 2)], c') && c'.log == c.log
            && 0 in c'.replicas && c'.replicas[0].snap == AfterCatchUp(c, Fresh(known), None, 2).snap
  {
    hide Run, AfterCatchUp;
    Extend(cs, steps, c, CatchUp(0, None, 2));
  }

  /** Two commits, and a snapshot that has caught up with them as far as its build can read. */
  ghost predicate Overtaken(log: Log, known: Known, e1: Entry, e2: Entry, s: State) {
    && Reaches(log, 2) && log[1] == e1 && log[2] == e2
    && Fold(log, 1) == AfterAll(EMPTY, e1.actions) && Fold(log, 2) == AfterAll(AfterAll(EMPTY, e1.actions), e2.actions)
    && ShowsFirstEntries(log, known, 1, s) && ShowsFirstRules(log, known, 1, s)
  }

  lemma CatchingUp(c: Cluster, known: Known, e1: Entry, e2: Entry)
    requires LogOk(c.log) && Contiguous(c.log) && Behind(c, known, e1, e2)
    requires AcceptsAll(known, e1.actions) && !AcceptsAll(known, e2.actions)
    ensures Reaches(c.log, 2) && Overtaken(c.log, known, e1, e2, AfterCatchUp(c, Fresh(known), None, 2).snap)
  {
    hide LogOk, AfterAll, AcceptsAll, AfterCatchUp, Fold, ShowsFirstEntries, ShowsFirstRules;
    TwoFolds(c.log);
    StopsInSecond(c, known);
  }

  lemma Overtake(known: Known, q1: Request, ids1: seq<Id>, q2: Request, ids2: seq<Id>, e1: Entry, e2: Entry)
      returns (cs: seq<Cluster>, steps: seq<Step>)
    requires BuildsCommit(q1, ids1, EMPTY) && e1 == Written(q1, ids1, EMPTY)
    requires BuildsCommit(q2, ids2, AfterAll(EMPTY, e1.actions)) && e2 == Written(q2, ids2, AfterAll(EMPTY, e1.actions))
    requires AcceptsAll(known, e1.actions) && !AcceptsAll(known, e2.actions)
    ensures Run(cs, steps) && |cs| == |steps| + 1 && 0 in cs[|steps|].replicas
    ensures Overtaken(cs[|steps|].log, known, e1, e2, cs[|steps|].replicas[0].snap)
  {
    hide Run, Inv, LogOk, Enabled, Do, AfterAll, BuildsCommit, Written, AcceptsAll, AfterCatchUp, Overtaken;
    var c: Cluster;
    cs, steps, c := TwoCommits(known, q1, ids1, q2, ids2, e1, e2);
    RunKeeps(cs, steps, |steps|);
    InvFacts(c, 0);
    CatchingUp(c, known, e1, e2);
    CaughtUp(cs, steps, c, known);
    cs, steps := cs + [Do(c, CatchUp(0, None, 2))], steps + [CatchUp(0, None, 2)];
  }

  /** Rows of a newer format: property values that say so, and policy rules of a new type. */
  predicate Newer(row: Row) {
    (row.PropertyRow? && "v2:" <= row.value) || (row.CasbinRow? && row.rule[0] == "p2")
  }

  /** A build from before it. */
  const OLDER: Known := (row: Row) => !Newer(row)

  // ----- one property replaced by another -----

  const X := map["x" := "1"]
  const Y := map["y" := "v2:2"]

  function SetX(e: Id, ty: string): Request {
    OnProperty(SetProperty(e, ty, "x", "1"))
  }

  function PutY(e: Id, ty: string): Request {
    OnProperty(ReplaceProperties(e, ty, Y))
  }

  /** What the replica shows is the map of neither the version before nor the version after. */
  ghost predicate NeitherMapShown(c: Cluster, r: nat, v: nat, e: Id, ty: string) {
    && r in c.replicas && Reaches(c.log, v + 1) && IsReplace(c.log[v + 1])
    && PropertyMap(Fold(c.log, v), e, ty) == X && PropertyMap(Fold(c.log, v + 1), e, ty) == Y
    && PropertyMap(c.replicas[r].snap, e, ty) == map[]
  }

  lemma SetXBuilds(e: Id, ty: string, a: Id)
    requires NulFree(ty)
    ensures Build(SetX(e, ty), [a], EMPTY) == Built([Upsert(Property, a, PropertyRow(a, e, ty, "x", "1"))], Unit)
  {
  }

  lemma SetXShows(e: Id, ty: string, a: Id)
    requires NulFree(ty)
    ensures BuildsCommit(SetX(e, ty), [a], EMPTY)
    ensures var p := Build(SetX(e, ty), [a], EMPTY).actions; var s := AfterAll(EMPTY, p);
            AcceptsAll(OLDER, p) && PropertyMap(s, e, ty) == X && Trusted(s) && forall b | b != a :: Unused(s, Property, [b])
  {
    hide Build, PropertyMap, Trusted, PropertyPrefix, NulFree;
    EmptyTrusted();
    SetXBuilds(e, ty, a);
    SetIsUpdate(EMPTY, e, ty, "x", "1", [a]);
    SameMap(EMPTY, e, ty, map[]);
    TrustedAfterBuild(SetX(e, ty), [a], EMPTY);
    AfterOne(EMPTY, Upsert(Property, a, PropertyRow(a, e, ty, "x", "1")));
  }

  lemma PutYShows(s: State, e: Id, ty: string, b: Id)
    requires NulFree(ty) && Trusted(s) && Unused(s, Property, [b])
    ensures BuildsCommit(PutY(e, ty), [b], s)
    ensures var p := Build(PutY(e, ty), [b], s).actions; !AcceptsAll(OLDER, p) && PropertyMap(AfterAll(s, p), e, ty) == Y
  {
    hide PropertyMap, Trusted, PropertyPrefix, NulFree, IdsUnderPrefix, AfterAll, Removals, SortedNames, Unused;
    ReplaceIsAssignment(s, e, ty, Y, [b]);
    ReplaceActions(s, e, ty, Y, [b]);
    var p := Build(PutY(e, ty), [b], s).actions;
    assert "y" in Y.Keys;
    var names := SortedNames(Y.Keys);
    assert |names| == 1 && names[0] == "y";
    var last := p[|p| - 1];
    assert last in p && last == Upsert(Property, b, PropertyRow(b, e, ty, "y", "v2:2")) && !Accepts(OLDER, last);
  }

  /** Two builds share a store. One commits a property and replaces it by another; the other,
      which cannot read the second row, catches up. Its readers find no property at all. */
  lemma SkewShowsNeitherMap(e: Id, ty: string, a: Id, b: Id) returns (cs: seq<Cluster>, steps: seq<Step>)
    requires NulFree(ty) && a != b
    ensures Run(cs, steps) && |cs| == |steps| + 1 && NeitherMapShown(cs[|steps|], 0, 1, e, ty)
  {
    hide Run, AfterAll, Build, PropertyMap, Trusted, Unused, AcceptsAll, RowsRead, Fold;
    SetXShows(e, ty, a);
    var e1 := Written(SetX(e, ty), [a], EMPTY);
    var s := AfterAll(EMPTY, e1.actions);
    PutYShows(s, e, ty, b);
    var e2 := Written(PutY(e, ty), [b], s);
    cs, steps := Overtake(OLDER, SetX(e, ty), [a], PutY(e, ty), [b], e1, e2);
    assert |Y| == 1;
  }

  // ----- one policy replaced by another -----

  const FIRST: Rule := ["p", "alice", "read", "", "", "", ""]
  const SECOND: Rule := ["p2", "bob", "read", "", "", "", ""]

  ghost predicate NeitherPolicyShown(c: Cluster, r: nat, v: nat) {
    && r in c.replicas && Reaches(c.log, v + 1) && IsReplaceAll(c.log[v + 1])
    && RuleSet(Fold(c.log, v).rows) == {FIRST} && RuleSet(Fold(c.log, v + 1).rows) == {SECOND}
    && RuleSet(c.replicas[r].snap.rows) == {}
  }

  lemma FirstBuilds(a: Id)
    ensures Build(OnRule(AddRule(FIRST)), [a], EMPTY) == Built([Upsert(CasbinRule, a, CasbinRow(FIRST))], Flag(true))
  {
    hide RuleKey;
  }

  lemma FirstShows(a: Id)
    ensures BuildsCommit(OnRule(AddRule(FIRST)), [a], EMPTY)
    ensures var p := Build(OnRule(AddRule(FIRST)), [a], EMPTY).actions; var s := AfterAll(EMPTY, p);
            AcceptsAll(OLDER, p) && RuleSet(s.rows) == {FIRST} && Trusted(s) && forall b | b != a :: Unused(s, CasbinRule, [b])
  {
    hide RuleKey, Trusted, Build, GetByNaturalKey;
    EmptyTrusted();
    FirstBuilds(a);
    AddIsUnion(EMPTY, FIRST, [a]);
    TrustedAfterBuild(OnRule(AddRule(FIRST)), [a], EMPTY);
    AfterOne(EMPTY, Upsert(CasbinRule, a, CasbinRow(FIRST)));
    assert FIRST[0] != SECOND[0];
  }

  lemma SecondShows(s: State, b: Id)
    requires Trusted(s) && Unused(s, CasbinRule, [b])
    ensures BuildsCommit(OnRule(ReplaceRules([SECOND])), [b], s)
    ensures var p := Build(OnRule(ReplaceRules([SECOND])), [b], s).actions;
            !AcceptsAll(OLDER, p) && RuleSet(AfterAll(s, p).rows) == {SECOND}
    ensures Unseen([SECOND], {}) == [SECOND]
  {
    hide RuleKey, Trusted, AfterAll, IdsByKind, Removals, RuleSet, Unused;
    ReplaceAllIsAssignment(s, [SECOND], [b]);
    ReplaceAllActions(s, [SECOND], [b]);
    assert Unseen([SECOND], {}) == [SECOND];
    var p := Build(OnRule(ReplaceRules([SECOND])), [b], s).actions;
    var last := p[|p| - 1];
    assert last in p && last == Upsert(CasbinRule, b, CasbinRow(SECOND)) && !Accepts(OLDER, last);
  }

  /** The same of the policy: the authorizer of the other replica finds no rule. */
  lemma SkewShowsNoPolicy(a: Id, b: Id) returns (cs: seq<Cluster>, steps: seq<Step>)
    requires a != b
    ensures Run(cs, steps) && |cs| == |steps| + 1 && NeitherPolicyShown(cs[|steps|], 0, 1)
  {
    hide Run, AfterAll, Build, RuleSet, Trusted, Unused, AcceptsAll, RowsRead, Fold, Unseen, RuleKey;
    var q1, q2 := OnRule(AddRule(FIRST)), OnRule(ReplaceRules([SECOND]));
    FirstShows(a);
    var e1 := Written(q1, [a], EMPTY);
    var s := AfterAll(EMPTY, e1.actions);
    SecondShows(s, b);
    var e2 := Written(q2, [b], s);
    cs, steps := Overtake(OLDER, q1, [a], q2, [b], e1, e2);
  }
}
