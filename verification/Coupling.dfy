/** A store object among other writers is one replica of a run of the protocol: each of its calls
    is a sequence of that replica's steps with steps of others between them, whatever the others
    do, and leaves the store where the replica then is. */
module Coupling {
  import opened Wrappers
  import opened Keys
  import opened Model
  import opened Snapshots
  import opened Repos
  import opened Guards
  import opened Checkpoints
  import opened ContentHash
  import opened Framing
  import opened ObjectLog
  import opened CommitLog
  import opened Recovery
  import opened Tracking
  import opened Protocol
  import opened Safety
  import opened Refinement
  import Stores
  import Upgrades

  // ----- clusters of runs, and ways from one to another -----

  ghost predicate Reachable(c: Cluster) {
    exists cs, steps :: Run(cs, steps) && |cs| == |steps| + 1 && cs[|steps|] == c
  }

  lemma ReachableFacts(c: Cluster, r: nat)
    requires Reachable(c)
    ensures Inv(c) && LogOk(c.log) && Contiguous(c.log) && AllDumps(c)
    ensures r in c.replicas ==> ReplicaOk(c.log, c.replicas[r])
  {
    hide Run, Inv, LogOk, AllDumps, ReplicaOk;
    var cs, steps :| Run(cs, steps) && |cs| == |steps| + 1 && cs[|steps|] == c;
    RunKeeps(cs, steps, |steps|);
    CheckpointsAreDumps(cs, steps, |steps|);
    InvFacts(c, r);
  }

  lemma ReachableStep(c: Cluster, step: Step)
    requires Reachable(c) && Enabled(c, step)
    ensures Reachable(Do(c, step))
  {
    hide Enabled, Do;
    var cs, steps :| Run(cs, steps) && |cs| == |steps| + 1 && cs[|steps|] == c;
    var cs', steps' := cs + [Do(c, step)], steps + [step];
    assert Run(cs', steps') && cs'[|steps'|] == Do(c, step);
  }

  ghost predicate Path(c: Cluster, steps: seq<Step>, d: Cluster)
    decreases |steps|
  {
    if steps == [] then d == c else Enabled(c, steps[0]) && Path(Do(c, steps[0]), steps[1..], d)
  }

  /** A step of the task t of replica r, or of the replica on behalf of all its tasks. */
  predicate Ours(step: Step, r: nat, t: nat) {
    step.replica == r &&
    match step
    case Read(_, u, _, _) => u == t
    case Put(_, u) => u == t
    case Settle(_, u) => u == t
    case GiveUp(_, u) => u == t
    case CatchUp(_, _, _) => true
    case TakeDump(_, _) => true
    case PutCheckpoint(_, _) => true
    case _ => false
  }

  /** The steps are of other replicas, and if a task is named, of that task. */
  predicate Allowed(steps: seq<Step>, r: nat, t: Option<nat>) {
    forall i | 0 <= i < |steps| :: steps[i].replica != r || (t.Some? && Ours(steps[i], r, t.value))
  }

  ghost predicate Leads(c: Cluster, d: Cluster, r: nat, t: Option<nat>) {
    exists steps :: Path(c, steps, d) && Allowed(steps, r, t)
  }

  lemma {:induction false} PathConcat(c: Cluster, p: seq<Step>, d: Cluster, q: seq<Step>, e: Cluster)
    requires Path(c, p, d) && Path(d, q, e)
    ensures Path(c, p + q, e)
    decreases |p|
  {
    hide Enabled, Do;
    if p == [] {
      assert p + q == q;
    } else {
      PathConcat(Do(c, p[0]), p[1..], d, q, e);
      assert (p + q)[1..] == p[1..] + q;
    }
  }

  lemma LeadsNowhere(c: Cluster, r: nat, t: Option<nat>)
    ensures Leads(c, c, r, t)
  {
    assert Path(c, [], c) && Allowed([], r, t);
  }

  lemma LeadsOn(c: Cluster, d: Cluster, e: Cluster, r: nat, t: Option<nat>)
    requires Leads(c, d, r, t) && Leads(d, e, r, t)
    ensures Leads(c, e, r, t)
  {
    hide Path;
    var p :| Path(c, p, d) && Allowed(p, r, t);
    var q :| Path(d, q, e) && Allowed(q, r, t);
    PathConcat(c, p, d, q, e);
    assert Allowed(p + q, r, t);
  }

  lemma LeadsByOne(c: Cluster, step: Step, r: nat, t: Option<nat>)
    requires Enabled(c, step) && Allowed([step], r, t)
    ensures Leads(c, Do(c, step), r, t)
  {
    hide Enabled, Do;
    assert [step][1..] == [];
    assert Path(c, [step], Do(c, step));
  }

  /** What others alone can do, they can do among the steps of a task. */
  lemma LeadsAmong(c: Cluster, d: Cluster, r: nat, t: Option<nat>)
    requires Leads(c, d, r, None)
    ensures Leads(c, d, r, t)
  {
    hide Path;
    var p :| Path(c, p, d) && Allowed(p, r, None);
    assert Allowed(p, r, t);
  }

  /** Another replica's step leaves this one alone. */
  lemma OthersStep(c: Cluster, step: Step, r: nat)
    requires Enabled(c, step) && step.replica != r
    ensures r in c.replicas <==> r in Do(c, step).replicas
    ensures r in c.replicas ==> Do(c, step).replicas[r] == c.replicas[r]
  {
    hide AfterRead, AfterSettle, AfterCatchUp, Dump, Typed, MayRead;
  }

  /** A snapshot that is a version stays that version, whatever is appended. */
  lemma StepKeepsVersion(c: Cluster, step: Step, v: nat, s: State)
    requires Inv(c) && Enabled(c, step) && Contiguous(c.log) && WholeAt(c.log, v, s)
    ensures Contiguous(Do(c, step).log) && WholeAt(Do(c, step).log, v, s) && |c.log| <= |Do(c, step).log|
  {
    hide Inv, Enabled, Do, WholeAt, Fold, Appended, AnswersWith;
    StepRefines(c, step);
    if Wins(c, step) {
      WinnerIsNext(c, step);
      AppendKeepsWhole(c.log, Winner(c, step).entry, v, s);
      AppendedIsContiguous(c.log, Winner(c, step).entry);
    }
  }

  lemma {:induction false} PathKeeps(c: Cluster, steps: seq<Step>, d: Cluster, r: nat, t: Option<nat>, v: nat, s: State)
    requires Reachable(c) && Path(c, steps, d) && Allowed(steps, r, t)
    ensures Reachable(d) && Contiguous(c.log) && Contiguous(d.log) && |c.log| <= |d.log|
    ensures t.None? ==> (r in c.replicas <==> r in d.replicas) && (r in c.replicas ==> d.replicas[r] == c.replicas[r])
    ensures WholeAt(c.log, v, s) ==> WholeAt(d.log, v, s)
    decreases |steps|
  {
    hide Reachable, Enabled, Do, Inv, WholeAt;
    ReachableFacts(c, 0);
    if steps != [] {
      ReachableStep(c, steps[0]);
      ReachableFacts(Do(c, steps[0]), 0);
      EmptyIsVersion(c.log);
      StepKeepsVersion(c, steps[0], 0, EMPTY);
      if WholeAt(c.log, v, s) { StepKeepsVersion(c, steps[0], v, s); }
      if t.None? { OthersStep(c, steps[0], r); }
      assert forall i | 0 <= i < |steps[1..]| :: steps[1..][i] == steps[i + 1];
      PathKeeps(Do(c, steps[0]), steps[1..], d, r, t, v, s);
    }
  }

  lemma EmptyIsVersion(log: Log)
    requires Contiguous(log)
    ensures WholeAt(log, 0, EMPTY)
  {
    hide Coherent;
    EmptyTrusted();
    TrustedIsCoherent(EMPTY);
  }

  lemma LeadsKeeps(c: Cluster, d: Cluster, r: nat, t: Option<nat>, v: nat, s: State)
    requires Reachable(c) && Leads(c, d, r, t)
    ensures Reachable(d) && Contiguous(c.log) && Contiguous(d.log) && |c.log| <= |d.log|
    ensures t.None? ==> (r in c.replicas <==> r in d.replicas) && (r in c.replicas ==> d.replicas[r] == c.replicas[r])
    ensures WholeAt(c.log, v, s) ==> WholeAt(d.log, v, s)
  {
    hide Reachable, Path, WholeAt;
    var p :| Path(c, p, d) && Allowed(p, r, t);
    PathKeeps(c, p, d, r, t, v, s);
  }

  // ----- the other writers -----

  /** What came into the log from `before` to `after` is what other replicas can bring there: of
      every cluster that a run can be in and `before` represents, they can make one that `after`
      represents. */
  ghost predicate ByOthers(codec: Codec, r: nat, before: Objects, after: Objects) {
    forall c | Reachable(c) && Represents(codec, before, c) :: exists d :: Leads(c, d, r, None) && Represents(codec, after, d)
  }

  lemma ByOthersAt(codec: Codec, r: nat, before: Objects, after: Objects, c: Cluster) returns (d: Cluster)
    requires ByOthers(codec, r, before, after) && Reachable(c) && Represents(codec, before, c)
    ensures Leads(c, d, r, None) && Represents(codec, after, d)
  {
    hide Reachable, Represents, Leads;
    d :| Leads(c, d, r, None) && Represents(codec, after, d);
  }

  lemma ByOthersOn(codec: Codec, r: nat, before: Objects, mid: Objects, after: Objects)
    requires ByOthers(codec, r, before, mid) && ByOthers(codec, r, mid, after)
    ensures ByOthers(codec, r, before, after)
  {
    hide Represents, Reachable, Leads, ByOthers;
    forall c | Reachable(c) && Represents(codec, before, c) ensures exists d :: Leads(c, d, r, None) && Represents(codec, after, d) {
      var d := ByOthersAt(codec, r, before, mid, c);
      LeadsKeeps(c, d, r, None, 0, EMPTY);
      var e := ByOthersAt(codec, r, mid, after, d);
      LeadsOn(c, d, e, r, None);
    }
    assert ByOthers(codec, r, before, after) by { ByOthersIntro(codec, r, before, after); }
  }

  lemma ByOthersIntro(codec: Codec, r: nat, before: Objects, after: Objects)
    requires forall c | Reachable(c) && Represents(codec, before, c) :: exists d :: Leads(c, d, r, None) && Represents(codec, after, d)
    ensures ByOthers(codec, r, before, after)
  {
  }

  // ----- a store that is a replica -----

  /** The objects represent a cluster of a run, in which replica r, of this build, is where the
      store stands. */
  ghost predicate Coupled(codec: Codec, c: Cluster, r: nat, known: Known, at: Stores.Standing) {
    && Reachable(c) && Represents(codec, at.objects, c)
    && r in c.replicas && c.replicas[r].known == known && IsAt(c.replicas[r], at.version, at.snap)
  }

  /** Others come in between, and the store stays coupled. */
  lemma OthersBetween(codec: Codec, c: Cluster, r: nat, t: Option<nat>, known: Known, at: Stores.Standing, after: Objects) returns (d: Cluster)
    requires Coupled(codec, c, r, known, at) && ByOthers(codec, r, at.objects, after)
    ensures Coupled(codec, d, r, known, at.(objects := after)) && Leads(c, d, r, t) && d.replicas[r] == c.replicas[r] && |c.log| <= |d.log|
  {
    hide Represents, Reachable, Leads, ByOthers;
    d := ByOthersAt(codec, r, at.objects, after, c);
    LeadsKeeps(c, d, r, None, 0, EMPTY);
    LeadsAmong(c, d, r, t);
  }

  /** A step of this task. */
  lemma OurStep(c: Cluster, step: Step, r: nat, t: nat)
    requires Reachable(c) && Enabled(c, step) && Ours(step, r, t)
    ensures Reachable(Do(c, step)) && Leads(c, Do(c, step), r, Some(t))
  {
    hide Reachable, Enabled, Do;
    ReachableStep(c, step);
    LeadsByOne(c, step, r, Some(t));
  }

  /** A catch-up, good or failed, is one step of the replica at its end. */
  lemma CatchUpIsOurs(codec: Codec, pc: PointerCodec, c: Cluster, r: nat, t: nat, known: Known, from: Stores.Standing, trip: Stores.Trip)
      returns (d: Cluster)
    requires codec.Valid() && Coupled(codec, c, r, known, from.(objects := trip.ended)) && Stores.CaughtUp(codec, known, pc, from, trip)
    ensures Coupled(codec, d, r, known, Stores.Arrived(trip)) && Leads(c, d, r, Some(t))
    ensures d.replicas[r].tasks == c.replicas[r].tasks && d.log == c.log
  {
    hide Represents, Reachable, Leads, Encodes, Stores.Follows, Stores.Applied, Stores.StartsAt, Stores.Interrupted, Stores.CommitsAccepted;
    hide AfterCatchUp, StartState, AllDumps, Inv, LogOk, ReplicaOk, Extends, CanReplay;
    ReachableFacts(c, r);
    Stores.StartsLater(codec, known, pc, trip.mid, trip.ended, from.version, from.snap, trip.base, trip.start);
    var base := StartIsTheSteps(codec, pc, trip.ended, c, c.replicas[r], trip.base, trip.start);
    StartInLog(c, c.replicas[r], base);
    RepresentedLog(codec, trip.ended, c);
    var listed := TripIsAReplay(codec, known, pc, c, c.replicas[r], base, from, trip);
    d := TakesCatchUp(codec, c, r, t, base, listed, trip.ended);
  }

  lemma TripIsAReplay(codec: Codec, known: Known, pc: PointerCodec, c: Cluster, r: Replica, base: Option<nat>, from: Stores.Standing, trip: Stores.Trip)
      returns (listed: nat)
    requires Encodes(codec, trip.ended, c.log) && Reaches(c.log, trip.base) && SameStart(c, r, base, trip.base, trip.start)
    requires Stores.CaughtUp(codec, known, pc, from, trip) && r.known == known
    ensures CanReplay(c, r, base, listed, None) && IsAt(AfterCatchUp(c, r, base, listed), trip.version, trip.snap)
  {
    hide Encodes, Stores.Follows, Stores.Applied, Stores.StartsAt, Stores.Interrupted, Stores.CommitsAccepted, AfterCatchUp, StartState, Extends, SameStart;
    listed := trip.version;
    if trip.ok {
      CatchUpIsAStep(codec, trip.ended, c, r, base, trip.base, trip.start, trip.commits);
    } else {
      listed := FailedCatchUpIsAStep(codec, trip.ended, c, r, base, trip.base, trip.start, trip.commits, trip.version, trip.snap);
    }
  }

  lemma StartInLog(c: Cluster, r: Replica, base: Option<nat>)
    requires Inv(c) && Contiguous(c.log) && ReplicaOk(c.log, r) && (base.Some? ==> base.value in c.checkpoints)
    ensures StartVersion(r, base) <= |c.log| && Reaches(c.log, StartVersion(r, base)) && Held(c.log, StartVersion(r, base), StartState(c, r, base))
  {
    hide Inv, ReplicaOk, Held, StartState;
    StartHeld(c, r, base);
    HeldBound(c.log, StartVersion(r, base), StartState(c, r, base));
  }

  lemma TakesCatchUp(codec: Codec, c: Cluster, r: nat, t: nat, base: Option<nat>, listed: nat, objects: Objects) returns (d: Cluster)
    requires Reachable(c) && Represents(codec, objects, c) && r in c.replicas && CanReplay(c, c.replicas[r], base, listed, None)
    ensures Reachable(d) && Leads(c, d, r, Some(t)) && Represents(codec, objects, d) && d.log == c.log && r in d.replicas
    ensures d.replicas[r] == AfterCatchUp(c, c.replicas[r], base, listed)
    ensures d.replicas[r].tasks == c.replicas[r].tasks && d.replicas[r].known == c.replicas[r].known
  {
    hide Reachable, Leads, AfterCatchUp, Encodes, HoldsCheckpoint;
    assert Enabled(c, CatchUp(r, base, listed));
    OurStep(c, CatchUp(r, base, listed), r, t);
    CatchUpTouches(c, c.replicas[r], base, listed);
    d := Do(c, CatchUp(r, base, listed));
  }

  // ----- a beaten attempt -----

  function LostSoFar(r: Replica, t: nat): nat {
    if t in r.tasks && r.tasks[t].Lost? then |r.tasks[t].past.lost| else 0
  }

  predicate HasLost(r: Replica, t: nat, q: Request, n: nat) {
    if n == 0 then t !in r.tasks
    else t in r.tasks && r.tasks[t].Lost? && r.tasks[t].request == q && |r.tasks[t].past.lost| == n
  }

  /** Reading and building: the task is staged. */
  lemma Stages(codec: Codec, c: Cluster, r: nat, t: nat, q: Request, ids: seq<Id>, known: Known, at: Stores.Standing) returns (d: Cluster, task: Task)
    requires Coupled(codec, c, r, known, at) && MayRead(c.replicas[r], t, q) && BuildsCommit(q, ids, at.snap)
    ensures Coupled(codec, d, r, known, at) && Leads(c, d, r, Some(t))
    ensures HasTask(d, r, t) && d.replicas[r].tasks[t] == task && task.Staged?
    ensures task.entry == Entry(q, ids, Build(q, ids, at.snap).actions) && task.target == at.version + 1 && task.reply == Build(q, ids, at.snap).reply
    ensures |task.past.lost| == LostSoFar(c.replicas[r], t)
  {
    hide Reachable, Leads, Encodes, HoldsCheckpoint, Build, MayRead, Do, Enabled;
    StagingIsARead(c, r, t, q, ids);
    OurStep(c, Read(r, t, q, ids), r, t);
    task := StagedTask(c, r, t, q, ids);
    d := Do(c, Read(r, t, q, ids));
  }

  lemma Loses(codec: Codec, c: Cluster, r: nat, t: nat, known: Known, at: Stores.Standing, task: Task) returns (d: Cluster)
    requires Coupled(codec, c, r, known, at) && HasTask(c, r, t) && c.replicas[r].tasks[t] == task && task.Staged?
    requires task.target < U64_LIMIT && CommitKey(task.target) in at.objects
    ensures Coupled(codec, d, r, known, at) && Leads(c, d, r, Some(t)) && d.log == c.log
    ensures HasTask(d, r, t) && d.replicas[r].tasks[t] == Beaten(|c.log|, task)
  {
    hide Reachable, Leads, HoldsCheckpoint, Do, Enabled, CommitKey, CommitOf;
    LossIsAPut(c, r, t);
    OurStep(c, Put(r, t), r, t);
    d := Do(c, Put(r, t));
  }

  /** A round of the commit loop: the read, others, the put that loses, others, the catch-up. */
  lemma RoundIsOurs(codec: Codec, pc: PointerCodec, c: Cluster, r: nat, t: nat, q: Request, known: Known, at: Stores.Standing, round: Stores.Round)
      returns (d: Cluster)
    requires codec.Valid() && Coupled(codec, c, r, known, at) && MayRead(c.replicas[r], t, q)
    requires Stores.Beaten(codec, known, pc, true, q, at, round)
    requires ByOthers(codec, r, at.objects, round.seen) && ByOthers(codec, r, round.seen, round.trip.ended)
    ensures Coupled(codec, d, r, known, Stores.Arrived(round.trip)) && Leads(c, d, r, Some(t))
    ensures HasLost(d.replicas[r], t, q, LostSoFar(c.replicas[r], t) + 1)
    ensures round.trip.ok && LostSoFar(c.replicas[r], t) + 1 < MAX_COMMIT_ATTEMPTS ==> MayRead(d.replicas[r], t, q)
  {
    hide Represents, Reachable, Leads, ByOthers, Build, Stores.CaughtUp, Stores.Overtakes, CommitKey, MayRead, Extends;
    var c1, task := Stages(codec, c, r, t, q, round.ids, known, at);
    var c2 := OthersBetween(codec, c1, r, Some(t), known, at, round.seen);
    LeadsOn(c, c1, c2, r, Some(t));
    var c3 := Loses(codec, c2, r, t, known, at.(objects := round.seen), task);
    LeadsOn(c, c2, c3, r, Some(t));
    var c4 := OthersBetween(codec, c3, r, Some(t), known, at.(objects := round.seen), round.trip.ended);
    LeadsOn(c, c3, c4, r, Some(t));
    d := CatchUpIsOurs(codec, pc, c4, r, t, known, at.(objects := round.seen), round.trip);
    LeadsOn(c, c4, d, r, Some(t));
    if round.trip.ok && |task.past.lost| + 1 < MAX_COMMIT_ATTEMPTS { MayRetry(codec, known, pc, q, at, round, c2, d.replicas[r], t); }
  }

  lemma MayRetry(codec: Codec, known: Known, pc: PointerCodec, q: Request, at: Stores.Standing, round: Stores.Round, seen: Cluster, after: Replica, t: nat)
    requires Stores.Beaten(codec, known, pc, true, q, at, round) && round.trip.ok && after.version == round.trip.version
    requires Reachable(seen) && Represents(codec, round.seen, seen)
    requires t in after.tasks && after.tasks[t].Lost? && after.tasks[t].request == q
    requires after.tasks[t].past.head == |seen.log| && |after.tasks[t].past.lost| < MAX_COMMIT_ATTEMPTS
    ensures MayRead(after, t, q)
  {
    hide Reachable, Stores.CaughtUp, Stores.Overtakes, CommitKey, Encodes, HoldsCheckpoint, BuildsCommit;
    ReachableFacts(seen, 0);
    Stores.SeenOvertaken(codec, known, pc, Stores.Standing(round.seen, at.version, at.snap), round.trip);
    RetryIsEnabled(codec, round.seen, seen.log, after, t, q, after.tasks[t].past);
  }

  /** The others' doings during the rounds. */
  ghost predicate RoundsByOthers(codec: Codec, r: nat, from: Stores.Standing, rounds: seq<Stores.Round>) {
    rounds == [] ||
    var n := |rounds| - 1;
    && RoundsByOthers(codec, r, from, rounds[..n])
    && ByOthers(codec, r, Stores.StandsAfter(rounds[..n], from).objects, rounds[n].seen) && ByOthers(codec, r, rounds[n].seen, rounds[n].trip.ended)
  }

  /** All the rounds a call lost are steps of one task of the replica, with others' in between. */
  lemma {:induction false} RoundsAreOurs(codec: Codec, pc: PointerCodec, c: Cluster, r: nat, t: nat, q: Request, known: Known,
                                         from: Stores.Standing, rounds: seq<Stores.Round>) returns (d: Cluster)
    requires codec.Valid() && Coupled(codec, c, r, known, from) && t !in c.replicas[r].tasks
    requires Stores.Fought(codec, known, pc, true, q, from, rounds) && RoundsByOthers(codec, r, from, rounds) && |rounds| <= MAX_COMMIT_ATTEMPTS
    ensures Coupled(codec, d, r, known, Stores.StandsAfter(rounds, from)) && Leads(c, d, r, Some(t))
    ensures HasLost(d.replicas[r], t, q, |rounds|)
    ensures |rounds| < MAX_COMMIT_ATTEMPTS && (rounds != [] ==> rounds[|rounds| - 1].trip.ok) ==> MayRead(d.replicas[r], t, q)
    decreases |rounds|
  {
    hide Represents, Reachable, Leads, ByOthers, Stores.Beaten;
    if rounds == [] {
      d := c;
      LeadsNowhere(c, r, Some(t));
    } else {
      var n := |rounds| - 1;
      var b := RoundsAreOurs(codec, pc, c, r, t, q, known, from, rounds[..n]);
      d := RoundIsOurs(codec, pc, b, r, t, q, known, Stores.StandsAfter(rounds[..n], from), rounds[n]);
      LeadsOn(c, b, d, r, Some(t));
    }
  }

  // ----- the end of a call -----

  /** What the caller is told is how the task ended; a call that failed without a commit of its
      own leaves the task not begun or beaten. */
  predicate Tells(out: Stores.Outcome, r: Replica, t: nat) {
    match out
    case Done(reply, _) => t in r.tasks && r.tasks[t].Finished? && r.tasks[t].outcome == Answer(reply)
    case Rejected(error) => t in r.tasks && r.tasks[t].Finished? && r.tasks[t].outcome == Failure(error)
    case Failed(at) => if at.Some? then t in r.tasks && r.tasks[t].Finished? && r.tasks[t].outcome == Broken else t in r.tasks ==> r.tasks[t].Lost?
    case Contention => t in r.tasks && r.tasks[t].Finished? && r.tasks[t].outcome == Exhausted
  }

  lemma AnswersAreOurs(codec: Codec, c: Cluster, r: nat, t: nat, q: Request, ids: seq<Id>, known: Known, at: Stores.Standing) returns (d: Cluster)
    requires Coupled(codec, c, r, known, at) && MayRead(c.replicas[r], t, q) && q.WellFormed() && |ids| >= q.Demand()
    requires Build(q, ids, at.snap).Built? ==> Build(q, ids, at.snap).actions == []
    ensures Coupled(codec, d, r, known, at) && Leads(c, d, r, Some(t)) && t in d.replicas[r].tasks && d.replicas[r].tasks[t].Finished?
    ensures d.replicas[r].tasks[t].outcome ==
              match Build(q, ids, at.snap) case Refused(error) => Failure(error) case Built(_, reply) => Answer(reply)
  {
    hide Reachable, Leads, Encodes, HoldsCheckpoint, Build, MayRead, Do, Enabled, AfterRead;
    assert Begins(c, r, t, q, ids, at.version, at.snap);
    AnswerIsARead(c, r, t, q, ids, at.version, at.snap);
    OurStep(c, Read(r, t, q, ids), r, t);
    d := Do(c, Read(r, t, q, ids));
  }

  lemma GivesUp(codec: Codec, c: Cluster, r: nat, t: nat, q: Request, known: Known, at: Stores.Standing) returns (d: Cluster)
    requires Coupled(codec, c, r, known, at) && HasLost(c.replicas[r], t, q, MAX_COMMIT_ATTEMPTS)
    ensures Coupled(codec, d, r, known, at) && Leads(c, d, r, Some(t)) && Tells(Stores.Contention, d.replicas[r], t)
  {
    hide Reachable, Leads, Encodes, HoldsCheckpoint;
    assert Enabled(c, GiveUp(r, t));
    OurStep(c, GiveUp(r, t), r, t);
    d := Do(c, GiveUp(r, t));
  }

  /** A commit object created under the next key. */
  lemma CreatedIsNext(codec: Codec, objects: Objects, c: Cluster, d: Cluster, at: U64, info: CommitInfo, e: Entry)
    requires codec.Valid() && info.format == FORMAT_VERSION && Represents(codec, objects, c) && at !in c.log
    requires d.log == c.log[at := e] && d.checkpoints == c.checkpoints
    ensures Represents(codec, Stores.Created(codec, info, at, e.actions, objects), d)
  {
    hide Encodes, CommitKey, CheckpointKey, VersionFromKey, Framing.Text;
    EncodesNext(codec, objects, c.log, at, info, e);
    var after := Stores.Created(codec, info, at, e.actions, objects);
    forall v: U64 ensures CheckpointKey(v) != CommitKey(at) {
      CommitKeyRoundTrip(at);
      NotACommitKey(v);
    }
    forall v: U64 | v in d.checkpoints ensures HoldsCheckpoint(codec, after, v, d.checkpoints[v]) {
      assert HoldsCheckpoint(codec, objects, v, c.checkpoints[v]);
    }
  }

  lemma Lands(codec: Codec, c: Cluster, r: nat, t: nat, known: Known, at: Stores.Standing, task: Task, info: CommitInfo) returns (d: Cluster)
    requires codec.Valid() && info.format == FORMAT_VERSION
    requires Coupled(codec, c, r, known, at) && HasTask(c, r, t) && c.replicas[r].tasks[t] == task && task.Staged?
    requires task.target < U64_LIMIT && CommitKey(task.target) !in at.objects
    ensures Coupled(codec, d, r, known, at.(objects := Stores.Created(codec, info, task.target, task.entry.actions, at.objects)))
    ensures Leads(c, d, r, Some(t)) && HasTask(d, r, t) && d.replicas[r].tasks[t] == Landed(task.entry, task.target, task.reply)
  {
    hide Reachable, Leads, HoldsCheckpoint, Do, Enabled, CommitKey, CommitOf, Stores.Created;
    LandingIsAPut(c, r, t);
    OurStep(c, Put(r, t), r, t);
    d := Do(c, Put(r, t));
    CreatedIsNext(codec, at.objects, c, d, task.target, info, task.entry);
  }

  lemma SettlesOurs(codec: Codec, c: Cluster, r: nat, t: nat, known: Known, at: Stores.Standing, task: Task) returns (d: Cluster)
    requires Coupled(codec, c, r, known, at) && HasTask(c, r, t) && c.replicas[r].tasks[t] == task && task.Landed? && task.target == at.version + 1
    requires task.target < U64_LIMIT
    ensures var ok := AcceptsAll(known, task.entry.actions);
            && Coupled(codec, d, r, known, at.(version := if ok then task.target else at.version, snap := ApplyUpTo(known, at.snap, task.entry.actions)))
            && Leads(c, d, r, Some(t)) && HasTask(d, r, t) && d.replicas[r].tasks[t].Finished?
            && d.replicas[r].tasks[t].outcome == if ok then Answer(task.reply) else Broken
  {
    hide Reachable, Leads, Encodes, HoldsCheckpoint, AfterSettle, AcceptsAll, ApplyUpTo;
    assert Enabled(c, Settle(r, t));
    OurStep(c, Settle(r, t), r, t);
    SettlingIsAStep(c.replicas[r], t);
    d := Do(c, Settle(r, t));
  }

  /** A checkpoint: the dump, others, the body, others, the pointer. */
  lemma CheckpointIsOurs(codec: Codec, pc: PointerCodec, c: Cluster, r: nat, t: nat, known: Known, at: Stores.Standing, landing: Stores.Landing, now: Objects)
      returns (d: Cluster)
    requires Coupled(codec, c, r, known, at) && at.version > 0 && HasTask(c, r, t)
    requires Stores.Checkpointed(codec, pc, true, at.version, at.snap, at.objects, landing, now)
    requires ByOthers(codec, r, at.objects, landing.body)
    requires Typed(at.snap) ==> ByOthers(codec, r, BodyPut(codec, at.version, at.snap, landing.body), landing.pointer)
    ensures Coupled(codec, d, r, known, at.(objects := now)) && Leads(c, d, r, Some(t))
    ensures HasTask(d, r, t) && d.replicas[r].tasks[t] == c.replicas[r].tasks[t]
  {
    hide Reachable, Leads, Represents, ByOthers, Dump, Typed, Extends, BodyPut, PointerPut;
    var c1 := TakesDump(codec, c, r, t, known, at);
    var c2 := OthersBetween(codec, c1, r, Some(t), known, at, landing.body);
    LeadsOn(c, c1, c2, r, Some(t));
    var put := BodyPut(codec, at.version, at.snap, landing.body);
    var c3 := PutsBody(codec, c2, r, t, known, at.(objects := landing.body));
    LeadsOn(c, c2, c3, r, Some(t));
    d := OthersBetween(codec, c3, r, Some(t), known, at.(objects := put), landing.pointer);
    LeadsOn(c, c3, d, r, Some(t));
    PointsAt(codec, pc, d, at, landing.pointer);
  }

  lemma TakesDump(codec: Codec, c: Cluster, r: nat, t: nat, known: Known, at: Stores.Standing) returns (d: Cluster)
    requires Coupled(codec, c, r, known, at) && at.version > 0 && Typed(at.snap) && HasTask(c, r, t)
    ensures Coupled(codec, d, r, known, at) && Leads(c, d, r, Some(t)) && d.replicas[r].tasks == c.replicas[r].tasks
    ensures 0 in d.replicas[r].dumps && d.replicas[r].dumps[0] == Dumped(at.version, Dump(at.snap))
  {
    hide Reachable, Leads, Encodes, HoldsCheckpoint, Dump, Typed;
    assert Enabled(c, TakeDump(r, 0));
    OurStep(c, TakeDump(r, 0), r, t);
    d := Do(c, TakeDump(r, 0));
  }

  lemma PutsBody(codec: Codec, c: Cluster, r: nat, t: nat, known: Known, at: Stores.Standing) returns (d: Cluster)
    requires Coupled(codec, c, r, known, at) && Typed(at.snap) && HasTask(c, r, t)
    requires 0 in c.replicas[r].dumps && c.replicas[r].dumps[0] == Dumped(at.version, Dump(at.snap))
    ensures Coupled(codec, d, r, known, at.(objects := BodyPut(codec, at.version, at.snap, at.objects)))
    ensures Leads(c, d, r, Some(t)) && d.replicas[r].tasks == c.replicas[r].tasks
  {
    hide Reachable, Leads, Represents, Dump, Typed, BodyPut;
    assert Enabled(c, PutCheckpoint(r, 0));
    BodyIsAStep(codec, at.objects, c, r, 0, at.version, at.snap);
    OurStep(c, PutCheckpoint(r, 0), r, t);
    d := Do(c, PutCheckpoint(r, 0));
  }

  lemma PointsAt(codec: Codec, pc: PointerCodec, c: Cluster, at: Stores.Standing, objects: Objects)
    requires Typed(at.snap) && Represents(codec, objects, c)
    ensures Represents(codec, PointerPut(codec, pc, at.version, at.snap, objects), c)
  {
    hide Represents, Typed, PointerTo;
    PointerIsNoState(codec, objects, c, pc.print_(PointerTo(codec, at.version, at.snap)));
  }

  // ----- a whole call -----

  ghost predicate LandingByOthers(codec: Codec, r: nat, info: CommitInfo, q: Request, ids: seq<Id>, at: Stores.Standing, landing: Stores.Landing, now: Stores.Standing)
    requires BuildsCommit(q, ids, at.snap) && at.version + 1 < U64_LIMIT
  {
    && ByOthers(codec, r, at.objects, landing.seen)
    && ByOthers(codec, r, Stores.Created(codec, info, at.version + 1, Build(q, ids, at.snap).actions, landing.seen), landing.body)
    && (Typed(now.snap) ==> ByOthers(codec, r, BodyPut(codec, at.version + 1, now.snap, landing.body), landing.pointer))
  }

  /** A commit that landed: the read, others, the put that wins, the settling, and perhaps a
      checkpoint. */
  lemma LandingIsOurs(codec: Codec, pc: PointerCodec, c: Cluster, r: nat, t: nat, info: CommitInfo, q: Request, ids: seq<Id>, known: Known,
                      out: Stores.Outcome, at: Stores.Standing, landing: Stores.Landing, now: Stores.Standing) returns (d: Cluster)
    requires codec.Valid() && info.format == FORMAT_VERSION && Coupled(codec, c, r, known, at) && MayRead(c.replicas[r], t, q)
    requires Stores.Durable(out) && Stores.Settled(codec, known, pc, info, q, ids, out, at, landing, now)
    requires LandingByOthers(codec, r, info, q, ids, at, landing, now)
    ensures Coupled(codec, d, r, known, now) && Leads(c, d, r, Some(t)) && Tells(out, d.replicas[r], t)
  {
    hide Represents, Reachable, Leads, ByOthers, Build, Stores.Created, CommitKey, MayRead, Extends, Stores.Checkpointed, AcceptsAll, ApplyUpTo, Typed, BodyPut;
    var c1, task := Stages(codec, c, r, t, q, ids, known, at);
    var c2 := OthersBetween(codec, c1, r, Some(t), known, at, landing.seen);
    LeadsOn(c, c1, c2, r, Some(t));
    var created := Stores.Created(codec, info, at.version + 1, Build(q, ids, at.snap).actions, landing.seen);
    var c3 := Lands(codec, c2, r, t, known, at.(objects := landing.seen), task, info);
    LeadsOn(c, c2, c3, r, Some(t));
    var c4 := SettlesOurs(codec, c3, r, t, known, at.(objects := created), c3.replicas[r].tasks[t]);
    LeadsOn(c, c3, c4, r, Some(t));
    d := c4;
    if out.Done? && (at.version + 1) % Stores.CHECKPOINT_INTERVAL == 0 {
      d := CheckpointIsOurs(codec, pc, c4, r, t, known, now.(objects := created), landing, now.objects);
      LeadsOn(c, c4, d, r, Some(t));
    } else {
      NoCheckpoint(codec, pc, at.version + 1, now.snap, created, landing, now.objects);
    }
  }

  lemma NoCheckpoint(codec: Codec, pc: PointerCodec, at: U64, s: State, created: Objects, landing: Stores.Landing, now: Objects)
    requires Stores.Checkpointed(codec, pc, false, at, s, created, landing, now)
    ensures now == created
  {
  }

  /** What came from others while the call was under way is what others can bring. */
  ghost predicate CallByOthers(codec: Codec, r: nat, info: CommitInfo, q: Request, ids: seq<Id>, out: Stores.Outcome,
                               from: Stores.Standing, rounds: seq<Stores.Round>, landing: Stores.Landing, now: Stores.Standing) {
    && RoundsByOthers(codec, r, from, rounds)
    && var at := Stores.StandsAfter(rounds, from);
       Stores.Durable(out) && BuildsCommit(q, ids, at.snap) && at.version + 1 < U64_LIMIT ==> LandingByOthers(codec, r, info, q, ids, at, landing, now)
  }

  lemma AttemptIsOurs(codec: Codec, pc: PointerCodec, c: Cluster, r: nat, t: nat, info: CommitInfo, q: Request, ids: seq<Id>, known: Known,
                      out: Stores.Outcome, at: Stores.Standing, landing: Stores.Landing, now: Stores.Standing) returns (d: Cluster)
    requires codec.Valid() && info.format == FORMAT_VERSION && Coupled(codec, c, r, known, at) && MayRead(c.replicas[r], t, q)
    requires Stores.Attempted(codec, known, pc, info, q, ids, out, at, landing, now)
    requires Stores.Durable(out) && BuildsCommit(q, ids, at.snap) && at.version + 1 < U64_LIMIT ==> LandingByOthers(codec, r, info, q, ids, at, landing, now)
    ensures Coupled(codec, d, r, known, now) && Leads(c, d, r, Some(t)) && Tells(out, d.replicas[r], t)
  {
    hide Represents, Reachable, Leads, ByOthers, Build, LandingByOthers, Stores.Settled;
    if Stores.Durable(out) {
      SettledBuilds(codec, known, pc, info, q, ids, out, at, landing, now);
      d := LandingIsOurs(codec, pc, c, r, t, info, q, ids, known, out, at, landing, now);
    } else if out.Failed? {
      d := c;
      LeadsNowhere(c, r, Some(t));
    } else {
      d := AnswersAreOurs(codec, c, r, t, q, ids, known, at);
    }
  }

  lemma SettledBuilds(codec: Codec, known: Known, pc: PointerCodec, info: CommitInfo, q: Request, ids: seq<Id>, out: Stores.Outcome,
                      at: Stores.Standing, landing: Stores.Landing, now: Stores.Standing)
    requires Stores.Durable(out) && Stores.Settled(codec, known, pc, info, q, ids, out, at, landing, now)
    ensures BuildsCommit(q, ids, at.snap) && at.version + 1 < U64_LIMIT
  {
    hide Build, Stores.Checkpointed, CommitKey, Extends, ApplyUpTo, AcceptsAll;
  }

  /** A call of commit, from its first read to its end, is steps of one task of the replica. */
  lemma CommitIsOurs(codec: Codec, pc: PointerCodec, c: Cluster, r: nat, t: nat, info: CommitInfo, q: Request, ids: seq<Id>, known: Known,
                     out: Stores.Outcome, from: Stores.Standing, rounds: seq<Stores.Round>, landing: Stores.Landing, now: Stores.Standing)
      returns (d: Cluster)
    requires codec.Valid() && info.format == FORMAT_VERSION && Coupled(codec, c, r, known, from) && t !in c.replicas[r].tasks
    requires Stores.Fought(codec, known, pc, true, q, from, rounds)
    requires Stores.Finished(codec, known, pc, info, q, ids, out, from, rounds, landing, now)
    requires CallByOthers(codec, r, info, q, ids, out, from, rounds, landing, now)
    ensures Coupled(codec, d, r, known, now) && Leads(c, d, r, Some(t)) && Tells(out, d.replicas[r], t)
  {
    hide Represents, Reachable, Leads, RoundsByOthers, LandingByOthers, Stores.Attempted, Stores.Fought, BuildsCommit, MayRead;
    var b := RoundsAreOurs(codec, pc, c, r, t, q, known, from, rounds);
    if rounds != [] && !rounds[|rounds| - 1].trip.ok {
      d := b;
    } else if out.Contention? {
      d := GivesUp(codec, b, r, t, q, known, now);
      LeadsOn(c, b, d, r, Some(t));
    } else {
      d := AttemptIsOurs(codec, pc, b, r, t, info, q, ids, known, out, Stores.StandsAfter(rounds, from), landing, now);
      LeadsOn(c, b, d, r, Some(t));
    }
  }

  /** What one call of commit does to the cluster. */
  ghost predicate CommitEndsIn(codec: Codec, c: Cluster, r: nat, t: nat, known: Known, out: Stores.Outcome, now: Stores.Standing) {
    exists d :: Leads(c, d, r, Some(t)) && Coupled(codec, d, r, known, now) && Tells(out, d.replicas[r], t)
  }

  /** `Store::commit` on a store that is replica r of a run. Whatever other replicas bring into
      the log meanwhile, the objects it leaves represent a cluster of a run, reached by steps of
      this one call with the others' between them; the store is where the replica is there, and
      the caller is told what the task is. */
  method CommitStore(store: Stores.Store, q: Request, info: CommitInfo, draws: seq<seq<Id>>, ghost c: Cluster, ghost r: nat, ghost t: nat)
      returns (out: Stores.Outcome, ghost ids: seq<Id>, ghost rounds: seq<Stores.Round>, ghost landing: Stores.Landing)
    requires store.Valid() && store.codec.Valid() && store.log.honest && info.format == FORMAT_VERSION
    requires q.WellFormed() && |draws| == MAX_COMMIT_ATTEMPTS && forall d | d in draws :: |d| >= q.Demand()
    requires Coupled(store.codec, c, r, store.snap.known, Stores.Standing(store.log.objects, store.version, store.snap.Contents()))
    requires t !in c.replicas[r].tasks
    modifies store, store.snap, store.log
    ensures store.Valid()
    ensures var from := old(Stores.Standing(store.log.objects, store.version, store.snap.Contents()));
            var now := Stores.Standing(store.log.objects, store.version, store.snap.Contents());
            CallByOthers(store.codec, r, info, q, ids, out, from, rounds, landing, now) ==>
              CommitEndsIn(store.codec, c, r, t, store.snap.known, out, now)
  {
    hide Coupled, CallByOthers, CommitEndsIn, Stores.Fought, Stores.Finished, Stores.Healthy, Stores.ReadsWhatItWrites, Later, Sound;
    ghost var from := Stores.Standing(store.log.objects, store.version, store.snap.Contents());
    out, ids, rounds, landing := store.Commit(q, info, draws);
    ghost var now := Stores.Standing(store.log.objects, store.version, store.snap.Contents());
    if CallByOthers(store.codec, r, info, q, ids, out, from, rounds, landing, now) {
      CommitEnds(store.codec, store.pc, c, r, t, info, q, ids, store.snap.known, out, from, rounds, landing, now);
    }
  }

  lemma CommitEnds(codec: Codec, pc: PointerCodec, c: Cluster, r: nat, t: nat, info: CommitInfo, q: Request, ids: seq<Id>, known: Known,
                   out: Stores.Outcome, from: Stores.Standing, rounds: seq<Stores.Round>, landing: Stores.Landing, now: Stores.Standing)
    requires codec.Valid() && info.format == FORMAT_VERSION && Coupled(codec, c, r, known, from) && t !in c.replicas[r].tasks
    requires Stores.Fought(codec, known, pc, true, q, from, rounds)
    requires Stores.Finished(codec, known, pc, info, q, ids, out, from, rounds, landing, now)
    requires CallByOthers(codec, r, info, q, ids, out, from, rounds, landing, now)
    ensures CommitEndsIn(codec, c, r, t, known, out, now)
  {
    hide Coupled, CallByOthers, Stores.Fought, Stores.Finished, Leads, Tells;
    var d := CommitIsOurs(codec, pc, c, r, t, info, q, ids, known, out, from, rounds, landing, now);
  }

  // ----- catching up and opening -----

  /** A catch-up that succeeds leaves a version, no more and no less, and at least the head of
      the log when its start had been chosen; also from a snapshot that was torn, and from a
      checkpoint of one. */
  lemma GoodTripIsWhole(codec: Codec, pc: PointerCodec, c: Cluster, d: Cluster, r: nat, known: Known, from: Stores.Standing, trip: Stores.Trip)
    requires codec.Valid() && Stores.CaughtUp(codec, known, pc, from, trip) && trip.ok && Stores.Overtakes(trip)
    requires Coupled(codec, c, r, known, from.(objects := trip.mid)) && Leads(c, d, r, None)
    requires Coupled(codec, d, r, known, from.(objects := trip.ended))
    ensures Contiguous(c.log) && Contiguous(d.log) && |c.log| <= trip.version && WholeAt(d.log, trip.version, trip.snap)
  {
    hide Leads, Coupled, Reachable, Represents, Stores.CaughtUp, Stores.Overtakes, Stores.StartsAt, Stores.Follows, Stores.Applied, Stores.CommitsAccepted;
    hide WholeAt, Held, Contiguous, Reaches;
    CoupledLog(codec, c, r, known, from.(objects := trip.mid));
    Overtaken(codec, c, trip);
    LeadsKeeps(c, d, r, None, trip.base, trip.start);
    TripParts(codec, known, pc, from, trip);
    TripStartHeld(codec, pc, c, r, known, from.(objects := trip.mid), trip.base, trip.start);
    if trip.version == trip.base {
      HeldBoundOnly(c.log, trip.base, trip.start);
      HeldAtHead(c.log, trip.start);
    } else {
      CoupledLog(codec, d, r, known, from.(objects := trip.ended));
      TripStartHeld(codec, pc, d, r, known, from.(objects := trip.ended), trip.base, trip.start);
      TripIsWhole(codec, d, trip.base, trip.start, trip.commits, trip.ended);
    }
  }

  lemma CoupledLog(codec: Codec, c: Cluster, r: nat, known: Known, at: Stores.Standing)
    requires Coupled(codec, c, r, known, at)
    ensures Reachable(c) && Represents(codec, at.objects, c)
  {
  }

  lemma TripParts(codec: Codec, known: Known, pc: PointerCodec, from: Stores.Standing, trip: Stores.Trip)
    requires Stores.CaughtUp(codec, known, pc, from, trip) && trip.ok
    ensures Stores.StartsAt(codec, known, pc, trip.mid, from.version, from.snap, trip.base, trip.start)
    ensures Stores.StartsAt(codec, known, pc, trip.ended, from.version, from.snap, trip.base, trip.start)
    ensures Stores.Follows(codec, trip.ended, trip.base, trip.commits) && trip.version == trip.base + |trip.commits|
    ensures Stores.CommitsAccepted(known, trip.commits) && trip.snap == Stores.Applied(trip.start, trip.commits)
    ensures trip.commits == [] ==> trip.snap == trip.start
  {
    hide Stores.StartsAt, Stores.Follows, Stores.CommitsAccepted, Extends;
    Stores.StartsLater(codec, known, pc, trip.mid, trip.ended, from.version, from.snap, trip.base, trip.start);
  }

  lemma HeldBoundOnly(log: Log, v: nat, s: State)
    requires Contiguous(log) && Held(log, v, s)
    ensures v <= |log|
  {
    hide Held;
    HeldBound(log, v, s);
  }

  lemma Overtaken(codec: Codec, c: Cluster, trip: Stores.Trip)
    requires Reachable(c) && Represents(codec, trip.mid, c) && Stores.Overtakes(trip)
    ensures Contiguous(c.log) && |c.log| <= trip.version
  {
    hide Reachable, Encodes, HoldsCheckpoint, CommitKey;
    ReachableFacts(c, 0);
    HeadIs(codec, trip.mid, c.log, trip.version);
  }

  lemma TripStartHeld(codec: Codec, pc: PointerCodec, c: Cluster, r: nat, known: Known, at: Stores.Standing, base: U64, start: State)
    requires codec.Valid() && Coupled(codec, c, r, known, at) && Stores.StartsAt(codec, known, pc, at.objects, at.version, at.snap, base, start)
    ensures Contiguous(c.log) && Held(c.log, base, start) && Reaches(c.log, base)
  {
    hide Represents, Reachable, Stores.StartsAt, Held, Inv, ReplicaOk, AllDumps, StartState, LogOk;
    ReachableFacts(c, r);
    var adopted := StartIsTheSteps(codec, pc, at.objects, c, c.replicas[r], base, start);
    StartInLog(c, c.replicas[r], adopted);
  }

  lemma TripIsWhole(codec: Codec, d: Cluster, base: U64, start: State, commits: seq<Commit>, objects: Objects)
    requires Reachable(d) && Represents(codec, objects, d) && Stores.Follows(codec, objects, base, commits) && commits != []
    requires Contiguous(d.log) && Held(d.log, base, start) && Reaches(d.log, base)
    ensures WholeAt(d.log, base + |commits|, Stores.Applied(start, commits))
  {
    hide Reachable, Encodes, HoldsCheckpoint, Stores.Follows, Stores.Applied, Held, WholeAt, ReplayFrom, LogOk;
    ReachableFacts(d, 0);
    AppliedIsReplay(codec, objects, d.log, base, start, commits);
    InLog(d.log, base + |commits|);
    HeldReplay(d.log, start, base, base + |commits|);
  }

  /** What a catch-up does to the cluster. */
  ghost predicate TripEndsIn(codec: Codec, c: Cluster, r: nat, t: nat, known: Known, ok: bool, now: Stores.Standing)
    requires r in c.replicas
  {
    exists d :: Leads(c, d, r, Some(t)) && Coupled(codec, d, r, known, now) && CaughtUpIn(c, d, r, ok, now)
  }

  ghost predicate CaughtUpIn(c: Cluster, d: Cluster, r: nat, ok: bool, now: Stores.Standing)
    requires r in c.replicas
  {
    && r in d.replicas && d.replicas[r].tasks == c.replicas[r].tasks
    && Contiguous(d.log) && now.version <= |d.log| && (ok ==> |c.log| <= now.version && WholeAt(d.log, now.version, now.snap))
  }

  lemma TripIsOurs(codec: Codec, pc: PointerCodec, c: Cluster, r: nat, t: nat, known: Known, from: Stores.Standing, trip: Stores.Trip)
    requires codec.Valid() && Coupled(codec, c, r, known, from) && Stores.CaughtUp(codec, known, pc, from, trip)
    requires trip.ok ==> Stores.Overtakes(trip)
    requires ByOthers(codec, r, from.objects, trip.mid) && ByOthers(codec, r, trip.mid, trip.ended)
    ensures TripEndsIn(codec, c, r, t, known, trip.ok, Stores.Arrived(trip))
  {
    hide Represents, Reachable, Leads, ByOthers, Stores.CaughtUp, Stores.Overtakes, WholeAt;
    var c1 := OthersBetween(codec, c, r, None, known, from, trip.mid);
    var c2 := OthersBetween(codec, c1, r, None, known, from.(objects := trip.mid), trip.ended);
    LeadsAmong(c, c1, r, Some(t));
    LeadsAmong(c1, c2, r, Some(t));
    LeadsOn(c, c1, c2, r, Some(t));
    var d := CatchUpIsOurs(codec, pc, c2, r, t, known, from, trip);
    LeadsOn(c, c2, d, r, Some(t));
    if trip.ok { GoodTripIsWhole(codec, pc, c1, c2, r, known, from, trip); }
    VersionInLog(d, r);
  }

  lemma VersionInLog(c: Cluster, r: nat)
    requires Reachable(c) && r in c.replicas
    ensures Contiguous(c.log) && c.replicas[r].version <= |c.log|
  {
    hide Reachable, Held, WholeAt, TaskOk;
    ReachableFacts(c, r);
    InPlace(c.log, c.replicas[r]);
  }

  /** `Store::catch_up` on a store that is replica r: still one, and after success at a version
      of the log, whole, and not behind the head there was at the start. */
  method RefreshStore(store: Stores.Store, ghost c: Cluster, ghost r: nat, ghost t: nat) returns (ok: bool, ghost trip: Stores.Trip)
    requires store.Valid() && store.codec.Valid() && store.log.honest
    requires Coupled(store.codec, c, r, store.snap.known, Stores.Standing(store.log.objects, store.version, store.snap.Contents()))
    modifies store, store.snap, store.log
    ensures store.Valid()
    ensures ByOthers(store.codec, r, old(store.log.objects), trip.mid) && ByOthers(store.codec, r, trip.mid, store.log.objects) ==>
              TripEndsIn(store.codec, c, r, t, store.snap.known, ok, Stores.Standing(store.log.objects, store.version, store.snap.Contents()))
  {
    hide Represents, Reachable, ByOthers, TripEndsIn, Stores.CaughtUp, Stores.Overtakes, Stores.Healthy, Stores.Base, Later, Sound;
    ghost var from := Stores.Standing(store.log.objects, store.version, store.snap.Contents());
    ok, trip := store.CatchUp();
    if ByOthers(store.codec, r, from.objects, trip.mid) && ByOthers(store.codec, r, trip.mid, store.log.objects) {
      TripIsOurs(store.codec, store.pc, c, r, t, store.snap.known, from, trip);
    }
  }

  lemma BootIsAStep(codec: Codec, objects: Objects, c: Cluster, r: nat, known: Known)
    requires Reachable(c) && Represents(codec, objects, c)
    ensures Enabled(c, Boot(r, known)) && Coupled(codec, Do(c, Boot(r, known)), r, known, Stores.Standing(objects, 0, EMPTY))
    ensures Do(c, Boot(r, known)) == c.(replicas := c.replicas[r := Fresh(known)])
  {
    hide Reachable, Encodes, HoldsCheckpoint;
    ReachableStep(c, Boot(r, known));
  }

  /** Over a log that stands still, opening succeeds only by decoding all there is to read. */
  lemma QuietOpenDecodes(codec: Codec, pc: PointerCodec, c: Cluster, known: Known, objects: Objects, trip: Stores.Trip)
    requires codec.Valid() && Reachable(c) && Represents(codec, objects, c)
    requires Stores.CaughtUp(codec, known, pc, Stores.Standing(objects, 0, EMPTY), trip) && trip.mid == objects == trip.ended
    requires trip.ok && Stores.Overtakes(trip) && trip.base == Stores.Base(pc, objects, 0)
    ensures Adopted(pc, objects).Some? ==> Adopted(pc, objects).value in c.checkpoints
    ensures Contiguous(c.log) && Decodes(c, known, Adopted(pc, objects)) && trip.version == |c.log| && WholeAt(c.log, |c.log|, trip.snap)
  {
    hide Reachable, Represents, Inv, AllDumps, LogOk, Stores.StartsAt, Stores.Follows, Stores.Applied, Stores.CommitsAccepted, Stores.Overtakes, Stores.CaughtUp;
    hide Adopted, Decodes, AfterCatchUp, WholeAt, CanReplay, SameStart, Stores.Base, Held, StateOf, Load, AcceptsAll, Contiguous, Reaches, StartState;
    ReachableFacts(c, 0);
    ResolvesToCheckpoint(codec, known, pc, objects, c);
    TripParts(codec, known, pc, Stores.Standing(objects, 0, EMPTY), trip);
    var adopted := StartIsTheSteps(codec, pc, objects, c, Fresh(known), trip.base, trip.start);
    AdoptsIt(pc, objects, c, adopted);
    CanOpen(c, known, adopted);
    Overtaken(codec, c, trip);
    RepresentedLog(codec, objects, c);
    StartsInLog(c, known, adopted, trip.base, trip.start);
    CatchUpIsAStep(codec, objects, c, Fresh(known), adopted, trip.base, trip.start, trip.commits);
    InStep(c, Fresh(known), adopted, trip.version);
    OpensAtHead(c, known, adopted);
    OpenedIsWhole(c, known, adopted);
  }

  lemma StartsInLog(c: Cluster, known: Known, base: Option<nat>, from: U64, start: State)
    requires Contiguous(c.log) && SameStart(c, Fresh(known), base, from, start) && StartVersion(Fresh(known), base) <= |c.log|
    ensures Reaches(c.log, from)
  {
    hide StartState;
    InLog(c.log, from);
  }

  lemma InStep(c: Cluster, r: Replica, base: Option<nat>, upto: nat)
    requires Contiguous(c.log) && CanReplay(c, r, base, upto, None)
    ensures upto <= |c.log|
  {
    InLog(c.log, upto);
  }

  lemma AdoptsIt(pc: PointerCodec, objects: Objects, c: Cluster, adopted: Option<nat>)
    requires Inv(c) && (adopted.None? || adopted == Adopted(pc, objects))
    requires Adopted(pc, objects).Some? ==> Adopted(pc, objects).value in c.checkpoints
    requires Stores.Base(pc, objects, 0) != 0 ==> adopted.Some?
    ensures adopted == Adopted(pc, objects)
  {
    hide LogOk, Held, Load, ReplicaOk, Resolve;
  }

  /** `Store::open` over objects that represent a cluster of a run, with anything at all under
      `_last_checkpoint`: the new store is a replica booted there and caught up, whatever others
      write meanwhile, and after success whole at a version not behind the head there was. If
      nobody writes, it succeeds exactly when the build can decode what it has to read. */
  method OpenStore(log: MemoryLog, codec: Codec, pc: PointerCodec, known: Known, ghost c: Cluster, ghost r: nat)
      returns (store: Stores.Store, ok: bool, ghost trip: Stores.Trip)
    requires codec.Valid() && log.honest && Reachable(c) && Represents(codec, log.objects, c)
    modifies log
    ensures fresh(store) && fresh(store.snap) && store.Valid()
    ensures store.log == log && store.codec == codec && store.pc == pc && store.snap.known == known
    ensures Enabled(c, Boot(r, known))
    ensures ByOthers(codec, r, old(log.objects), trip.mid) && ByOthers(codec, r, trip.mid, log.objects) ==>
              TripEndsIn(codec, c.(replicas := c.replicas[r := Fresh(known)]), r, 0, known, ok,
                         Stores.Standing(log.objects, store.version, store.snap.Contents()))
    ensures old(log.others) == [] ==>
              && log.objects == old(log.objects)
              && (Adopted(pc, log.objects).Some? ==> Adopted(pc, log.objects).value in c.checkpoints)
              && (ok <==> Decodes(c, known, Adopted(pc, log.objects)))
              && (ok ==> Contiguous(c.log) && store.version == |c.log| && WholeAt(c.log, |c.log|, store.snap.Contents()))
  {
    hide Represents, Reachable, ByOthers, TripEndsIn, Stores.CaughtUp, Stores.Overtakes, Stores.Healthy, Stores.Base, Later, Stores.Store.Valid, Decodes, WholeAt, Adopted;
    hide AllDumps, Inv, LogOk;
    ghost var objects, schedule := log.objects, log.others;
    ReachableFacts(c, 0);
    BootIsAStep(codec, objects, c, r, known);
    ResolvesToCheckpoint(codec, known, pc, objects, c);
    store, ok, trip := Stores.Open(log, codec, pc, known);
    if ByOthers(codec, r, objects, trip.mid) && ByOthers(codec, r, trip.mid, log.objects) {
      TripIsOurs(codec, pc, Do(c, Boot(r, known)), r, 0, known, Stores.Standing(objects, 0, EMPTY), trip);
    }
    if schedule == [] {
      LaterQuiet(objects, log.objects, log.others);
      if ok {
        QuietTrip(codec, known, pc, objects, trip);
        QuietOpenDecodes(codec, pc, c, known, objects, trip);
      } else if Decodes(c, known, Adopted(pc, objects)) {
        DecodesIsHealthy(codec, known, pc, objects, c);
      }
    }
  }

  lemma QuietTrip(codec: Codec, known: Known, pc: PointerCodec, objects: Objects, trip: Stores.Trip)
    requires Stores.CaughtUp(codec, known, pc, Stores.Standing(objects, 0, EMPTY), trip) && trip.ended == objects
    ensures trip.mid == objects
  {
    hide Stores.StartsAt, Stores.Follows, Stores.Applied, Stores.Interrupted, Stores.CommitsAccepted;
  }

  // ----- the others' commits are what others can bring -----

  lemma {:induction false} SameFold(codec: Codec, objects: Objects, a: Log, b: Log, v: nat)
    requires Encodes(codec, objects, a) && Encodes(codec, objects, b) && Reaches(a, v)
    ensures Reaches(b, v) && Fold(a, v) == Fold(b, v)
  {
    hide CommitKey, CommitOf, AfterAll;
    if v > 0 {
      SameFold(codec, objects, a, b, v - 1);
      assert v in a && v < U64_LIMIT;
      assert EncodesAt(codec, objects, a, v) && EncodesAt(codec, objects, b, v);
    }
  }

  /** A closure's answer on the head of the log, put at the next version, is one. */
  lemma CommitIsByOthers(codec: Codec, r: nat, objects: Objects, c: Cluster, info: CommitInfo, q: Request, ids: seq<Id>)
    requires codec.Valid() && info.format == FORMAT_VERSION && Reachable(c) && Contiguous(c.log) && Represents(codec, objects, c)
    requires !q.DropColumns? && BuildsCommit(q, ids, Fold(c.log, |c.log|)) && |c.log| + 1 < U64_LIMIT
    ensures ByOthers(codec, r, objects, Stores.Created(codec, info, |c.log| + 1, Build(q, ids, Fold(c.log, |c.log|)).actions, objects))
  {
    hide Represents, Reachable, Leads, Build, Fold, Stores.Created;
    var after := Stores.Created(codec, info, |c.log| + 1, Build(q, ids, Fold(c.log, |c.log|)).actions, objects);
    forall b | Reachable(b) && Represents(codec, objects, b) ensures exists d :: Leads(b, d, r, None) && Represents(codec, after, d) {
      SameHead(codec, objects, b, c);
      var d := OtherCommits(codec, r, objects, b, info, q, ids);
    }
    ByOthersIntro(codec, r, objects, after);
  }

  lemma SameHead(codec: Codec, objects: Objects, b: Cluster, c: Cluster)
    requires Reachable(b) && Reachable(c) && Represents(codec, objects, b) && Represents(codec, objects, c)
    ensures Contiguous(b.log) && Contiguous(c.log) && |b.log| == |c.log| && Fold(b.log, |b.log|) == Fold(c.log, |c.log|)
  {
    hide Reachable, Encodes, HoldsCheckpoint, Fold;
    ReachableFacts(b, 0);
    ReachableFacts(c, 0);
    SameFold(codec, objects, b.log, c.log, |b.log|);
    SameFold(codec, objects, c.log, b.log, |c.log|);
    InLog(b.log, |c.log|);
    InLog(c.log, |b.log|);
  }

  lemma OtherStep(c: Cluster, step: Step, r: nat)
    requires Reachable(c) && Enabled(c, step) && step.replica != r
    ensures Reachable(Do(c, step)) && Leads(c, Do(c, step), r, None)
  {
    hide Reachable, Enabled, Do;
    ReachableStep(c, step);
    LeadsByOne(c, step, r, None);
  }

  lemma EntriesReadable(c: Cluster)
    requires Inv(c)
    ensures Decodes(c, Upgrades.ALL, None)
  {
    hide Inv, LogOk, Fold, AfterAll, Guard;
    InvFacts(c, 0);
    LogIsGuarded(c.log, |c.log|);
    forall v | v in c.log ensures AcceptsAll(Upgrades.ALL, c.log[v].actions) {
      assert GuardedEntry(c.log, v, GUARDED);
      forall a | a in c.log[v].actions ensures Accepts(Upgrades.ALL, a) {
        var i :| 0 <= i < |c.log[v].actions| && c.log[v].actions[i] == a;
        GuardedAt(Fold(c.log, v - 1), c.log[v].actions, i, GUARDED);
      }
    }
  }

  /** A replica that was not there boots, with a build that reads everything, and catches up. */
  lemma OtherAtHead(codec: Codec, objects: Objects, c: Cluster, n: nat, r: nat) returns (d: Cluster)
    requires Reachable(c) && Represents(codec, objects, c) && n != r
    ensures Reachable(d) && Leads(c, d, r, None) && Represents(codec, objects, d) && d.log == c.log && d.checkpoints == c.checkpoints
    ensures Contiguous(d.log) && n in d.replicas && d.replicas[n].tasks == map[]
    ensures d.replicas[n].version == |d.log| && WholeAt(d.log, |d.log|, d.replicas[n].snap)
  {
    hide Reachable, Leads, Encodes, HoldsCheckpoint, AfterCatchUp, Inv, LogOk, AllDumps, WholeAt, Decodes, CanReplay, ReplicaOk;
    var c1 := Do(c, Boot(n, Upgrades.ALL));
    OtherStep(c, Boot(n, Upgrades.ALL), r);
    ReachableFacts(c1, 0);
    EntriesReadable(c1);
    OpensAtHead(c1, Upgrades.ALL, None);
    OpenedIsWhole(c1, Upgrades.ALL, None);
    CatchesUp(c1, n);
    CatchUpTouches(c1, Fresh(Upgrades.ALL), None, |c1.log|);
    OtherStep(c1, CatchUp(n, None, |c1.log|), r);
    d := Do(c1, CatchUp(n, None, |c1.log|));
    LeadsOn(c, c1, d, r, None);
  }

  lemma CatchesUp(c: Cluster, n: nat)
    requires n in c.replicas && c.replicas[n] == Fresh(Upgrades.ALL) && CanReplay(c, Fresh(Upgrades.ALL), None, |c.log|, None)
    ensures Enabled(c, CatchUp(n, None, |c.log|))
  {
  }

  /** Then it reads and puts. */
  lemma OtherCommits(codec: Codec, r: nat, objects: Objects, c: Cluster, info: CommitInfo, q: Request, ids: seq<Id>) returns (d: Cluster)
    requires codec.Valid() && info.format == FORMAT_VERSION && Reachable(c) && Contiguous(c.log) && Represents(codec, objects, c)
    requires !q.DropColumns? && BuildsCommit(q, ids, Fold(c.log, |c.log|)) && |c.log| + 1 < U64_LIMIT
    ensures Leads(c, d, r, None)
    ensures Represents(codec, Stores.Created(codec, info, |c.log| + 1, Build(q, ids, Fold(c.log, |c.log|)).actions, objects), d)
  {
    hide Represents, Reachable, Leads, Build, Fold, Stores.Created, WholeAt, MayRead, Enabled, Do, LogOk, Inv, AllDumps;
    var n := r + 1;
    var c1 := OtherAtHead(codec, objects, c, n, r);
    ReachableFacts(c1, 0);
    WholeAnswers(c1.log, |c1.log|, c1.replicas[n].snap, q, ids);
    MayReadFirst(c1, n, q);
    StagingIsARead(c1, n, 0, q, ids);
    OtherStep(c1, Read(n, 0, q, ids), r);
    var task := StagedTask(c1, n, 0, q, ids);
    var c2 := Do(c1, Read(n, 0, q, ids));
    LeadsOn(c, c1, c2, r, None);
    InLog(c2.log, |c2.log| + 1);
    LandingIsAPut(c2, n, 0);
    OtherStep(c2, Put(n, 0), r);
    d := Do(c2, Put(n, 0));
    LeadsOn(c, c2, d, r, None);
    SameObjects(codec, objects, c1, c2);
    CreatedIsNext(codec, objects, c2, d, task.target, info, task.entry);
  }

  lemma MayReadFirst(c: Cluster, n: nat, q: Request)
    requires n in c.replicas && c.replicas[n].tasks == map[]
    ensures MayRead(c.replicas[n], 0, q)
  {
  }

  lemma SameObjects(codec: Codec, objects: Objects, c: Cluster, d: Cluster)
    requires Represents(codec, objects, c) && d.log == c.log && d.checkpoints == c.checkpoints
    ensures Represents(codec, objects, d)
  {
    hide Encodes, HoldsCheckpoint;
  }

  /** So is whatever is put under `_last_checkpoint`. */
  lemma PointerIsByOthers(codec: Codec, r: nat, objects: Objects, bytes: seq<Byte>)
    ensures ByOthers(codec, r, objects, objects[LAST_CHECKPOINT_KEY := bytes])
  {
    hide Represents, Reachable, Leads;
    forall c | Reachable(c) && Represents(codec, objects, c)
      ensures exists d :: Leads(c, d, r, None) && Represents(codec, objects[LAST_CHECKPOINT_KEY := bytes], d)
    {
      LeadsNowhere(c, r, None);
      PointerIsNoState(codec, objects, c, bytes);
    }
    ByOthersIntro(codec, r, objects, objects[LAST_CHECKPOINT_KEY := bytes]);
  }

  /** And a checkpoint of the head. */
  lemma CheckpointIsByOthers(codec: Codec, r: nat, objects: Objects, c: Cluster, s: State)
    requires Reachable(c) && Contiguous(c.log) && Represents(codec, objects, c) && 0 < |c.log| < U64_LIMIT
    requires Typed(s) && s.rows == Fold(c.log, |c.log|).rows
    ensures ByOthers(codec, r, objects, BodyPut(codec, |c.log|, s, objects))
  {
    hide Represents, Reachable, Leads, Fold, BodyPut, Typed;
    var after := BodyPut(codec, |c.log|, s, objects);
    forall b | Reachable(b) && Represents(codec, objects, b) ensures exists d :: Leads(b, d, r, None) && Represents(codec, after, d) {
      SameHead(codec, objects, b, c);
      var d := OtherCheckpoints(codec, r, objects, b, s);
    }
    ByOthersIntro(codec, r, objects, after);
  }

  lemma OtherCheckpoints(codec: Codec, r: nat, objects: Objects, c: Cluster, s: State) returns (d: Cluster)
    requires Reachable(c) && Contiguous(c.log) && Represents(codec, objects, c) && 0 < |c.log| < U64_LIMIT
    requires Typed(s) && s.rows == Fold(c.log, |c.log|).rows
    ensures Leads(c, d, r, None) && Represents(codec, BodyPut(codec, |c.log|, s, objects), d)
  {
    hide Represents, Reachable, Leads, Fold, BodyPut, Typed, Dump, Enabled, Do, WholeAt;
    var n := r + 1;
    var c1 := OtherAtHead(codec, objects, c, n, r);
    HeadDump(c1, c1.replicas[n].snap, s);
    DumpingIsAStep(c1, n);
    OtherStep(c1, TakeDump(n, 0), r);
    var c2 := Do(c1, TakeDump(n, 0));
    LeadsOn(c, c1, c2, r, None);
    SameObjects(codec, objects, c1, c2);
    OtherStep(c2, PutCheckpoint(n, 0), r);
    d := Do(c2, PutCheckpoint(n, 0));
    LeadsOn(c, c2, d, r, None);
    BodyIsAStep(codec, objects, c2, n, 0, |c.log|, s);
  }

  lemma HeadDump(c: Cluster, snap: State, s: State)
    requires Contiguous(c.log) && WholeAt(c.log, |c.log|, snap) && Typed(s) && s.rows == Fold(c.log, |c.log|).rows
    ensures Typed(snap) && Dump(snap) == Dump(s)
  {
    hide Fold, Lines, GuardedTo, NoStale, Complete;
  }

  lemma DumpingIsAStep(c: Cluster, n: nat)
    requires n in c.replicas && c.replicas[n].version > 0 && Typed(c.replicas[n].snap)
    ensures Enabled(c, TakeDump(n, 0))
    ensures var d := Do(c, TakeDump(n, 0));
            && d.log == c.log && d.checkpoints == c.checkpoints && n in d.replicas && 0 in d.replicas[n].dumps
            && d.replicas[n].dumps[0] == Dumped(c.replicas[n].version, Dump(c.replicas[n].snap)) && Enabled(d, PutCheckpoint(n, 0))
  {
    hide Dump, Typed;
  }
}
