/** The commit protocol as a state machine: any number of replicas, any number of tasks on
    each, over one log that offers only atomic create-if-absent.

    A step is one access to the log or one critical section of a replica's lock. Between a
    task's steps every other task of every replica may take any number of its own. */
module Protocol {
  import opened Wrappers
  import opened Model
  import opened Snapshots
  import opened Replay
  import opened Repos
  import opened Guards
  import opened Checkpoints
  import opened Tracking

  datatype Outcome = Answer(reply: Reply) | Failure(error: Error) | Broken | Exhausted

  /** What a call of `commit` has been through: the length of the log and the version of its
      snapshot when it first read, the versions it lost since, and the length of the log when
      it lost the last. Only the number of losses matters to the code. */
  datatype Past = Past(begun: nat, first: nat, lost: seq<nat>, head: nat)

  /** A call of `commit` between its awaits. A finished call remembers the version it was
      built at, when the snapshot it read was a whole one. */
  datatype Task =
    | Staged(entry: Entry, target: nat, reply: Reply, past: Past)  // built, about to PUT
    | Landed(entry: Entry, target: nat, reply: Reply)              // created, about to apply locally
    | Lost(request: Request, past: Past)                           // beaten, about to catch up and read again
    | Finished(request: Request, ids: seq<Id>, at: Option<nat>, outcome: Outcome)

  /** The lines of a checkpoint taken under the lock and not yet written. */
  datatype Dumped = Dumped(version: nat, lines: seq<Action>)

  /** `known` is what the build running on this replica can decode; a rolling upgrade runs
      several. `torn` is set while a refused action may have left part of a commit in the
      snapshot. */
  datatype Replica = Replica(snap: State, version: nat, torn: bool, tasks: map<nat, Task>, dumps: map<nat, Dumped>, known: Known)

  function Fresh(known: Known): Replica {
    Replica(EMPTY, 0, false, map[], map[], known)
  }

  datatype Cluster = Cluster(log: Log, checkpoints: map<nat, seq<Action>>, replicas: map<nat, Replica>)

  const GENESIS := Cluster(map[], map[], map[])

  // ----- steps -----

  datatype Step =
    | Boot(replica: nat, known: Known)
    | Read(replica: nat, task: nat, request: Request, ids: seq<Id>)
    | Put(replica: nat, task: nat)
    | Settle(replica: nat, task: nat)
    | CatchUp(replica: nat, base: Option<nat>, listed: nat)
    | GiveUp(replica: nat, task: nat)
    | TakeDump(replica: nat, slot: nat)
    | PutCheckpoint(replica: nat, slot: nat)
    | Abandon(replica: nat, task: nat)

  predicate HasTask(c: Cluster, r: nat, t: nat) {
    r in c.replicas && t in c.replicas[r].tasks
  }

  /** The snapshot a catch-up starts from: at version 0 a checkpoint may be adopted. Which
      one the advisory `_last_checkpoint` names, if any, is left open. */
  function StartState(c: Cluster, r: Replica, base: Option<nat>): State
    requires base.Some? ==> base.value in c.checkpoints
  {
    if r.version == 0 && base.Some? then Load(c.checkpoints[base.value]) else r.snap
  }

  function StartVersion(r: Replica, base: Option<nat>): nat {
    if r.version == 0 && base.Some? then base.value else r.version
  }

  /** A call that lost reads again only after a catch-up of its own, begun after the loss,
      has come to an end; and eight losses are enough. */
  predicate MayRead(r: Replica, t: nat, q: Request) {
    t in r.tasks ==>
      var task := r.tasks[t];
      task.Lost? && task.request == q && |task.past.lost| < MAX_COMMIT_ATTEMPTS && r.version >= task.past.head
  }

  predicate Enabled(c: Cluster, step: Step) {
    match step
    case Boot(r, known) => true
    case Read(r, t, q, ids) => r in c.replicas && q.WellFormed() && |ids| >= q.Demand() && MayRead(c.replicas[r], t, q)
    case Put(r, t) => HasTask(c, r, t) && c.replicas[r].tasks[t].Staged?
    case Settle(r, t) => HasTask(c, r, t) && c.replicas[r].tasks[t].Landed?
    case CatchUp(r, base, listed) =>
      && r in c.replicas && (base.Some? ==> base.value in c.checkpoints)
      && StartVersion(c.replicas[r], base) <= listed && Reaches(c.log, listed)
    case GiveUp(r, t) =>
      HasTask(c, r, t) && c.replicas[r].tasks[t].Lost? && |c.replicas[r].tasks[t].past.lost| >= MAX_COMMIT_ATTEMPTS
    case TakeDump(r, d) => r in c.replicas && c.replicas[r].version > 0 && Typed(c.replicas[r].snap)
    case PutCheckpoint(r, d) => r in c.replicas && d in c.replicas[r].dumps
    case Abandon(r, t) => r in c.replicas
  }

  function WithTask(r: Replica, t: nat, task: Task): Replica {
    r.(tasks := r.tasks[t := task])
  }

  function PastOf(r: Replica, t: nat, head: nat): Past {
    if t in r.tasks && r.tasks[t].Lost? then r.tasks[t].past else Past(head, r.version, [], 0)
  }

  /** `head` is the length of the log at this moment; the code does not see it. */
  function AfterRead(head: nat, r: Replica, t: nat, q: Request, ids: seq<Id>): Replica
    requires q.WellFormed() && |ids| >= q.Demand()
  {
    var at := if r.torn then None else Some(r.version);
    match Build(q, ids, r.snap)
    case Refused(error) => WithTask(r, t, Finished(q, ids, at, Failure(error)))
    case Built(actions, reply) =>
      if actions == [] then WithTask(r, t, Finished(q, ids, at, Answer(reply)))
      else WithTask(r, t, Staged(Entry(q, ids, actions), r.version + 1, reply, PastOf(r, t, head)))
  }

  function Beaten(head: nat, task: Task): Task
    requires task.Staged?
  {
    Lost(task.entry.request, task.past.(lost := task.past.lost + [task.target], head := head))
  }

  function Completed(task: Task, outcome: Outcome): Task
    requires task.Landed?
  {
    Finished(task.entry.request, task.entry.ids, if task.target > 0 then Some(task.target - 1) else None, outcome)
  }

  /** Applying one's own commit: only when the snapshot is still next in line. An action the
      build refuses stops it part way with the version unchanged. */
  function AfterSettle(r: Replica, t: nat): Replica
    requires t in r.tasks && r.tasks[t].Landed?
  {
    var task := r.tasks[t];
    if r.version + 1 != task.target then WithTask(r, t, Completed(task, Answer(task.reply)))
    else if Accepted(r.known, task.entry.actions) < |task.entry.actions| then
      WithTask(r.(snap := ApplyUpTo(r.known, r.snap, task.entry.actions), torn := true), t, Completed(task, Broken))
    else
      WithTask(r.(snap := AfterAll(r.snap, task.entry.actions), version := task.target, torn := false),
               t, Completed(task, Answer(task.reply)))
  }

  predicate CanReplay(c: Cluster, r: Replica, base: Option<nat>, upto: nat, stop: Option<nat>) {
    && (base.Some? ==> base.value in c.checkpoints)
    && StartVersion(r, base) <= upto && Reaches(c.log, upto)
    && (stop.Some? ==> upto + 1 in c.log && stop.value <= |c.log[upto + 1].actions|)
  }

  /** Replaying up to a version, and perhaps some actions of the commit after it. */
  function AfterReplay(c: Cluster, r: Replica, base: Option<nat>, upto: nat, stop: Option<nat>): Replica
    requires CanReplay(c, r, base, upto, stop)
  {
    var s' := ReplayFrom(c.log, StartState(c, r, base), StartVersion(r, base), upto);
    match stop
    case Some(i) => r.(snap := AfterAll(s', c.log[upto + 1].actions[..i]), version := upto, torn := true)
    case None =>
      var adopted := r.version == 0 && base.Some?;
      r.(snap := s', version := upto,
         torn := upto == StartVersion(r, base) && (r.torn || adopted) && upto + 1 in c.log)
  }

  /** How far a build gets through the commits from+1..listed. */
  function Reached(log: Log, known: Known, from: nat, listed: nat): (v: nat)
    requires from <= listed && Reaches(log, listed)
    ensures from <= v <= listed
    ensures forall u: nat | from < u <= v :: AcceptsAll(known, log[u].actions)
    ensures v < listed ==> !AcceptsAll(known, log[v + 1].actions)
    decreases listed
  {
    if listed == from then from
    else
      var v := Reached(log, known, from, listed - 1);
      if v == listed - 1 && AcceptsAll(known, log[listed].actions) then listed else v
  }

  /** A replica holds its write lock for the whole of `catch_up`, so the other tasks see only
      the result. A checkpoint the build cannot decode leaves everything as it was. Else it
      applies what was listed, up to the first action it refuses. */
  function AfterCatchUp(c: Cluster, r: Replica, base: Option<nat>, listed: nat): Replica
    requires CanReplay(c, r, base, listed, None)
  {
    if r.version == 0 && base.Some? && !AcceptsAll(r.known, c.checkpoints[base.value]) then r
    else
      var upto := Reached(c.log, r.known, StartVersion(r, base), listed);
      AfterReplay(c, r, base, upto, if upto == listed then None else Some(Accepted(r.known, c.log[upto + 1].actions)))
  }

  /** Where a catch-up stops, and what it leaves there. */
  lemma CatchUpShape(c: Cluster, r: Replica, base: Option<nat>, listed: nat)
    requires CanReplay(c, r, base, listed, None) && (r.version == 0 && base.Some? ==> AcceptsAll(r.known, c.checkpoints[base.value]))
    ensures var u := Reached(c.log, r.known, StartVersion(r, base), listed);
            var s := ReplayFrom(c.log, StartState(c, r, base), StartVersion(r, base), u);
            && AfterCatchUp(c, r, base, listed).version == u
            && AfterCatchUp(c, r, base, listed).snap == if u == listed then s else ApplyUpTo(r.known, s, c.log[u + 1].actions)
  {
    hide ReplayFrom, StartState, AfterAll, AcceptsAll, Load, Accepted;
  }

  lemma CatchUpTouches(c: Cluster, r: Replica, base: Option<nat>, listed: nat)
    requires CanReplay(c, r, base, listed, None)
    ensures var after := AfterCatchUp(c, r, base, listed); after.tasks == r.tasks && after.dumps == r.dumps && after.known == r.known
  {
    hide ReplayFrom, Load, AfterAll, AcceptsAll;
  }

  lemma ReachesListed(log: Log, known: Known, from: nat, listed: nat)
    requires from <= listed && Reaches(log, listed) && forall u: nat | from < u <= listed :: AcceptsAll(known, log[u].actions)
    ensures Reached(log, known, from, listed) == listed
  {
  }

  function Do(c: Cluster, step: Step): Cluster
    requires Enabled(c, step)
  {
    match step
    case Boot(r, known) => c.(replicas := c.replicas[r := Fresh(known)])
    case Read(r, t, q, ids) => c.(replicas := c.replicas[r := AfterRead(|c.log|, c.replicas[r], t, q, ids)])
    case Put(r, t) =>
      var task := c.replicas[r].tasks[t];
      if task.target in c.log
      then c.(replicas := c.replicas[r := WithTask(c.replicas[r], t, Beaten(|c.log|, task))])
      else c.(log := c.log[task.target := task.entry],
              replicas := c.replicas[r := WithTask(c.replicas[r], t, Landed(task.entry, task.target, task.reply))])
    case Settle(r, t) => c.(replicas := c.replicas[r := AfterSettle(c.replicas[r], t)])
    case CatchUp(r, base, listed) => c.(replicas := c.replicas[r := AfterCatchUp(c, c.replicas[r], base, listed)])
    case GiveUp(r, t) =>
      c.(replicas := c.replicas[r := WithTask(c.replicas[r], t, Finished(c.replicas[r].tasks[t].request, [], None, Exhausted))])
    case TakeDump(r, d) =>
      var replica := c.replicas[r];
      c.(replicas := c.replicas[r := replica.(dumps := replica.dumps[d := Dumped(replica.version, Dump(replica.snap))])])
    case PutCheckpoint(r, d) =>
      var replica := c.replicas[r];
      var dump := replica.dumps[d];
      Cluster(c.log, if dump.version in c.checkpoints then c.checkpoints else c.checkpoints[dump.version := dump.lines],
              c.replicas[r := replica.(dumps := replica.dumps - {d})])
    case Abandon(r, t) => c.(replicas := c.replicas[r := c.replicas[r].(tasks := c.replicas[r].tasks - {t})])
  }

  // ----- the invariant -----

  /** The outcome is what the sequential store answers at version `at`; a call that had
      something to write is entry `at + 1`, and the replica has reached it. */
  ghost predicate OutcomeOk(log: Log, version: nat, q: Request, ids: seq<Id>, at: nat, outcome: Outcome)
    requires Contiguous(log)
  {
    at <= |log| && q.WellFormed() && |ids| >= q.Demand() &&
    (Determined(log, at, q) ==>
       match Build(q, ids, Fold(log, at))
       case Refused(error) => outcome == Failure(error)
       case Built(actions, reply) =>
         && (outcome == Answer(reply) || (outcome == Broken && actions != []))
         && (actions != [] ==> at < |log| && log[at + 1] == Entry(q, ids, actions))
         && (actions != [] && outcome.Answer? ==> at < version))
  }

  /** Losses rise, are of versions that are taken, and after the first, of versions that were
      not taken when the call began. */
  ghost predicate PastOk(log: Log, past: Past) {
    && past.begun <= |log| && past.head <= |log|
    && (past.lost != [] ==> past.begun <= past.head && past.lost[0] == past.first + 1)
    && (forall i | 0 <= i < |past.lost| :: past.first < past.lost[i] <= past.head)
    && (forall i | 1 <= i < |past.lost| :: past.begun < past.lost[i])
    && (forall i, j | 0 <= i < j < |past.lost| :: past.lost[i] < past.lost[j])
  }

  ghost predicate TaskOk(log: Log, version: nat, task: Task)
    requires Contiguous(log)
  {
    match task
    case Staged(entry, target, reply, past) =>
      && entry.request.WellFormed() && 1 <= target <= version + 1 && target <= |log| + 1
      && PastOk(log, past) && |past.lost| < MAX_COMMIT_ATTEMPTS
      && (if past.lost == [] then target == past.first + 1 else target > past.head)
      && (target == |log| + 1 ==> AnswersWith(log, target - 1, entry, reply))
    case Landed(entry, target, reply) =>
      1 <= target <= |log| && log[target] == entry && target <= version + 1 && AnswersWith(log, target - 1, entry, reply)
    case Lost(request, past) => request.WellFormed() && PastOk(log, past) && 0 < |past.lost| <= MAX_COMMIT_ATTEMPTS
    case Finished(q, ids, at, outcome) => at.Some? ==> OutcomeOk(log, version, q, ids, at.value, outcome)
  }

  ghost predicate ReplicaOk(log: Log, r: Replica)
    requires Contiguous(log)
  {
    && Held(log, r.version, r.snap)
    && (!r.torn ==> WholeAt(log, r.version, r.snap))
    && (forall t | t in r.tasks :: TaskOk(log, r.version, r.tasks[t]))
    && (forall d | d in r.dumps :: r.dumps[d].version > 0 && Held(log, r.dumps[d].version, Load(r.dumps[d].lines)))
  }

  ghost predicate Inv(c: Cluster) {
    && LogOk(c.log)
    && (forall v | v in c.checkpoints :: v > 0 && Held(c.log, v, Load(c.checkpoints[v])))
    && (forall r | r in c.replicas :: ReplicaOk(c.log, c.replicas[r]))
  }

  // ----- an entry more disturbs nothing -----

  lemma AppendKeepsTask(log: Log, e: Entry, version: nat, task: Task)
    requires Contiguous(log) && TaskOk(log, version, task)
    ensures Contiguous(Appended(log, e)) && TaskOk(Appended(log, e), version, task)
  {
    hide Appended, AnswersAt, Build, Fold, GuardedTo;
    AppendedIsContiguous(log, e);
    match task
    case Staged(entry, target, reply, _) =>
    case Landed(entry, target, reply) => AnswersKept(log, e, target - 1, entry, reply);
    case Finished(q, ids, at, _) =>
      if at.Some? {
        AnswersKept(log, e, at.value, Entry(q, ids, []), Unit);
        FoldKept(log, e, at.value);
      }
    case _ =>
  }

  lemma AppendKeepsReplica(log: Log, e: Entry, r: Replica)
    requires Contiguous(log) && ReplicaOk(log, r)
    ensures Contiguous(Appended(log, e)) && ReplicaOk(Appended(log, e), r)
  {
    hide Appended, TaskOk, Held, WholeAt;
    AppendedIsContiguous(log, e);
    AppendKeepsHeld(log, e, r.version, r.snap);
    if !r.torn { AppendKeepsWhole(log, e, r.version, r.snap); }
    forall t | t in r.tasks ensures TaskOk(Appended(log, e), r.version, r.tasks[t]) {
      AppendKeepsTask(log, e, r.version, r.tasks[t]);
    }
    forall d | d in r.dumps ensures Held(Appended(log, e), r.dumps[d].version, Load(r.dumps[d].lines)) {
      AppendKeepsHeld(log, e, r.dumps[d].version, Load(r.dumps[d].lines));
    }
  }

  // ----- every step keeps the invariant -----

  lemma WithTaskOk(log: Log, r: Replica, t: nat, task: Task)
    requires Contiguous(log) && ReplicaOk(log, r) && TaskOk(log, r.version, task)
    ensures ReplicaOk(log, WithTask(r, t, task))
  {
    hide Held, WholeAt, TaskOk, Fold;
  }

  lemma InPlace(log: Log, r: Replica)
    requires Contiguous(log) && ReplicaOk(log, r)
    ensures Held(log, r.version, r.snap) && r.version <= |log| && (!r.torn ==> WholeAt(log, r.version, r.snap))
  {
    hide WholeAt, TaskOk, Tracks, GuardedTo;
    HeldBound(log, r.version, r.snap);
  }

  /** A whole snapshot answers as the fold does. */
  lemma SameAnswer(log: Log, r: Replica, q: Request, ids: seq<Id>)
    requires LogOk(log) && Contiguous(log) && ReplicaOk(log, r) && q.WellFormed() && |ids| >= q.Demand()
    requires (!r.torn || r.version == |log|) && Determined(log, r.version, q)
    ensures r.version <= |log| && Build(q, ids, r.snap) == Build(q, ids, Fold(log, r.version))
  {
    hide Build, LogOk, Held, WholeAt, Fold, TaskOk;
    InPlace(log, r);
    if r.version == |log| { HeldAtHead(log, r.snap); }
    WholeAnswers(log, r.version, r.snap, q, ids);
  }

  lemma WholeAnswers(log: Log, v: nat, s: State, q: Request, ids: seq<Id>)
    requires LogOk(log) && Contiguous(log) && WholeAt(log, v, s) && q.WellFormed() && |ids| >= q.Demand()
    requires Determined(log, v, q)
    ensures Build(q, ids, s) == Build(q, ids, Fold(log, v))
  {
    hide Build, LogOk, Fold, Coherent;
    FoldTrusted(log, v);
    TrustedIsCoherent(Fold(log, v));
    if q.DropColumns? { GuardedCoherent(log, v, COLUMNS); }
    BuildDependsOnRows(q, ids, s, Fold(log, v));
  }

  /** Dropping columns answers with removals of columns and nothing else, tidy log or not. */
  lemma DropAnswers(q: Request, ids: seq<Id>, s: State)
    requires q.DropColumns?
    ensures q.WellFormed() && |ids| >= q.Demand() && Build(q, ids, s).Built? && Build(q, ids, s).reply == Unit
    ensures forall a | a in Build(q, ids, s).actions :: a.Remove? && a.kind == Column
  {
  }

  lemma PastStays(log: Log, r: Replica, t: nat, q: Request)
    requires Contiguous(log) && ReplicaOk(log, r) && MayRead(r, t, q)
    ensures var past := PastOf(r, t, |log|);
            && PastOk(log, past) && |past.lost| < MAX_COMMIT_ATTEMPTS
            && (if past.lost == [] then past.first == r.version else past.head <= r.version)
  {
    hide Held, WholeAt, AnswersWith;
    if t in r.tasks { assert TaskOk(log, r.version, r.tasks[t]); }
  }

  lemma StagedOk(log: Log, r: Replica, t: nat, q: Request, ids: seq<Id>)
    requires LogOk(log) && Contiguous(log) && ReplicaOk(log, r) && q.WellFormed() && |ids| >= q.Demand() && MayRead(r, t, q)
    requires Build(q, ids, r.snap).Built? && Build(q, ids, r.snap).actions != []
    ensures var b := Build(q, ids, r.snap);
            TaskOk(log, r.version, Staged(Entry(q, ids, b.actions), r.version + 1, b.reply, PastOf(r, t, |log|)))
  {
    hide Build, LogOk, Held, WholeAt, Fold, ReplicaOk, MayRead, PastOf, PastOk;
    InPlace(log, r);
    PastStays(log, r, t, q);
    if r.version == |log| {
      if Determined(log, r.version, q) { SameAnswer(log, r, q, ids); } else { DropAnswers(q, ids, r.snap); }
    }
  }

  lemma ReadKeeps(log: Log, r: Replica, t: nat, q: Request, ids: seq<Id>)
    requires LogOk(log) && Contiguous(log) && ReplicaOk(log, r) && q.WellFormed() && |ids| >= q.Demand() && MayRead(r, t, q)
    ensures ReplicaOk(log, AfterRead(|log|, r, t, q, ids))
  {
    hide Build, Fold, LogOk, ReplicaOk, Held, WholeAt, WithTask, PastOf, MayRead, AnswersWith, GuardedTo;
    InPlace(log, r);
    if !r.torn && Determined(log, r.version, q) { SameAnswer(log, r, q, ids); }
    var at := if r.torn then None else Some(r.version);
    match Build(q, ids, r.snap)
    case Refused(error) => WithTaskOk(log, r, t, Finished(q, ids, at, Failure(error)));
    case Built(actions, reply) =>
      if actions == [] {
        WithTaskOk(log, r, t, Finished(q, ids, at, Answer(reply)));
      } else {
        StagedOk(log, r, t, q, ids);
        WithTaskOk(log, r, t, Staged(Entry(q, ids, actions), r.version + 1, reply, PastOf(r, t, |log|)));
      }
  }

  /** A replica whose snapshot moved on keeps its tasks, their targets being no further away. */
  lemma MovedOk(log: Log, r: Replica, s: State, v: nat, torn: bool)
    requires Contiguous(log) && ReplicaOk(log, r) && r.version <= v
    requires Held(log, v, s) && (!torn ==> WholeAt(log, v, s))
    ensures ReplicaOk(log, r.(snap := s, version := v, torn := torn))
  {
    hide Held, WholeAt, Fold, AnswersWith, Build, PastOk;
    forall t | t in r.tasks ensures TaskOk(log, v, r.tasks[t]) {
      assert TaskOk(log, r.version, r.tasks[t]);
    }
  }

  lemma CompletedOk(log: Log, version: nat, task: Task, outcome: Outcome)
    requires Contiguous(log) && task.Landed? && TaskOk(log, version, task)
    requires outcome == Broken || (outcome == Answer(task.reply) && task.target <= version)
    ensures TaskOk(log, version, Completed(task, outcome))
  {
    hide Build, Fold, GuardedTo;
  }

  lemma LandedAhead(log: Log, r: Replica, t: nat, v: nat)
    requires Contiguous(log) && ReplicaOk(log, r) && t in r.tasks && r.tasks[t].Landed? && r.version <= v
    ensures TaskOk(log, v, r.tasks[t]) && r.tasks[t].target in log && r.tasks[t].target <= r.version + 1
    ensures log[r.tasks[t].target] == r.tasks[t].entry
  {
    hide Held, WholeAt, Fold, AnswersWith;
    assert TaskOk(log, r.version, r.tasks[t]);
  }

  lemma SettleKeeps(log: Log, r: Replica, t: nat)
    requires LogOk(log) && Contiguous(log) && ReplicaOk(log, r) && t in r.tasks && r.tasks[t].Landed?
    ensures ReplicaOk(log, AfterSettle(r, t))
  {
    hide Fold, AfterAll, LogOk, Held, WholeAt, TaskOk, ReplicaOk, WithTask, Completed;
    var task := r.tasks[t];
    LandedAhead(log, r, t, r.version);
    InPlace(log, r);
    if r.version + 1 != task.target {
      CompletedOk(log, r.version, task, Answer(task.reply));
      WithTaskOk(log, r, t, Completed(task, Answer(task.reply)));
    } else if Accepted(r.known, task.entry.actions) < |task.entry.actions| {
      var s := ApplyUpTo(r.known, r.snap, task.entry.actions);
      HeldInterrupted(log, r.version, r.snap, Accepted(r.known, task.entry.actions));
      MovedOk(log, r, s, r.version, true);
      CompletedOk(log, r.version, task, Broken);
      WithTaskOk(log, r.(snap := s, torn := true), t, Completed(task, Broken));
    } else {
      var s := AfterAll(r.snap, task.entry.actions);
      OneReplayed(log, r.snap, r.version);
      HeldReplayStays(log, r.snap, r.version, task.target);
      MovedOk(log, r, s, task.target, false);
      LandedAhead(log, r, t, task.target);
      CompletedOk(log, task.target, task, Answer(task.reply));
      WithTaskOk(log, r.(snap := s, version := task.target, torn := false), t, Completed(task, Answer(task.reply)));
    }
  }

  lemma OneReplayed(log: Log, s: State, v: nat)
    requires Reaches(log, v + 1)
    ensures ReplayFrom(log, s, v, v + 1) == AfterAll(s, log[v + 1].actions)
  {
  }

  lemma StartHeld(c: Cluster, r: Replica, base: Option<nat>)
    requires Inv(c) && ReplicaOk(c.log, r) && (base.Some? ==> base.value in c.checkpoints)
    ensures Held(c.log, StartVersion(r, base), StartState(c, r, base)) && r.version <= StartVersion(r, base)
  {
    hide Held, WholeAt, EntryOk, Fold, Load, TaskOk;
  }

  lemma InLog(log: Log, v: nat)
    requires Contiguous(log)
    ensures Reaches(log, v) <==> v <= |log|
  {
    assert v > 0 && Reaches(log, v) ==> v in log;
  }

  /** Replaying keeps the invariant, wherever it stops; when it ends without an error the
      snapshot is whole, unless nothing was left to replay over one that was torn or came
      from a checkpoint. */
  lemma ReplayKeeps(c: Cluster, r: Replica, base: Option<nat>, upto: nat, stop: Option<nat>)
    requires Inv(c) && Contiguous(c.log) && ReplicaOk(c.log, r) && CanReplay(c, r, base, upto, stop)
    ensures ReplicaOk(c.log, AfterReplay(c, r, base, upto, stop))
  {
    hide Held, WholeAt, LogOk, Fold, AfterAll, ReplayFrom, Load, ReplicaOk, StartState, Inv;
    InvFacts(c, 0);
    InLog(c.log, upto);
    var s, from := StartState(c, r, base), StartVersion(r, base);
    var s' := ReplayFrom(c.log, s, from, upto);
    StartHeld(c, r, base);
    HeldReplayStays(c.log, s, from, upto);
    if stop.Some? {
      HeldInterrupted(c.log, upto, s', stop.value);
      MovedOk(c.log, r, AfterAll(s', c.log[upto + 1].actions[..stop.value]), upto, true);
    } else {
      var torn := AfterReplay(c, r, base, upto, None).torn;
      if !torn && upto == from && upto < |c.log| {
        NothingReplayed(c.log, s, from);
        InPlace(c.log, r);
        StartWhole(c, r, base);
      }
      MovedOk(c.log, r, s', upto, torn);
    }
  }

  lemma StartWhole(c: Cluster, r: Replica, base: Option<nat>)
    requires Contiguous(c.log) && ReplicaOk(c.log, r) && !(r.version == 0 && base.Some?) && !r.torn
    requires base.Some? ==> base.value in c.checkpoints
    ensures WholeAt(c.log, StartVersion(r, base), StartState(c, r, base))
  {
    hide Held, WholeAt, TaskOk;
  }

  lemma CatchUpKeeps(c: Cluster, r: Replica, base: Option<nat>, listed: nat)
    requires Inv(c) && Contiguous(c.log) && ReplicaOk(c.log, r) && CanReplay(c, r, base, listed, None)
    ensures ReplicaOk(c.log, AfterCatchUp(c, r, base, listed))
  {
    hide Inv, ReplicaOk, AfterReplay, ReplayFrom;
    if !(r.version == 0 && base.Some? && !AcceptsAll(r.known, c.checkpoints[base.value])) {
      var upto := Reached(c.log, r.known, StartVersion(r, base), listed);
      ReplayKeeps(c, r, base, upto, if upto == listed then None else Some(Accepted(r.known, c.log[upto + 1].actions)));
    }
  }

  /** Replacing one replica by an acceptable one keeps the invariant. */
  lemma ReplicaReplaced(c: Cluster, r: nat, replica: Replica)
    requires Inv(c) && Contiguous(c.log) && ReplicaOk(c.log, replica)
    ensures Inv(c.(replicas := c.replicas[r := replica]))
  {
    hide EntryOk, ReplicaOk, Held;
  }

  lemma PutWins(c: Cluster, r: nat, t: nat)
    requires Inv(c) && Contiguous(c.log) && Enabled(c, Put(r, t)) && c.replicas[r].tasks[t].target !in c.log
    ensures Inv(Do(c, Put(r, t)))
  {
    hide LogOk, Fold, AnswersAt, Load, Held, WholeAt, ReplicaOk;
    var replica := c.replicas[r];
    var task := replica.tasks[t];
    StagedFacts(c, r, t);
    assert Appended(c.log, task.entry) == c.log[task.target := task.entry];
    AppendedIsContiguous(c.log, task.entry);
    AppendKeepsLog(c.log, task.entry);
    forall v | v in c.checkpoints ensures Held(Appended(c.log, task.entry), v, Load(c.checkpoints[v])) {
      AppendKeepsHeld(c.log, task.entry, v, Load(c.checkpoints[v]));
    }
    forall q | q in c.replicas ensures ReplicaOk(Appended(c.log, task.entry), c.replicas[q]) {
      AppendKeepsReplica(c.log, task.entry, c.replicas[q]);
    }
    var between := c.(log := Appended(c.log, task.entry));
    AnswersKept(c.log, task.entry, |c.log|, task.entry, task.reply);
    WithTaskOk(between.log, replica, t, Landed(task.entry, task.target, task.reply));
    ReplicaReplaced(between, r, WithTask(replica, t, Landed(task.entry, task.target, task.reply)));
  }

  /** A free target is the next version of the log, and what was staged answers there. */
  lemma StagedFacts(c: Cluster, r: nat, t: nat)
    requires Inv(c) && Contiguous(c.log) && Enabled(c, Put(r, t)) && c.replicas[r].tasks[t].target !in c.log
    ensures var task := c.replicas[r].tasks[t];
            && task.target == |c.log| + 1 && task.target <= c.replicas[r].version + 1
            && AnswersWith(c.log, |c.log|, task.entry, task.reply)
    ensures LogOk(c.log)
  {
    hide LogOk, Fold, AnswersAt, Load, Held, WholeAt;
    assert ReplicaOk(c.log, c.replicas[r]) && TaskOk(c.log, c.replicas[r].version, c.replicas[r].tasks[t]);
  }

  lemma BeatenOk(log: Log, version: nat, task: Task)
    requires Contiguous(log) && task.Staged? && TaskOk(log, version, task) && task.target in log
    ensures TaskOk(log, version, Beaten(|log|, task))
  {
    hide AnswersWith;
    var past, next := task.past, Beaten(|log|, task).past;
    forall i, j | 0 <= i < j < |next.lost| ensures next.lost[i] < next.lost[j] {
      if j == |past.lost| { assert past.lost[i] <= past.head; }
    }
  }

  lemma PutLoses(c: Cluster, r: nat, t: nat)
    requires Inv(c) && Contiguous(c.log) && Enabled(c, Put(r, t)) && c.replicas[r].tasks[t].target in c.log
    ensures Inv(Do(c, Put(r, t)))
  {
    hide LogOk, Fold, Load, Held, WholeAt, TaskOk, Beaten;
    var replica := c.replicas[r];
    var task := replica.tasks[t];
    assert ReplicaOk(c.log, replica) && TaskOk(c.log, replica.version, task);
    BeatenOk(c.log, replica.version, task);
    WithTaskOk(c.log, replica, t, Beaten(|c.log|, task));
    ReplicaReplaced(c, r, WithTask(replica, t, Beaten(|c.log|, task)));
  }

  lemma DumpKeeps(c: Cluster, r: nat, d: nat)
    requires Inv(c) && Contiguous(c.log) && Enabled(c, TakeDump(r, d))
    ensures Inv(Do(c, TakeDump(r, d)))
  {
    hide Held, WholeAt, Dump, Load, Typed, LogOk, TaskOk;
    var replica := c.replicas[r];
    assert ReplicaOk(c.log, replica);
    HeldDump(c.log, replica.version, replica.snap);
    ReplicaReplaced(c, r, replica.(dumps := replica.dumps[d := Dumped(replica.version, Dump(replica.snap))]));
  }

  lemma CheckpointAdded(c: Cluster, v: nat, lines: seq<Action>)
    requires Inv(c) && Contiguous(c.log) && v > 0 && Held(c.log, v, Load(lines))
    ensures Inv(c.(checkpoints := if v in c.checkpoints then c.checkpoints else c.checkpoints[v := lines]))
  {
    hide Held, Load, LogOk, ReplicaOk;
  }

  lemma DumpHeld(log: Log, r: Replica, d: nat)
    requires Contiguous(log) && ReplicaOk(log, r) && d in r.dumps
    ensures r.dumps[d].version > 0 && Held(log, r.dumps[d].version, Load(r.dumps[d].lines))
    ensures ReplicaOk(log, r.(dumps := r.dumps - {d}))
  {
    hide Held, WholeAt, Load, TaskOk;
  }

  lemma CheckpointKeeps(c: Cluster, r: nat, d: nat)
    requires Inv(c) && Contiguous(c.log) && Enabled(c, PutCheckpoint(r, d))
    ensures Inv(Do(c, PutCheckpoint(r, d)))
  {
    hide Held, WholeAt, Load, LogOk, TaskOk, ReplicaOk, Inv;
    InvFacts(c, r);
    var replica := c.replicas[r];
    var dump := replica.dumps[d];
    DumpHeld(c.log, replica, d);
    CheckpointAdded(c, dump.version, dump.lines);
    var between := c.(checkpoints := if dump.version in c.checkpoints then c.checkpoints else c.checkpoints[dump.version := dump.lines]);
    ReplicaReplaced(between, r, replica.(dumps := replica.dumps - {d}));
  }

  /** Every step of every task keeps the invariant. */
  lemma StepKeeps(c: Cluster, step: Step)
    requires Inv(c) && Enabled(c, step)
    ensures Inv(Do(c, step))
  {
    hide Build, LogOk, Held, WholeAt, Dump, Load, Typed, Fold, AfterRead, AfterSettle, AfterCatchUp, Inv, ReplicaOk, MayRead;
    match step
    case Boot(r, known) =>
      InvFacts(c, r);
      FreshOk(c.log, known);
      ReplicaReplaced(c, r, Fresh(known));
    case Read(r, t, q, ids) =>
      InvFacts(c, r);
      ReadKeeps(c.log, c.replicas[r], t, q, ids);
      ReplicaReplaced(c, r, AfterRead(|c.log|, c.replicas[r], t, q, ids));
    case Put(r, t) =>
      InvFacts(c, r);
      if c.replicas[r].tasks[t].target in c.log { PutLoses(c, r, t); } else { PutWins(c, r, t); }
    case Settle(r, t) =>
      InvFacts(c, r);
      SettleKeeps(c.log, c.replicas[r], t);
      ReplicaReplaced(c, r, AfterSettle(c.replicas[r], t));
    case CatchUp(r, base, listed) =>
      InvFacts(c, r);
      CatchUpKeeps(c, c.replicas[r], base, listed);
      ReplicaReplaced(c, r, AfterCatchUp(c, c.replicas[r], base, listed));
    case GiveUp(r, t) =>
      InvFacts(c, r);
      WithTaskOk(c.log, c.replicas[r], t, Finished(c.replicas[r].tasks[t].request, [], None, Exhausted));
      ReplicaReplaced(c, r, WithTask(c.replicas[r], t, Finished(c.replicas[r].tasks[t].request, [], None, Exhausted)));
    case TakeDump(r, d) =>
      InvFacts(c, r);
      DumpKeeps(c, r, d);
    case PutCheckpoint(r, d) =>
      InvFacts(c, r);
      CheckpointKeeps(c, r, d);
    case Abandon(r, t) =>
      InvFacts(c, r);
      WithoutTaskOk(c.log, c.replicas[r], t);
      ReplicaReplaced(c, r, c.replicas[r].(tasks := c.replicas[r].tasks - {t}));
  }

  lemma WithoutTaskOk(log: Log, r: Replica, t: nat)
    requires Contiguous(log) && ReplicaOk(log, r)
    ensures ReplicaOk(log, r.(tasks := r.tasks - {t}))
  {
    hide Held, WholeAt, TaskOk;
  }

  lemma InvFacts(c: Cluster, r: nat)
    requires Inv(c)
    ensures LogOk(c.log) && Contiguous(c.log)
    ensures r in c.replicas ==> ReplicaOk(c.log, c.replicas[r])
  {
    hide EntryOk, ReplicaOk, Held;
  }

  lemma FreshOk(log: Log, known: Known)
    requires Contiguous(log)
    ensures ReplicaOk(log, Fresh(known))
  {
    hide Coherent;
    EmptyTrusted();
    TrustedIsCoherent(EMPTY);
    WholeIsHeld(log, 0, EMPTY);
  }
}
