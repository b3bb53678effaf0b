/** Objects and clusters: when the one represents the other, and how each access of the store
    object is then a step of the protocol. Coupling puts the steps together. */
module Refinement {
  import opened Wrappers
  import opened Keys
  import opened Model
  import opened Snapshots
  import opened Repos
  import opened Checkpoints
  import opened ContentHash
  import opened Framing
  import opened ObjectLog
  import opened CommitLog
  import opened Recovery
  import opened Tracking
  import opened Protocol
  import opened Safety
  import Stores

  // ----- objects that represent a cluster -----

  ghost predicate EncodesAt(codec: Codec, objects: Objects, log: Log, v: U64)
    requires v in log
  {
    && CommitKey(v) in objects && CommitOf(codec, objects[CommitKey(v)]).Some?
    && CommitOf(codec, objects[CommitKey(v)]).value.1 == log[v].actions
  }

  /** The commit objects are the log's entries, one for one. */
  ghost predicate Encodes(codec: Codec, objects: Objects, log: Log) {
    && Canonical(objects) && (forall v | v in log :: v < U64_LIMIT)
    && (forall v: U64 :: v in log <==> CommitKey(v) in objects)
    && (forall v: U64 | v in log :: EncodesAt(codec, objects, log, v))
  }

  ghost predicate HoldsCheckpoint(codec: Codec, objects: Objects, v: U64, lines: seq<Action>) {
    CheckpointKey(v) in objects && objects[CheckpointKey(v)] == Framing.Text(codec, Lifted(lines))
  }

  /** And the checkpoint objects its checkpoints. Nothing is said of `_last_checkpoint`. */
  ghost predicate Represents(codec: Codec, objects: Objects, c: Cluster) {
    && Encodes(codec, objects, c.log)
    && (forall v | v in c.checkpoints :: v < U64_LIMIT)
    && (forall v: U64 :: v in c.checkpoints <==> CheckpointKey(v) in objects)
    && (forall v: U64 | v in c.checkpoints :: HoldsCheckpoint(codec, objects, v, c.checkpoints[v]))
  }

  lemma EncodedCommit(codec: Codec, objects: Objects, log: Log, from: U64, commits: seq<Commit>, i: nat)
    requires Encodes(codec, objects, log) && Stores.Follows(codec, objects, from, commits) && i < |commits|
    ensures commits[i].version == from + 1 + i && commits[i].version in log && log[commits[i].version].actions == commits[i].actions
  {
    hide CommitOf, VersionFromKey, CommitKey;
    var keys :| AllHold(codec, objects, keys, commits);
    assert Holds(codec, objects, keys[i], commits[i]);
    assert EncodesAt(codec, objects, log, commits[i].version);
  }

  /** Applying the commits read is folding the entries of the log. */
  lemma {:induction false} AppliedIsReplay(codec: Codec, objects: Objects, log: Log, from: U64, start: State, commits: seq<Commit>)
    requires Encodes(codec, objects, log) && Stores.Follows(codec, objects, from, commits) && Reaches(log, from)
    ensures Reaches(log, from + |commits|)
    ensures Stores.Applied(start, commits) == ReplayFrom(log, start, from, from + |commits|)
  {
    hide Encodes, Stores.Follows, AfterAll;
    if commits != [] {
      var n := |commits| - 1;
      Stores.FollowsPrefix(codec, objects, from, commits, n);
      AppliedIsReplay(codec, objects, log, from, start, commits[..n]);
      EncodedCommit(codec, objects, log, from, commits, n);
    }
  }

  // ----- catching up -----

  /** What the store starts from is what the step starts from. */
  predicate SameStart(c: Cluster, r: Replica, base: Option<nat>, from: U64, start: State) {
    && (base.Some? ==> base.value in c.checkpoints && r.version == 0 && AcceptsAll(r.known, c.checkpoints[base.value]))
    && from == StartVersion(r, base) && start == StartState(c, r, base)
  }

  lemma AcceptedEntries(codec: Codec, objects: Objects, log: Log, known: Known, from: U64, commits: seq<Commit>)
    requires Encodes(codec, objects, log) && Stores.Follows(codec, objects, from, commits) && Stores.CommitsAccepted(known, commits)
    requires Reaches(log, from + |commits|)
    ensures forall u: nat | from < u <= from + |commits| :: AcceptsAll(known, log[u].actions)
  {
    hide Encodes, Stores.Follows, AcceptsAll;
    forall u: nat | from < u <= from + |commits| ensures AcceptsAll(known, log[u].actions) {
      EncodedCommit(codec, objects, log, from, commits, u - from - 1);
    }
  }

  /** A replica whose snapshot and version are these. */
  predicate IsAt(r: Replica, version: nat, s: State) {
    r.version == version && r.snap == s
  }

  /** A catch-up that ended well left what the step leaves. */
  lemma CatchUpIsAStep(codec: Codec, objects: Objects, c: Cluster, r: Replica, base: Option<nat>, from: U64, start: State, commits: seq<Commit>)
    requires Encodes(codec, objects, c.log) && Stores.Follows(codec, objects, from, commits) && Reaches(c.log, from)
    requires SameStart(c, r, base, from, start) && Stores.CommitsAccepted(r.known, commits)
    ensures CanReplay(c, r, base, from + |commits|, None)
    ensures IsAt(AfterCatchUp(c, r, base, from + |commits|), from + |commits|, Stores.Applied(start, commits))
  {
    hide Encodes, Stores.Follows, ReplayFrom, StartState, Stores.Applied, Reaches, AfterCatchUp, AcceptsAll, Stores.CommitsAccepted;
    AppliedIsReplay(codec, objects, c.log, from, start, commits);
    AcceptedEntries(codec, objects, c.log, r.known, from, commits);
    ReachesListed(c.log, r.known, from, from + |commits|);
    CatchUpShape(c, r, base, from + |commits|);
  }

  /** `s` is what a failed catch-up left after these commits, being then at `upto`. */
  ghost predicate LeftAt(codec: Codec, known: Known, objects: Objects, from: U64, start: State, commits: seq<Commit>, upto: U64, s: State) {
    && Stores.Follows(codec, objects, from, commits) && upto == from + |commits| && Stores.CommitsAccepted(known, commits)
    && Stores.Interrupted(codec, known, objects, upto, Stores.Applied(start, commits), s)
  }

  /** A failed one left what the step leaves that stops at the first action refused, or that
      lists no further than the store read. */
  lemma FailedCatchUpIsAStep(codec: Codec, objects: Objects, c: Cluster, r: Replica, base: Option<nat>, from: U64, start: State, commits: seq<Commit>,
                             upto: U64, s: State) returns (listed: nat)
    requires Encodes(codec, objects, c.log) && Reaches(c.log, from) && SameStart(c, r, base, from, start)
    requires LeftAt(codec, r.known, objects, from, start, commits, upto, s)
    ensures CanReplay(c, r, base, listed, None) && IsAt(AfterCatchUp(c, r, base, listed), upto, s)
  {
    hide Stores.Follows, StartState, Stores.Applied, ApplyUpTo, Encodes, AfterCatchUp, AcceptsAll, Stores.CommitsAccepted;
    CatchUpIsAStep(codec, objects, c, r, base, from, start, commits);
    var whole := Stores.Applied(start, commits);
    listed := upto;
    if s != whole {
      var key, commit: Commit :| Holds(codec, objects, key, commit) && commit.version == upto + 1 && Stores.PartOf(r.known, commit.actions, whole, s);
      HeldIsEntry(codec, objects, c.log, key, commit);
      listed := upto + 1;
      StoppedIsAStep(codec, objects, c, r, base, from, start, commits, listed);
    }
  }

  lemma StoppedIsAStep(codec: Codec, objects: Objects, c: Cluster, r: Replica, base: Option<nat>, from: U64, start: State, commits: seq<Commit>, next: nat)
    requires Encodes(codec, objects, c.log) && Stores.Follows(codec, objects, from, commits) && Reaches(c.log, from)
    requires SameStart(c, r, base, from, start) && Stores.CommitsAccepted(r.known, commits)
    requires next == from + |commits| + 1 && next in c.log && !AcceptsAll(r.known, c.log[next].actions)
    ensures CanReplay(c, r, base, next, None)
    ensures IsAt(AfterCatchUp(c, r, base, next), next - 1, ApplyUpTo(r.known, Stores.Applied(start, commits), c.log[next].actions))
  {
    hide Encodes, Stores.Follows, ReplayFrom, StartState, Stores.Applied, ApplyUpTo, AfterCatchUp, AcceptsAll, Stores.CommitsAccepted;
    AppliedIsReplay(codec, objects, c.log, from, start, commits);
    AcceptedEntries(codec, objects, c.log, r.known, from, commits);
    StopsThere(c.log, r.known, from, from + |commits|);
    CatchUpShape(c, r, base, next);
  }

  lemma StopsThere(log: Log, known: Known, from: nat, upto: nat)
    requires from <= upto && Reaches(log, upto + 1) && !AcceptsAll(known, log[upto + 1].actions)
    requires forall u: nat | from < u <= upto :: AcceptsAll(known, log[u].actions)
    ensures Reached(log, known, from, upto + 1) == upto
  {
  }

  lemma HeldIsEntry(codec: Codec, objects: Objects, log: Log, key: string, commit: Commit)
    requires Encodes(codec, objects, log) && Holds(codec, objects, key, commit)
    ensures commit.version in log && log[commit.version].actions == commit.actions
  {
    hide CommitOf, VersionFromKey, CommitKey;
    assert EncodesAt(codec, objects, log, commit.version);
  }

  // ----- committing -----

  /** Putting a commit under the next key keeps objects and log in step. */
  lemma EncodesNext(codec: Codec, objects: Objects, log: Log, at: U64, info: CommitInfo, e: Entry)
    requires codec.Valid() && info.format == FORMAT_VERSION && Encodes(codec, objects, log) && at !in log
    ensures Encodes(codec, objects[CommitKey(at) := Framing.Text(codec, CommitLines(info, e.actions))], log[at := e])
  {
    hide CommitOf, VersionFromKey, CommitKey, Framing.Text;
    var body := Framing.Text(codec, CommitLines(info, e.actions));
    var objects', log' := objects[CommitKey(at) := body], log[at := e];
    CommitRoundTrip(codec, info, e.actions);
    CommitKeyRoundTrip(at);
    forall v: U64 ensures v in log' <==> CommitKey(v) in objects' { CommitKeysOrdered(v, at); }
    forall v: U64 | v in log' ensures EncodesAt(codec, objects', log', v) {
      CommitKeysOrdered(v, at);
      if v != at { assert EncodesAt(codec, objects, log, v); }
    }
  }

  /** A call about to read, for the first time or after a loss, on a replica at this version. */
  predicate Begins(c: Cluster, r: nat, t: nat, q: Request, ids: seq<Id>, version: nat, s: State) {
    r in c.replicas && IsAt(c.replicas[r], version, s) && MayRead(c.replicas[r], t, q) && q.WellFormed() && |ids| >= q.Demand()
  }

  /** An attempt with nothing to put is the step read: the same answer, nothing else touched. */
  lemma AnswerIsARead(c: Cluster, r: nat, t: nat, q: Request, ids: seq<Id>, version: nat, s: State)
    requires Begins(c, r, t, q, ids, version, s) && (Build(q, ids, s).Built? ==> Build(q, ids, s).actions == [])
    ensures Enabled(c, Read(r, t, q, ids))
    ensures var c', after := Do(c, Read(r, t, q, ids)), AfterRead(|c.log|, c.replicas[r], t, q, ids);
            && c' == c.(replicas := c.replicas[r := after])
            && IsAt(after, version, s) && after.known == c.replicas[r].known && t in after.tasks && after.tasks[t].Finished?
            && after.tasks[t].outcome == match Build(q, ids, s) case Refused(error) => Failure(error) case Built(_, reply) => Answer(reply)
  {
    hide Build;
  }

  function StagedTask(c: Cluster, r: nat, t: nat, q: Request, ids: seq<Id>): Task
    requires r in c.replicas && BuildsCommit(q, ids, c.replicas[r].snap)
  {
    var replica := c.replicas[r];
    var b := Build(q, ids, replica.snap);
    Staged(Entry(q, ids, b.actions), replica.version + 1, b.reply, PastOf(replica, t, |c.log|))
  }

  /** One with something to put begins with a read that stages it. */
  lemma StagingIsARead(c: Cluster, r: nat, t: nat, q: Request, ids: seq<Id>)
    requires r in c.replicas && MayRead(c.replicas[r], t, q) && BuildsCommit(q, ids, c.replicas[r].snap)
    ensures Enabled(c, Read(r, t, q, ids))
    ensures Do(c, Read(r, t, q, ids)) == c.(replicas := c.replicas[r := WithTask(c.replicas[r], t, StagedTask(c, r, t, q, ids))])
  {
    hide Build, PastOf, MayRead;
  }

  /** Finding the version taken is a put that loses. */
  lemma LossIsAPut(c: Cluster, r: nat, t: nat)
    requires HasTask(c, r, t) && c.replicas[r].tasks[t].Staged? && c.replicas[r].tasks[t].target in c.log
    ensures Enabled(c, Put(r, t))
    ensures Do(c, Put(r, t)) == c.(replicas := c.replicas[r := WithTask(c.replicas[r], t, Beaten(|c.log|, c.replicas[r].tasks[t]))])
  {
  }

  /** Creating the commit is a put that wins. */
  lemma LandingIsAPut(c: Cluster, r: nat, t: nat)
    requires HasTask(c, r, t) && c.replicas[r].tasks[t].Staged? && c.replicas[r].tasks[t].target !in c.log
    ensures Enabled(c, Put(r, t))
    ensures var task := c.replicas[r].tasks[t];
            Do(c, Put(r, t)) == Cluster(c.log[task.target := task.entry], c.checkpoints,
                                        c.replicas[r := WithTask(c.replicas[r], t, Landed(task.entry, task.target, task.reply))])
  {
  }

  /** After the catch-up that follows a loss, the call may read again. */
  lemma RetryIsEnabled(codec: Codec, objects: Objects, log: Log, after: Replica, t: nat, q: Request, past: Past)
    requires Encodes(codec, objects, log) && Contiguous(log) && forall w: U64 | CommitKey(w) in objects :: w <= after.version
    requires t in after.tasks && after.tasks[t] == Lost(q, past) && past.head <= |log| && |past.lost| < MAX_COMMIT_ATTEMPTS
    ensures MayRead(after, t, q)
  {
    hide CommitKey, CommitOf;
    if |log| > 0 { assert |log| in log; }
  }

  lemma AppliesIfAccepted(known: Known, s: State, p: seq<Action>)
    ensures AcceptsAll(known, p) ==> ApplyUpTo(known, s, p) == AfterAll(s, p)
  {
    if AcceptsAll(known, p) { AppliesAll(known, s, p); }
  }

  /** Applying one's own commit while it is next in line. */
  lemma SettlingIsAStep(r: Replica, t: nat)
    requires t in r.tasks && r.tasks[t].Landed? && r.version + 1 == r.tasks[t].target
    ensures var r', p := AfterSettle(r, t), r.tasks[t].entry.actions;
            var ok := AcceptsAll(r.known, p);
            && IsAt(r', if ok then r.tasks[t].target else r.version, ApplyUpTo(r.known, r.snap, p)) && r'.known == r.known
            && t in r'.tasks && r'.tasks[t].Finished? && r'.tasks[t].outcome == if ok then Answer(r.tasks[t].reply) else Broken
  {
    hide AfterAll, ApplyUpTo, AcceptsAll, Accepted;
    AllAccepted(r.known, r.tasks[t].entry.actions);
    AppliesIfAccepted(r.known, r.snap, r.tasks[t].entry.actions);
  }

  // ----- checkpoints -----

  ghost predicate IsADump(lines: seq<Action>) {
    exists s :: Typed(s) && lines == Dump(s)
  }

  ghost predicate AllDumps(c: Cluster) {
    && (forall v | v in c.checkpoints :: IsADump(c.checkpoints[v]))
    && (forall r, d | r in c.replicas && d in c.replicas[r].dumps :: IsADump(c.replicas[r].dumps[d].lines))
  }

  lemma OtherDumps(c: Cluster, step: Step, r: nat)
    requires Enabled(c, step) && r in Do(c, step).replicas
    ensures step.TakeDump? || step.PutCheckpoint? || Do(c, step).replicas[r].dumps == (if r in c.replicas && !(step.Boot? && step.replica == r) then c.replicas[r].dumps else map[])
    ensures step.PutCheckpoint? || Do(c, step).checkpoints == c.checkpoints
  {
    hide AfterRead, AfterSettle, AfterCatchUp, MayRead, Dump, Typed;
    if step.replica == r {
      match step
      case Read(_, t, q, ids) => ReadDumps(|c.log|, c.replicas[r], t, q, ids);
      case Settle(_, t) => SettleDumps(c.replicas[r], t);
      case CatchUp(_, base, listed) => CatchUpTouches(c, c.replicas[r], base, listed);
      case _ =>
    }
  }

  lemma ReadDumps(head: nat, r: Replica, t: nat, q: Request, ids: seq<Id>)
    requires q.WellFormed() && |ids| >= q.Demand()
    ensures AfterRead(head, r, t, q, ids).dumps == r.dumps
  {
    hide Build;
  }

  lemma SettleDumps(r: Replica, t: nat)
    requires t in r.tasks && r.tasks[t].Landed?
    ensures AfterSettle(r, t).dumps == r.dumps
  {
    hide AfterAll, ApplyUpTo;
  }

  lemma StepKeepsDumps(c: Cluster, step: Step)
    requires Enabled(c, step) && AllDumps(c)
    ensures AllDumps(Do(c, step))
  {
    hide AfterRead, AfterSettle, AfterCatchUp, MayRead, Dump, Typed, IsADump, Enabled, Do;
    if step.TakeDump? {
      TakeDumpKeeps(c, step.replica, step.slot);
    } else if step.PutCheckpoint? {
      PutKeeps(c, step.replica, step.slot);
    } else {
      var c' := Do(c, step);
      forall r, d | r in c'.replicas && d in c'.replicas[r].dumps ensures IsADump(c'.replicas[r].dumps[d].lines) {
        OtherDumps(c, step, r);
      }
      forall v | v in c'.checkpoints ensures IsADump(c'.checkpoints[v]) {
        CheckpointsStay(c, step);
      }
    }
  }

  lemma CheckpointsStay(c: Cluster, step: Step)
    requires Enabled(c, step) && !step.PutCheckpoint?
    ensures Do(c, step).checkpoints == c.checkpoints
  {
    hide AfterRead, AfterSettle, AfterCatchUp, MayRead, Dump, Typed;
  }

  lemma TakeDumpKeeps(c: Cluster, r: nat, d: nat)
    requires Enabled(c, TakeDump(r, d)) && AllDumps(c)
    ensures AllDumps(Do(c, TakeDump(r, d)))
  {
    hide Dump, Typed;
  }

  lemma PutKeeps(c: Cluster, r: nat, d: nat)
    requires Enabled(c, PutCheckpoint(r, d)) && AllDumps(c)
    ensures AllDumps(Do(c, PutCheckpoint(r, d)))
  {
    hide IsADump;
  }

  /** In no run is there a checkpoint that is not the dump of some snapshot. */
  lemma {:induction false} CheckpointsAreDumps(cs: seq<Cluster>, steps: seq<Step>, i: nat)
    requires Run(cs, steps) && i < |cs|
    ensures AllDumps(cs[i])
  {
    hide Enabled, Do, IsADump;
    if i > 0 {
      CheckpointsAreDumps(cs, steps, i - 1);
      StepKeepsDumps(cs[i - 1], steps[i - 1]);
    }
  }

  /** Writing the body of a checkpoint is the step that puts it. */
  lemma BodyIsAStep(codec: Codec, objects: Objects, c: Cluster, r: nat, d: nat, at: U64, s: State)
    requires Represents(codec, objects, c) && Enabled(c, PutCheckpoint(r, d)) && Typed(s)
    requires c.replicas[r].dumps[d] == Dumped(at, Dump(s))
    ensures Represents(codec, BodyPut(codec, at, s, objects), Do(c, PutCheckpoint(r, d)))
  {
    hide Dump, Typed, Framing.Text, CommitOf, CommitKey, CheckpointKey, VersionFromKey;
    var objects', c' := BodyPut(codec, at, s, objects), Do(c, PutCheckpoint(r, d));
    KeepsCommits(codec, objects, c.log, CheckpointKey(at), CheckpointText(codec, s)) by { NotACommitKey(at); }
    forall v: U64 ensures v in c'.checkpoints <==> CheckpointKey(v) in objects' { CheckpointKeysDiffer(v, at); }
    forall v: U64 | v in c'.checkpoints ensures HoldsCheckpoint(codec, objects', v, c'.checkpoints[v]) {
      CheckpointKeysDiffer(v, at);
      if v in c.checkpoints { assert HoldsCheckpoint(codec, objects, v, c.checkpoints[v]); }
    }
  }

  lemma KeepsCommits(codec: Codec, objects: Objects, log: Log, key: string, body: seq<Byte>)
    requires Encodes(codec, objects, log) && VersionFromKey(key).None?
    ensures Encodes(codec, objects[key := body], log)
  {
    hide CommitOf, CommitKey, VersionFromKey;
    forall v: U64 ensures CommitKey(v) != key { CommitKeyRoundTrip(v); }
    forall v: U64 | v in log ensures EncodesAt(codec, objects[key := body], log, v) { assert EncodesAt(codec, objects, log, v); }
  }

  /** Whatever is put under `_last_checkpoint`, the objects represent the same cluster. */
  lemma PointerIsNoState(codec: Codec, objects: Objects, c: Cluster, bytes: seq<Byte>)
    requires Represents(codec, objects, c)
    ensures Represents(codec, objects[LAST_CHECKPOINT_KEY := bytes], c)
  {
    hide CommitOf, CommitKey, CheckpointKey, VersionFromKey, Framing.Text;
    NotACommitKey(0);
    KeepsCommits(codec, objects, c.log, LAST_CHECKPOINT_KEY, bytes);
    var objects' := objects[LAST_CHECKPOINT_KEY := bytes];
    forall v: U64 ensures CheckpointKey(v) != LAST_CHECKPOINT_KEY { KeysApart(v); }
    forall v: U64 | v in c.checkpoints ensures HoldsCheckpoint(codec, objects', v, c.checkpoints[v]) {
      assert HoldsCheckpoint(codec, objects, v, c.checkpoints[v]);
    }
  }

  // ----- opening a store -----

  /** The checkpoint the pointer resolves to, if any. */
  function Adopted(pc: PointerCodec, objects: Objects): Option<nat> {
    if Resolve(pc, objects).Some? then Some(Resolve(pc, objects).value.0) else None
  }

  lemma LiftedAccepted(known: Known, p: seq<Action>)
    requires forall a | a in p :: a.Upsert?
    ensures AcceptsAll(known, p) <==> IsDump(known, Lifted(p))
  {
    forall i | 0 <= i < |p| ensures Act(p[i]) in Lifted(p) { assert Lifted(p)[i] == Act(p[i]); }
    forall line | line in Lifted(p) ensures line.Act? && line.action in p {}
  }

  lemma DumpAccepted(known: Known, s: State)
    requires Typed(s)
    ensures AcceptsAll(known, Dump(s)) <==> ReadsRows(known, s.rows)
  {
    hide Lines, AcceptsAll, IsDump;
    DumpReadable(known, s);
    LinesHoldRows(s.rows, Refs(s.rows));
    LiftedAccepted(known, Dump(s));
  }

  /** Whatever the pointer holds, it resolves to nothing or to a checkpoint of the cluster. */
  lemma ResolvesToCheckpoint(codec: Codec, known: Known, pc: PointerCodec, objects: Objects, c: Cluster)
    requires codec.Valid() && Represents(codec, objects, c) && AllDumps(c)
    ensures var base := Adopted(pc, objects);
            base.Some? ==>
              && base.value in c.checkpoints
              && StateOf(codec, known, Resolve(pc, objects).value.1) ==
                   if AcceptsAll(known, c.checkpoints[base.value]) then Some(Load(c.checkpoints[base.value])) else None
  {
    hide Encodes, StateOf, AcceptsAll, Dump, Load, Typed, Framing.Text, CheckpointKey, Newlines, Hash, Render;
    if Adopted(pc, objects).Some? {
      var v := Resolve(pc, objects).value.0;
      assert CheckpointKey(v) in objects && Resolve(pc, objects).value.1 == objects[CheckpointKey(v)];
      assert HoldsCheckpoint(codec, objects, v, c.checkpoints[v]);
      var s :| Typed(s) && c.checkpoints[v] == Dump(s);
      CheckpointRoundTrip(codec, known, s);
      DumpAccepted(known, s);
    }
  }

  /** Where a catch-up of the store starts is where the step starts. */
  lemma StartIsTheSteps(codec: Codec, pc: PointerCodec, objects: Objects, c: Cluster, r: Replica, base: U64, start: State) returns (adopted: Option<nat>)
    requires codec.Valid() && Represents(codec, objects, c) && AllDumps(c)
    requires r.version < U64_LIMIT && Stores.StartsAt(codec, r.known, pc, objects, r.version, r.snap, base, start)
    ensures adopted.None? || adopted == Adopted(pc, objects)
    ensures SameStart(c, r, adopted, base, start)
    ensures r.version == 0 && base != 0 ==> adopted.Some?
  {
    hide Encodes, StateOf, AcceptsAll, Load, Resolve;
    ResolvesToCheckpoint(codec, r.known, pc, objects, c);
    if base == r.version && start == r.snap { adopted := None; } else { adopted := Adopted(pc, objects); }
  }

  lemma RepresentedLog(codec: Codec, objects: Objects, c: Cluster)
    requires Represents(codec, objects, c)
    ensures Encodes(codec, objects, c.log)
  {
  }

  lemma HeadIs(codec: Codec, objects: Objects, log: Log, version: nat)
    requires Encodes(codec, objects, log) && Contiguous(log) && forall w: U64 | CommitKey(w) in objects :: w <= version
    ensures |log| <= version
  {
    hide CommitKey, CommitOf, VersionFromKey;
    if |log| > 0 { assert |log| in log; }
  }

  lemma DecodesIsHealthy(codec: Codec, known: Known, pc: PointerCodec, objects: Objects, c: Cluster)
    requires codec.Valid() && Represents(codec, objects, c) && AllDumps(c) && Contiguous(c.log)
    requires (Adopted(pc, objects).Some? ==> Adopted(pc, objects).value in c.checkpoints) && Decodes(c, known, Adopted(pc, objects))
    ensures Stores.Healthy(codec, known, pc, objects, 0)
  {
    hide CommitOf, CommitKey, VersionFromKey, StateOf, Resolve, AcceptsAll, Load, HoldsCheckpoint;
    ResolvesToCheckpoint(codec, known, pc, objects, c);
    forall v: U64 | CommitKey(v) in objects ensures EncodesAt(codec, objects, c.log, v) { assert v in c.log; }
    EncodedIsDense(codec, objects, c.log);
  }

  lemma EncodedIsDense(codec: Codec, objects: Objects, log: Log)
    requires Encodes(codec, objects, log) && Contiguous(log)
    ensures Dense(codec, objects, 0)
  {
    hide CommitOf, CommitKey;
    forall v: U64 | CommitKey(v) in objects ensures v in log && EncodesAt(codec, objects, log, v) { assert v in log; }
  }
}
