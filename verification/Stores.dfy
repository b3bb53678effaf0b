/** The store object: one replica's snapshot over the log, catching up with it and committing
    to it. One call is followed here from start to end, with the other replicas writing
    between its accesses to the log; how the calls of many tasks interleave is Protocol. */
module Stores {
  import opened Wrappers
  import opened Order
  import opened Keys
  import opened Model
  import opened Snapshots
  import opened Repos
  import opened ContentHash
  import opened Framing
  import opened ObjectLog
  import opened CommitLog
  import opened Recovery

  const CHECKPOINT_INTERVAL: nat := 100

  // ----- replaying -----

  function Applied(s: State, commits: seq<Commit>): State {
    if commits == [] then s else AfterAll(Applied(s, commits[..|commits| - 1]), commits[|commits| - 1].actions)
  }

  predicate CommitsAccepted(known: Known, commits: seq<Commit>) {
    forall i | 0 <= i < |commits| :: AcceptsAll(known, commits[i].actions)
  }

  lemma AppliedNext(s: State, commits: seq<Commit>, i: nat)
    requires i < |commits|
    ensures Applied(s, commits[..i + 1]) == AfterAll(Applied(s, commits[..i]), commits[i].actions)
  {
    assert commits[..i + 1][..i] == commits[..i];
  }

  /** `s`, being the state at `from`, is followed by these commits of the log. */
  ghost predicate Follows(codec: Codec, objects: Objects, from: U64, commits: seq<Commit>) {
    Gapless(commits, from) && exists keys :: AllHold(codec, objects, keys, commits)
  }

  lemma FollowsPrefix(codec: Codec, objects: Objects, from: U64, commits: seq<Commit>, n: nat)
    requires Follows(codec, objects, from, commits) && n <= |commits|
    ensures Follows(codec, objects, from, commits[..n])
  {
    hide Holds;
    var keys :| AllHold(codec, objects, keys, commits);
    var some := keys[..n];
    assert AllHold(codec, objects, some, commits[..n]);
  }

  /** Where a catch-up starts: where the replica is, or at version 0 from a checkpoint. */
  ghost predicate StartsAt(codec: Codec, known: Known, pc: PointerCodec, objects: Objects, version: U64, s: State, base: U64, start: State) {
    (base == version && start == s)
    || (version == 0 && Resolve(pc, objects).Some? && Resolve(pc, objects).value.0 == base
        && StateOf(codec, known, Resolve(pc, objects).value.1) == Some(start))
  }

  lemma ResolveLater(pc: PointerCodec, before: Objects, after: Objects)
    requires Extends(before, after) && Resolve(pc, before).Some?
    ensures Resolve(pc, after) == Resolve(pc, before)
  {
    hide CheckpointKey, Newlines, Hash;
  }

  lemma StartsLater(codec: Codec, known: Known, pc: PointerCodec, before: Objects, after: Objects, version: U64, s: State, base: U64, start: State)
    requires StartsAt(codec, known, pc, before, version, s, base, start) && Extends(before, after)
    ensures StartsAt(codec, known, pc, after, version, s, base, start)
  {
    hide Resolve, StateOf;
    if !(base == version && start == s) { ResolveLater(pc, before, after); }
  }

  lemma CheckpointIsSound(codec: Codec, known: Known, bytes: seq<Byte>)
    requires StateOf(codec, known, bytes).Some?
    ensures Sound(StateOf(codec, known, bytes).value)
  {
    var lines := Parsed(codec, RawLines(bytes)).value;
    ActionsReadable(known, lines);
    AfterAllSound(EMPTY, Actions(lines));
  }

  lemma {:induction false} ActionsReadable(known: Known, lines: seq<Line>)
    requires IsDump(known, lines)
    ensures AllReadable(Actions(lines))
  {
    if lines != [] {
      assert forall line | line in lines[..|lines| - 1] :: line in lines;
      ActionsReadable(known, lines[..|lines| - 1]);
      assert lines[|lines| - 1] in lines;
    }
  }

  lemma NothingFollows(codec: Codec, objects: Objects, from: U64)
    ensures Follows(codec, objects, from, [])
  {
    assert AllHold(codec, objects, [], []);
  }

  lemma FollowsIntro(codec: Codec, objects: Objects, from: U64, commits: seq<Commit>)
    requires Gapless(commits, from) && exists keys :: AllHold(codec, objects, keys, commits)
    ensures Follows(codec, objects, from, commits)
  {
  }

  lemma AppliedNothing(s: State)
    ensures Applied(s, []) == s
  {
  }

  lemma VersionOf(commits: seq<Commit>, from: U64, i: nat)
    requires Gapless(commits, from) && i < |commits|
    ensures commits[i].version == from + 1 + i
  {
  }

  /** Everything there was when the call began was there when the commits were listed. */
  lemma ReachesAll(began: Objects, before: Objects, base: U64, n: nat, version: U64)
    requires Extends(began, before) && Covers(before, base, n) && version == base + n
    ensures forall w: U64 | CommitKey(w) in began :: w <= version
  {
    hide VersionFromKey, Less;
    forall w: U64 | CommitKey(w) in began ensures w <= version {
      if w > base {
        CommitKeyRoundTrip(w);
        CommitKeysOrdered(base, w);
        assert Matches(CommitKey(w), LOG_PREFIX, CommitKey(base));
      }
    }
  }

  lemma {:induction false} LaterChain(a: Objects, aLeft: seq<Objects>, b: Objects, bLeft: seq<Objects>, c: Objects, cLeft: seq<Objects>)
    requires Later(a, aLeft, b, bLeft) && Later(b, bLeft, c, cLeft)
    ensures Later(a, aLeft, c, cLeft)
    decreases |aLeft|
  {
    if !(b == a && bLeft == aLeft) { LaterChain(Joined(a, aLeft[0]), aLeft[1..], b, bLeft, c, cLeft); }
  }

  /** The version a catch-up replays from. */
  function Base(pc: PointerCodec, objects: Objects, version: U64): U64 {
    if version == 0 && Resolve(pc, objects).Some? then Resolve(pc, objects).value.0 else version
  }

  /** No hole in the log, and nothing this build cannot read in what a catch-up reads. */
  ghost predicate Healthy(codec: Codec, known: Known, pc: PointerCodec, objects: Objects, version: U64) {
    && Canonical(objects) && Dense(codec, objects, 0)
    && (forall v: U64 | v > Base(pc, objects, version) && CommitKey(v) in objects && CommitOf(codec, objects[CommitKey(v)]).Some? ::
          AcceptsAll(known, CommitOf(codec, objects[CommitKey(v)]).value.1))
    && (version == 0 && Resolve(pc, objects).Some? ==> StateOf(codec, known, Resolve(pc, objects).value.1).Some?)
  }

  lemma HealthyIsDense(codec: Codec, known: Known, pc: PointerCodec, objects: Objects, version: U64, from: U64)
    requires Healthy(codec, known, pc, objects, version)
    ensures Canonical(objects) && Dense(codec, objects, from)
    ensures version == 0 && Resolve(pc, objects).Some? ==> StateOf(codec, known, Resolve(pc, objects).value.1).Some?
  {
    hide CommitOf, CommitKey, Resolve, StateOf;
  }

  lemma HealthyIsReadable(codec: Codec, known: Known, pc: PointerCodec, objects: Objects, version: U64, commits: seq<Commit>, i: nat)
    requires Healthy(codec, known, pc, objects, version) && i < |commits|
    requires Follows(codec, objects, Base(pc, objects, version), commits)
    ensures AcceptsAll(known, commits[i].actions)
  {
    hide CommitOf, CommitKey, VersionFromKey, Resolve, StateOf, Base;
    var keys :| AllHold(codec, objects, keys, commits);
    assert Holds(codec, objects, keys[i], commits[i]);
  }

  // ----- the losses of a call -----

  /** The targets a call lost: rising, taken, and all but the first taken during the call. */
  ghost predicate Losses(lost: seq<nat>, version: nat, began: Objects, now: Objects) {
    && (forall i | 0 <= i < |lost| :: lost[i] >= version + 1 + i && CommitKey(lost[i]) in now && lost[i] < U64_LIMIT)
    && (forall i, j | 0 <= i < j < |lost| :: lost[i] < lost[j])
    && (forall i | 1 <= i < |lost| :: CommitKey(lost[i]) !in began)
  }

  lemma LossesLater(lost: seq<nat>, version: nat, began: Objects, before: Objects, after: Objects)
    requires Losses(lost, version, began, before) && Extends(before, after)
    ensures Losses(lost, version, began, after)
  {
    hide CommitKey;
  }

  lemma OneMoreLoss(lost: seq<nat>, version: nat, began: Objects, now: Objects, target: nat)
    requires Losses(lost, version, began, now) && CommitKey(target) in now && target < U64_LIMIT
    requires lost == [] ==> target == version + 1
    requires lost != [] ==> target > lost[|lost| - 1] && CommitKey(target) !in began
    ensures Losses(lost + [target], version, began, now)
  {
    hide CommitKey;
  }

  /** The commits that landed while a call was under way. */
  function LandedDuring(began: Objects, now: Objects): set<string> {
    set k | k in now && k !in began && VersionFromKey(k).Some?
  }

  lemma {:induction false} LostLanded(lost: seq<nat>, version: nat, began: Objects, now: Objects, n: nat)
    requires Losses(lost, version, began, now) && 1 <= n <= |lost|
    ensures |LandedDuring(began, now)| >= n - 1
    ensures exists s: set<string> :: s <= LandedDuring(began, now) && |s| == n - 1 && forall i | n <= i < |lost| :: CommitKey(lost[i]) !in s
  {
    hide CommitKey, VersionFromKey;
    if n == 1 {
      var none: set<string> := {};
      assert none <= LandedDuring(began, now) && |none| == 0;
    } else {
      LostLanded(lost, version, began, now, n - 1);
      var s: set<string> :| s <= LandedDuring(began, now) && |s| == n - 2 && forall i | n - 1 <= i < |lost| :: CommitKey(lost[i]) !in s;
      var k := CommitKey(lost[n - 1]);
      CommitKeyRoundTrip(lost[n - 1]);
      var t := s + {k};
      forall i | n <= i < |lost| ensures CommitKey(lost[i]) !in t { CommitKeysOrdered(lost[n - 1], lost[i]); }
      assert t <= LandedDuring(began, now) && |t| == n - 1;
      SubsetAtMost(t, LandedDuring(began, now));
    }
  }

  lemma SubsetAtMost<T>(a: set<T>, b: set<T>)
    requires a <= b
    ensures |a| <= |b|
  {
    assert b == a + (b - a);
  }

  // ----- one catch-up, one beaten attempt, one settled commit -----

  /** Where a store stands between two accesses to the log. */
  datatype Standing = Standing(objects: Objects, version: U64, snap: State)

  /** What a catch-up found and did: the objects once its start was chosen, that start, the
      commits it applied, and what there was and what it had made of the snapshot at its end. */
  datatype Trip = Trip(mid: Objects, base: U64, start: State, commits: seq<Commit>, ended: Objects, ok: bool, version: U64, snap: State)

  function Arrived(trip: Trip): Standing {
    Standing(trip.ended, trip.version, trip.snap)
  }

  /** A start followed by consecutive commits of the log, all of whose actions this build
      accepts; on failure, of the next one at most what comes before the first it refuses. */
  ghost predicate CaughtUp(codec: Codec, known: Known, pc: PointerCodec, from: Standing, trip: Trip) {
    && Extends(from.objects, trip.mid) && Extends(trip.mid, trip.ended) && from.version <= trip.version
    && StartsAt(codec, known, pc, trip.mid, from.version, from.snap, trip.base, trip.start)
    && Follows(codec, trip.ended, trip.base, trip.commits) && trip.version == trip.base + |trip.commits|
    && CommitsAccepted(known, trip.commits)
    && if trip.ok then trip.snap == Applied(trip.start, trip.commits)
       else Interrupted(codec, known, trip.ended, trip.version, Applied(trip.start, trip.commits), trip.snap)
  }

  /** It got at least as far as the log was when its start had been chosen. */
  ghost predicate Overtakes(trip: Trip) {
    forall w: U64 | CommitKey(w) in trip.mid :: w <= trip.version
  }

  /** Why a catch-up fails: the build cannot decode the checkpoint the pointer resolves to, or a
      commit cannot be read or has no predecessor, or the build cannot decode the next one. */
  ghost predicate Blocked(codec: Codec, known: Known, pc: PointerCodec, version: U64, trip: Trip) {
    || (version == 0 && Resolve(pc, trip.mid).Some? && StateOf(codec, known, Resolve(pc, trip.mid).value.1).None?)
    || Unreadable(codec, trip.mid, trip.ended, trip.base)
    || RefusedNext(codec, known, trip.ended, trip.version)
  }

  ghost predicate RefusedNext(codec: Codec, known: Known, objects: Objects, version: U64) {
    exists key, c: Commit :: Holds(codec, objects, key, c) && c.version == version + 1 && !AcceptsAll(known, c.actions)
  }

  /** An attempt that found its version taken, and the catch-up after it. */
  datatype Round = Round(ids: seq<Id>, seen: Objects, trip: Trip)

  ghost predicate Beaten(codec: Codec, known: Known, pc: PointerCodec, honest: bool, q: Request, at: Standing, round: Round) {
    && BuildsCommit(q, round.ids, at.snap) && at.version + 1 < U64_LIMIT
    && Extends(at.objects, round.seen) && CommitKey(at.version + 1) in round.seen
    && CaughtUp(codec, known, pc, Standing(round.seen, at.version, at.snap), round.trip)
    && (honest ==> if round.trip.ok then Overtakes(round.trip) else Blocked(codec, known, pc, at.version, round.trip))
  }

  /** Where the store stands after the rounds it lost. */
  function StandsAfter(rounds: seq<Round>, from: Standing): Standing {
    if rounds == [] then from else Arrived(rounds[|rounds| - 1].trip)
  }

  /** Each attempt was built on what the one before it had caught up to. */
  ghost predicate Fought(codec: Codec, known: Known, pc: PointerCodec, honest: bool, q: Request, from: Standing, rounds: seq<Round>) {
    rounds == [] ||
    var n := |rounds| - 1;
    && Fought(codec, known, pc, honest, q, from, rounds[..n]) && (n > 0 ==> rounds[n - 1].trip.ok)
    && Beaten(codec, known, pc, honest, q, StandsAfter(rounds[..n], from), rounds[n])
  }

  lemma FoughtOn(codec: Codec, known: Known, pc: PointerCodec, honest: bool, q: Request, from: Standing, rounds: seq<Round>, round: Round)
    requires Fought(codec, known, pc, honest, q, from, rounds) && (rounds != [] ==> rounds[|rounds| - 1].trip.ok)
    requires Beaten(codec, known, pc, honest, q, StandsAfter(rounds, from), round)
    ensures Fought(codec, known, pc, honest, q, from, rounds + [round]) && StandsAfter(rounds + [round], from) == Arrived(round.trip)
  {
    hide Beaten;
    assert (rounds + [round])[..|rounds|] == rounds;
  }

  /** The versions lost, in order. */
  function Targets(rounds: seq<Round>, from: Standing): seq<nat> {
    if rounds == [] then [] else Targets(rounds[..|rounds| - 1], from) + [StandsAfter(rounds[..|rounds| - 1], from).version + 1]
  }

  /** Over an honest backend they rise, and all but the first were taken during the call. */
  lemma {:induction false} FoughtLoses(codec: Codec, known: Known, pc: PointerCodec, q: Request, from: Standing, rounds: seq<Round>)
    requires Fought(codec, known, pc, true, q, from, rounds)
    ensures var lost, now := Targets(rounds, from), StandsAfter(rounds, from);
            && |lost| == |rounds| && Losses(lost, from.version, from.objects, now.objects)
            && Extends(from.objects, now.objects) && from.version <= now.version
            && (rounds != [] && rounds[|rounds| - 1].trip.ok ==>
                  lost[|lost| - 1] <= now.version && forall w: U64 | CommitKey(w) in from.objects :: w <= now.version)
  {
    hide CommitKey, StartsAt, Follows, Applied, Interrupted, CommitsAccepted, BuildsCommit, Losses, Blocked;
    if rounds == [] {
      NothingLost(from.version, from.objects, from.objects);
    } else {
      var n := |rounds| - 1;
      FoughtLoses(codec, known, pc, q, from, rounds[..n]);
      var at, round := StandsAfter(rounds[..n], from), rounds[n];
      LossesLater(Targets(rounds[..n], from), from.version, from.objects, at.objects, round.seen);
      ExtendsTransitive(from.objects, at.objects, round.seen);
      LostTo(Targets(rounds[..n], from), from.version, from.objects, round.seen, at.version + 1, at.version);
      ExtendsTransitive(round.seen, round.trip.mid, round.trip.ended);
      LossesLater(Targets(rounds, from), from.version, from.objects, round.seen, round.trip.ended);
      ExtendsTransitive(from.objects, round.seen, round.trip.ended);
    }
  }

  /** Giving up after every attempt means seven commits of others landed meanwhile and the log
      reached eight versions past the snapshot the call started from. */
  lemma GivingUpMeansContention(codec: Codec, known: Known, pc: PointerCodec, q: Request, from: Standing, rounds: seq<Round>)
    requires Fought(codec, known, pc, true, q, from, rounds) && |rounds| == MAX_COMMIT_ATTEMPTS
    ensures |LandedDuring(from.objects, StandsAfter(rounds, from).objects)| >= 7
    ensures exists w: nat :: w >= from.version + 8 && CommitKey(w) in StandsAfter(rounds, from).objects
  {
    hide CommitKey, LandedDuring, Fought;
    FoughtLoses(codec, known, pc, q, from, rounds);
    var lost, now := Targets(rounds, from), StandsAfter(rounds, from).objects;
    LostLanded(lost, from.version, from.objects, now, 8);
    assert lost[7] >= from.version + 8 && CommitKey(lost[7]) in now;
  }

  /** What a settled commit saw: the objects when it was created, and if it wrote a checkpoint,
      when the body and when the pointer was put. */
  datatype Landing = Landing(seen: Objects, body: Objects, pointer: Objects)

  /** With a checkpoint due, its body, unless somebody was first, and then the pointer to it. */
  ghost predicate Checkpointed(codec: Codec, pc: PointerCodec, due: bool, at: U64, s: State, created: Objects, landing: Landing, now: Objects) {
    if due then
      && Typed(s) && Extends(created, landing.body) && Extends(BodyPut(codec, at, s, landing.body), landing.pointer)
      && now == PointerPut(codec, pc, at, s, landing.pointer)
    else now == created
  }

  function Created(codec: Codec, info: CommitInfo, at: U64, actions: seq<Action>, objects: Objects): Objects {
    objects[CommitKey(at) := Framing.Text(codec, CommitLines(info, actions))]
  }

  /** The commit is in the log at the next version: its actions are what the closure returned on
      the snapshot the store stood at. The snapshot has those this build accepts, and the caller
      is told of it if that is all. */
  ghost predicate Settled(codec: Codec, known: Known, pc: PointerCodec, info: CommitInfo, q: Request, ids: seq<Id>, out: Outcome,
                          at: Standing, landing: Landing, now: Standing)
    requires Durable(out)
  {
    && BuildsCommit(q, ids, at.snap) && out.at.value == at.version + 1
    && Extends(at.objects, landing.seen) && CommitKey(at.version + 1) !in landing.seen
    && var b := Build(q, ids, at.snap);
    && (out.Done? <==> AcceptsAll(known, b.actions)) && (out.Done? ==> out.reply == b.reply)
    && now.snap == ApplyUpTo(known, at.snap, b.actions) && now.version == (if out.Done? then at.version + 1 else at.version)
    && Checkpointed(codec, pc, out.Done? && (at.version + 1) % CHECKPOINT_INTERVAL == 0, at.version + 1, now.snap,
                    Created(codec, info, at.version + 1, b.actions, landing.seen), landing, now.objects)
  }

  /** How an attempt ends, from where the store stood to where it stands. */
  ghost predicate Attempted(codec: Codec, known: Known, pc: PointerCodec, info: CommitInfo, q: Request, ids: seq<Id>, out: Outcome,
                            at: Standing, landing: Landing, now: Standing) {
    && q.WellFormed() && |ids| >= q.Demand()
    && match out
       case Done(reply, None) => now == at && Build(q, ids, at.snap) == Built([], reply)
       case Rejected(error) => now == at && Build(q, ids, at.snap) == Refused(error)
       case Failed(None) => now == at && at.version == U64_LIMIT - 1 && BuildsCommit(q, ids, at.snap)
       case Contention => false
       case _ => Settled(codec, known, pc, info, q, ids, out, at, landing, now)
  }

  /** How a call ends after the rounds it lost: as its last attempt does, or with a catch-up that
      failed, or with the eighth loss. */
  ghost predicate Finished(codec: Codec, known: Known, pc: PointerCodec, info: CommitInfo, q: Request, ids: seq<Id>, out: Outcome,
                           from: Standing, rounds: seq<Round>, landing: Landing, now: Standing) {
    if rounds != [] && !rounds[|rounds| - 1].trip.ok then |rounds| <= MAX_COMMIT_ATTEMPTS && out == Failed(None) && now == StandsAfter(rounds, from)
    else if out.Contention? then |rounds| == MAX_COMMIT_ATTEMPTS && now == StandsAfter(rounds, from)
    else |rounds| < MAX_COMMIT_ATTEMPTS && Attempted(codec, known, pc, info, q, ids, out, StandsAfter(rounds, from), landing, now)
  }

  datatype Outcome =
    | Done(reply: Reply, at: Option<U64>)
    | Rejected(error: Error)
    | Failed(at: Option<U64>)
    | Contention

  /** The build decodes every action of the call's own commit. */
  predicate ReadsOwn(known: Known, q: Request, ids: seq<Id>, before: State)
    requires q.WellFormed() && |ids| >= q.Demand()
  {
    Build(q, ids, before).Built? ==> AcceptsAll(known, Build(q, ids, before).actions)
  }

  /** What a build writes for this request, it decodes. */
  ghost predicate ReadsWhatItWrites(known: Known, q: Request) {
    forall ids, s | q.WellFormed() && |ids| >= q.Demand() :: ReadsOwn(known, q, ids, s)
  }

  /** `s` is `whole` with the actions applied that come before the first refused. */
  predicate PartOf(known: Known, actions: seq<Action>, whole: State, s: State) {
    !AcceptsAll(known, actions) && s == ApplyUpTo(known, whole, actions)
  }

  class Store {
    const log: MemoryLog
    const codec: Codec
    const pc: PointerCodec
    const snap: Snapshot
    var version: U64

    constructor (log: MemoryLog, codec: Codec, pc: PointerCodec, known: Known)
      ensures this.log == log && this.codec == codec && this.pc == pc && fresh(snap) && snap.known == known
      ensures version == 0 && snap.Contents() == EMPTY && Valid()
    {
      this.log, this.codec, this.pc := log, codec, pc;
      snap := new Snapshot(known);
      version := 0;
    }

    ghost predicate Valid()
      reads this, snap
    {
      Sound(snap.Contents())
    }

    /** Action by action; stops at the first that this build cannot decode. */
    method ApplyAll(actions: seq<Action>) returns (ok: bool)
      requires Valid()
      modifies snap
      ensures Valid() && ok == AcceptsAll(snap.known, actions)
      ensures snap.Contents() == ApplyUpTo(snap.known, old(snap.Contents()), actions)
    {
      hide After, Sound;
      ghost var before := snap.Contents();
      for i := 0 to |actions|
        invariant Sound(snap.Contents()) && snap.Contents() == AfterAll(before, actions[..i])
        invariant forall j | 0 <= j < i :: Accepts(snap.known, actions[j])
      {
        AfterPrefix(before, actions, i);
        ok := snap.Apply(actions[i]);
        if !ok {
          AcceptedIs(snap.known, actions, i);
          return;
        }
        ApplySound(AfterAll(before, actions[..i]), actions[i]);
      }
      assert actions[..|actions|] == actions;
      AppliesAll(snap.known, before, actions);
      ok := true;
    }

    /** At version 0, start from the checkpoint that resolves, if one does. */
    method Rebase() returns (ok: bool)
      requires Valid()
      modifies this, snap, log
      ensures Valid() && Later(old(log.objects), old(log.others), log.objects, log.others)
      ensures version >= old(version)
      ensures StartsAt(codec, snap.known, pc, log.objects, old(version), old(snap.Contents()), version, snap.Contents())
      ensures old(log.others) == [] && ok ==> version == Base(pc, old(log.objects), old(version))
      ensures !ok ==> version == 0 && Resolve(pc, log.objects).Some? && StateOf(codec, snap.known, Resolve(pc, log.objects).value.1).None?
      ensures old(log.others) == [] && Healthy(codec, snap.known, pc, old(log.objects), old(version)) ==> ok
    {
      hide Sound, Later, Resolve, StateOf, CommitKey, Healthy;
      LaterNow(log.objects, log.others);
      ghost var began, schedule := log.objects, log.others;
      if version == 0 {
        var found := ResolveCheckpoint(log, pc);
        if schedule == [] { LaterQuiet(began, log.objects, log.others); }
        if found.Some? {
          var state := DecodeCheckpoint(codec, snap.known, found.value.1);
          if state.None? {
            if schedule == [] && Healthy(codec, snap.known, pc, began, 0) { HealthyIsDense(codec, snap.known, pc, began, 0, 0); }
            return false;
          }
          CheckpointIsSound(codec, snap.known, found.value.1);
          snap.Become(state.value);
          version := found.value.0;
        }
      }
      ok := true;
    }

    /** Apply commits that follow on from the present version. */
    method Advance(commits: seq<Commit>) returns (ok: bool, ghost done: nat)
      requires Valid() && Gapless(commits, version)
      modifies this, snap
      ensures Valid() && done <= |commits| && version == old(version) + done && CommitsAccepted(snap.known, commits[..done])
      ensures ok ==> done == |commits| && snap.Contents() == Applied(old(snap.Contents()), commits)
      ensures !ok ==> done < |commits| && PartOf(snap.known, commits[done].actions, Applied(old(snap.Contents()), commits[..done]), snap.Contents())
    {
      hide Sound, Applied, AfterAll, Gapless, AcceptsAll;
      ghost var from, start := version, snap.Contents();
      done := 0;
      AppliedNothing(start);
      for i := 0 to |commits|
        invariant Valid() && done == i && version == from + i
        invariant snap.Contents() == Applied(start, commits[..i])
        invariant CommitsAccepted(snap.known, commits[..i])
      {
        AppliedNext(start, commits, i);
        VersionOf(commits, from, i);
        assert commits[..i + 1] == commits[..i] + [commits[i]];
        ok := ApplyAll(commits[i].actions);
        if !ok { return; }
        AppliesAll(snap.known, Applied(start, commits[..i]), commits[i].actions);
        version := commits[i].version;
        done := i + 1;
      }
      assert commits[..|commits|] == commits;
      ok := true;
    }

    /** On success: a starting state followed by every commit of the log from there on, at
        least all there were when the call began. */
    method CatchUp() returns (ok: bool, ghost trip: Trip)
      requires Valid()
      modifies this, snap, log
      ensures Valid() && Later(old(log.objects), old(log.others), log.objects, log.others)
      ensures CaughtUp(codec, snap.known, pc, old(Standing(log.objects, version, snap.Contents())), trip)
      ensures Arrived(trip) == Standing(log.objects, version, snap.Contents()) && trip.ok == ok
      ensures log.honest ==> if ok then Overtakes(trip) else Blocked(codec, snap.known, pc, old(version), trip)
      ensures old(log.others) == [] && ok ==> trip.base == Base(pc, old(log.objects), old(version))
      ensures log.honest && old(log.others) == [] && Healthy(codec, snap.known, pc, old(log.objects), old(version)) ==> ok
    {
      hide Sound, Later, Extends, StartsAt, Gapless, AllHold, Covers, Canonical, Dense, Applied, CommitKey, Follows, Healthy;
      hide AcceptsAll, Interrupted, ApplyUpTo, Base, Unreadable, RefusedNext, Resolve, StateOf;
      ghost var began, schedule, v0, s0 := log.objects, log.others, version, snap.Contents();
      ok := Rebase();
      ghost var base, start, mid, left := version, snap.Contents(), log.objects, log.others;
      trip := Trip(mid, base, start, [], mid, false, base, start);
      NothingFollows(codec, mid, base);
      AppliedNothing(start);
      NotInterrupted(codec, snap.known, mid, base, start);
      LaterExtends(began, schedule, mid, left);
      ExtendsItself(mid);
      if !ok { return; }
      if schedule == [] {
        LaterQuiet(began, mid, left);
        if Healthy(codec, snap.known, pc, began, v0) { HealthyIsDense(codec, snap.known, pc, began, v0, version); }
      }
      var read := ReadCommitsAfter(log, codec, version);
      LaterChain(began, schedule, mid, left, log.objects, log.others);
      LaterExtends(mid, left, log.objects, log.others);
      trip := trip.(ended := log.objects);
      NothingFollows(codec, log.objects, base);
      NotInterrupted(codec, snap.known, log.objects, base, start);
      if read.Err? { return false, trip; }
      if schedule == [] { LaterQuiet(mid, log.objects, log.others); }
      FollowsIntro(codec, log.objects, base, read.value);
      ghost var done;
      ok, done := Advance(read.value);
      FollowsPrefix(codec, log.objects, base, read.value, done);
      trip := trip.(commits := read.value[..done], ok := ok, version := version, snap := snap.Contents());
      if ok {
        assert trip.commits == read.value;
        if log.honest { ReachesAll(mid, mid, base, |read.value|, version); }
      } else {
        InterruptedAt(codec, snap.known, log.objects, base, read.value, done, Applied(start, trip.commits), snap.Contents());
        RefusedAt(codec, snap.known, log.objects, base, read.value, done);
        if log.honest && schedule == [] && Healthy(codec, snap.known, pc, began, v0) {
          HealthyIsReadable(codec, snap.known, pc, began, v0, read.value, done);
        }
      }
    }

    /** `maybe_checkpoint`: at every hundredth version, body then pointer. */
    method MaybeCheckpoint(at: U64) returns (ghost landing: Landing)
      requires Valid() && codec.Valid()
      modifies log
      ensures Valid()
      ensures Checkpointed(codec, pc, at % CHECKPOINT_INTERVAL == 0 && version == at, at, snap.Contents(), old(log.objects), landing, log.objects)
    {
      hide CheckpointText, Typed, NoStale, BodyPut, PointerPut, Extends;
      ghost var body := Seen(log.objects, log.others);
      landing := Landing(body, body, body);
      if at % CHECKPOINT_INTERVAL != 0 || version != at { return; }
      SeenExtends(log.objects, log.others);
      ghost var put, left := BodyPut(codec, at, snap.Contents(), body), Remaining(log.others);
      SeenExtends(put, left);
      landing := Landing(body, body, Seen(put, left));
      WriteCheckpoint(log, codec, pc, at, snap.Contents(), false);
    }

    /** After the commit is created: apply it while it is next in line, then perhaps write a
        checkpoint. */
    method Settle(actions: seq<Action>, target: U64) returns (ok: bool, ghost landing: Landing)
      requires Valid() && codec.Valid() && version + 1 == target
      modifies this, snap, log
      ensures Valid() && ok == AcceptsAll(snap.known, actions) && version == if ok then target else old(version)
      ensures snap.Contents() == ApplyUpTo(snap.known, old(snap.Contents()), actions)
      ensures Checkpointed(codec, pc, ok && target % CHECKPOINT_INTERVAL == 0, target, snap.Contents(), old(log.objects), landing, log.objects)
    {
      hide Sound, AcceptsAll, ApplyUpTo, BodyPut, PointerPut, Extends;
      landing := Landing(log.objects, log.objects, log.objects);
      if version + 1 == target {
        ok := ApplyAll(actions);
        if !ok { return; }
        version := target;
      }
      landing := MaybeCheckpoint(target);
      ok := true;
    }

    /** One attempt: build on the present snapshot, create, apply. Contention means only that
        this version was taken. */
    method Attempt(q: Request, info: CommitInfo, ids: seq<Id>) returns (out: Outcome, ghost landing: Landing)
      requires Valid() && codec.Valid() && q.WellFormed() && |ids| >= q.Demand() && info.format == FORMAT_VERSION
      modifies this, snap, log
      ensures Valid()
      ensures !out.Contention? ==>
                Attempted(codec, snap.known, pc, info, q, ids, out, old(Standing(log.objects, version, snap.Contents())), landing,
                          Standing(log.objects, version, snap.Contents()))
      ensures out.Contention? ==>
                && log.objects == Seen(old(log.objects), old(log.others)) && log.others == Remaining(old(log.others))
                && version == old(version) && snap.Contents() == old(snap.Contents())
                && version + 1 < U64_LIMIT && CommitKey(version + 1) in log.objects && BuildsCommit(q, ids, snap.Contents())
      ensures !out.Contention? && !Durable(out) ==> log.others == old(log.others)
    {
      hide AcceptsAll, Sound, CommitKey, Build, ApplyUpTo, Framing.Text, Checkpointed, Extends;
      landing := Landing(log.objects, log.objects, log.objects);
      var built := Build(q, ids, snap.Contents());
      match built {
        case Refused(error) => return Rejected(error), landing;
        case Built(actions, reply) =>
          if actions == [] { return Done(reply, None), landing; }
          if version + 1 >= U64_LIMIT { return Failed(None), landing; }
          var target := version + 1;
          var body := EncodeCommit(codec, info, actions);
          ghost var seen := Seen(log.objects, log.others);
          SeenExtends(log.objects, log.others);
          var created := log.PutIfAbsent(CommitKey(target), body);
          if !created { return Contention, landing; }
          ghost var at := log.objects;
          var ok;
          ok, landing := Settle(actions, target);
          CheckpointedFrom(codec, pc, ok && target % CHECKPOINT_INTERVAL == 0, target, snap.Contents(), at, landing, seen, log.objects);
          landing := landing.(seen := seen);
          out := if ok then Done(reply, Some(target)) else Failed(Some(target));
      }
    }

    /** Up to eight attempts; when beaten, catch up and build again on what is there now. The
        call is the rounds it lost and then its end: every state built on is the one the call
        began with, or a start followed by consecutive commits of the log. */
    method Commit(q: Request, info: CommitInfo, draws: seq<seq<Id>>)
        returns (out: Outcome, ghost ids: seq<Id>, ghost rounds: seq<Round>, ghost landing: Landing)
      requires Valid() && codec.Valid() && info.format == FORMAT_VERSION
      requires q.WellFormed() && |draws| == MAX_COMMIT_ATTEMPTS && forall d | d in draws :: |d| >= q.Demand()
      modifies this, snap, log
      ensures Valid()
      ensures Fought(codec, snap.known, pc, log.honest, q, old(Standing(log.objects, version, snap.Contents())), rounds)
      ensures Finished(codec, snap.known, pc, info, q, ids, out, old(Standing(log.objects, version, snap.Contents())), rounds, landing,
                       Standing(log.objects, version, snap.Contents()))
      ensures !Durable(out) ==> Later(old(log.objects), old(log.others), log.objects, log.others)
      ensures log.honest && old(log.others) == [] && Healthy(codec, snap.known, pc, old(log.objects), old(version)) && ReadsWhatItWrites(snap.known, q) ==>
                (out.Done? || out.Rejected? || version == U64_LIMIT - 1) && |rounds| <= 1
    {
      hide Healthy, Sound, Later, CommitKey, Fought, CaughtUp, Attempted, BuildsCommit, Seen, Remaining, ReadsWhatItWrites, Extends, Overtakes, Beaten, Finished, StandsAfter, Blocked;
      ghost var began, schedule, v0, from := log.objects, log.others, version, Standing(log.objects, version, snap.Contents());
      LaterNow(began, schedule);
      rounds, ids, landing := [], draws[0], Landing(began, began, began);
      NothingFought(codec, snap.known, pc, log.honest, q, from);
      for attempt := 0 to MAX_COMMIT_ATTEMPTS
        invariant Valid() && |rounds| == attempt && (rounds != [] ==> rounds[|rounds| - 1].trip.ok)
        invariant Fought(codec, snap.known, pc, log.honest, q, from, rounds)
        invariant StandsAfter(rounds, from) == Standing(log.objects, version, snap.Contents())
        invariant Later(began, schedule, log.objects, log.others)
        invariant attempt == 0 ==> log.others == schedule
        invariant log.honest && schedule == [] && attempt > 0 ==> forall w: U64 | CommitKey(w) in began :: w <= version
        invariant log.honest && schedule == [] && Healthy(codec, snap.known, pc, began, v0) ==> attempt <= 1
      {
        ids := draws[attempt];
        assert draws[attempt] in draws;
        ghost var at, left := Standing(log.objects, version, snap.Contents()), log.others;
        LaterNext(began, schedule, at.objects, left);
        SeenExtends(at.objects, left);
        if schedule == [] { LaterQuiet(began, at.objects, left); LaterQuiet(began, Seen(at.objects, left), Remaining(left)); }
        out, landing := Attempt(q, info, draws[attempt]);
        if !out.Contention? {
          AttemptedReads(codec, snap.known, pc, info, q, ids, out, at, landing, Standing(log.objects, version, snap.Contents()));
          EndsAttempted(codec, snap.known, pc, info, q, ids, out, from, rounds, landing, Standing(log.objects, version, snap.Contents()));
          return;
        }
        ghost var seen, rest := log.objects, log.others;
        var ok;
        ghost var trip;
        ok, trip := CatchUp();
        LaterChain(began, schedule, seen, rest, log.objects, log.others);
        RoundLost(codec, snap.known, pc, log.honest, q, from, rounds, at, Round(ids, seen, trip));
        rounds := rounds + [Round(ids, seen, trip)];
        if !ok {
          EndsBeaten(codec, snap.known, pc, info, q, ids, Failed(None), from, rounds, landing);
          return Failed(None), ids, rounds, landing;
        }
      }
      out := Contention;
      EndsBeaten(codec, snap.known, pc, info, q, ids, out, from, rounds, landing);
    }
  }

  /** `Store::open`: an empty snapshot, caught up, whatever others write meanwhile. In a log that
      stands still it comes to the last commit, whatever the checkpoint pointer says, exactly
      when the build can decode what there is to read. */
  method Open(log: MemoryLog, codec: Codec, pc: PointerCodec, known: Known) returns (store: Store, ok: bool, ghost trip: Trip)
    modifies log
    ensures fresh(store) && fresh(store.snap) && store.Valid() && store.snap.known == known
    ensures store.log == log && store.codec == codec && store.pc == pc
    ensures Later(old(log.objects), old(log.others), log.objects, log.others)
    ensures CaughtUp(codec, known, pc, Standing(old(log.objects), 0, EMPTY), trip)
    ensures Arrived(trip) == Standing(log.objects, store.version, store.snap.Contents()) && trip.ok == ok
    ensures log.honest ==> if ok then Overtakes(trip) else Blocked(codec, known, pc, 0, trip)
    ensures old(log.others) == [] && ok ==> trip.base == Base(pc, old(log.objects), 0)
    ensures log.honest && old(log.others) == [] && Healthy(codec, known, pc, old(log.objects), 0) ==> ok
  {
    hide Later, CaughtUp, CommitKey, Healthy, Base, Overtakes, Store.Valid, Blocked;
    store := new Store(log, codec, pc, known);
    ok, trip := store.CatchUp();
  }

  /** The call's commit is in the log, whether or not the caller is told so. */
  predicate Durable(out: Outcome) {
    (out.Done? || out.Failed?) && out.at.Some?
  }

  lemma NothingFought(codec: Codec, known: Known, pc: PointerCodec, honest: bool, q: Request, from: Standing)
    ensures Fought(codec, known, pc, honest, q, from, []) && StandsAfter([], from) == from
  {
  }

  lemma RoundLost(codec: Codec, known: Known, pc: PointerCodec, honest: bool, q: Request, from: Standing, rounds: seq<Round>, at: Standing, round: Round)
    requires Fought(codec, known, pc, honest, q, from, rounds) && (rounds != [] ==> rounds[|rounds| - 1].trip.ok)
    requires at == StandsAfter(rounds, from) && BuildsCommit(q, round.ids, at.snap) && at.version + 1 < U64_LIMIT
    requires Extends(at.objects, round.seen) && CommitKey(at.version + 1) in round.seen
    requires CaughtUp(codec, known, pc, Standing(round.seen, at.version, at.snap), round.trip)
    requires honest ==> if round.trip.ok then Overtakes(round.trip) else Blocked(codec, known, pc, at.version, round.trip)
    ensures Fought(codec, known, pc, honest, q, from, rounds + [round]) && StandsAfter(rounds + [round], from) == Arrived(round.trip)
    ensures honest && round.trip.ok ==> forall w: U64 | CommitKey(w) in round.seen :: w <= round.trip.version
  {
    hide Fought, BuildsCommit, CommitKey, CaughtUp, Overtakes, Blocked;
    FoughtOn(codec, known, pc, honest, q, from, rounds, round);
    if honest && round.trip.ok { SeenOvertaken(codec, known, pc, Standing(round.seen, at.version, at.snap), round.trip); }
  }

  lemma SeenOvertaken(codec: Codec, known: Known, pc: PointerCodec, from: Standing, trip: Trip)
    requires CaughtUp(codec, known, pc, from, trip) && Overtakes(trip)
    ensures forall w: U64 | CommitKey(w) in from.objects :: w <= trip.version
  {
    hide CommitKey, StartsAt, Follows, CommitsAccepted, Applied, Interrupted;
  }

  lemma CheckpointedFrom(codec: Codec, pc: PointerCodec, due: bool, at: U64, s: State, created: Objects, landing: Landing, seen: Objects, now: Objects)
    requires Checkpointed(codec, pc, due, at, s, created, landing, now)
    ensures Checkpointed(codec, pc, due, at, s, created, landing.(seen := seen), now)
  {
  }

  lemma SettledReads(codec: Codec, known: Known, pc: PointerCodec, info: CommitInfo, q: Request, ids: seq<Id>, out: Outcome,
                     at: Standing, landing: Landing, now: Standing)
    requires Durable(out) && Settled(codec, known, pc, info, q, ids, out, at, landing, now)
    ensures ReadsWhatItWrites(known, q) ==> out.Done?
  {
    hide Build, Checkpointed, CommitKey, ApplyUpTo, Created;
    if ReadsWhatItWrites(known, q) { assert ReadsOwn(known, q, ids, at.snap); }
  }

  lemma EndsAttempted(codec: Codec, known: Known, pc: PointerCodec, info: CommitInfo, q: Request, ids: seq<Id>, out: Outcome,
                      from: Standing, rounds: seq<Round>, landing: Landing, now: Standing)
    requires |rounds| < MAX_COMMIT_ATTEMPTS && (rounds != [] ==> rounds[|rounds| - 1].trip.ok)
    requires Attempted(codec, known, pc, info, q, ids, out, StandsAfter(rounds, from), landing, now)
    ensures Finished(codec, known, pc, info, q, ids, out, from, rounds, landing, now)
  {
    hide Settled;
  }

  lemma EndsBeaten(codec: Codec, known: Known, pc: PointerCodec, info: CommitInfo, q: Request, ids: seq<Id>, out: Outcome,
                   from: Standing, rounds: seq<Round>, landing: Landing)
    requires rounds != []
    requires if rounds[|rounds| - 1].trip.ok then out == Contention && |rounds| == MAX_COMMIT_ATTEMPTS else out == Failed(None) && |rounds| <= MAX_COMMIT_ATTEMPTS
    ensures Finished(codec, known, pc, info, q, ids, out, from, rounds, landing, StandsAfter(rounds, from))
  {
    hide Settled;
  }

  lemma AttemptedReads(codec: Codec, known: Known, pc: PointerCodec, info: CommitInfo, q: Request, ids: seq<Id>, out: Outcome,
                       at: Standing, landing: Landing, now: Standing)
    requires Attempted(codec, known, pc, info, q, ids, out, at, landing, now)
    ensures !Durable(out) ==> now == at
    ensures ReadsWhatItWrites(known, q) ==> out.Done? || out.Rejected? || now.version == U64_LIMIT - 1
  {
    hide Settled, ReadsWhatItWrites;
    if Durable(out) { SettledReads(codec, known, pc, info, q, ids, out, at, landing, now); }
  }

  /** What the writer applied is what every reader of its commit will apply, and it stays in the
      log whatever checkpoint was written after it. */
  lemma OwnCommitReadsBack(codec: Codec, known: Known, pc: PointerCodec, info: CommitInfo, q: Request, ids: seq<Id>, out: Outcome,
                           at: Standing, landing: Landing, now: Standing)
    requires codec.Valid() && info.format == FORMAT_VERSION
    requires Durable(out) && Settled(codec, known, pc, info, q, ids, out, at, landing, now)
    ensures var k := CommitKey(out.at.value);
            && k !in at.objects && k in now.objects && CommitOf(codec, now.objects[k]).Some?
            && CommitOf(codec, now.objects[k]).value.1 == Build(q, ids, at.snap).actions
            && now.snap == ApplyUpTo(known, at.snap, CommitOf(codec, now.objects[k]).value.1)
    ensures Extends(at.objects, Created(codec, info, out.at.value, Build(q, ids, at.snap).actions, landing.seen))
  {
    hide CommitKey, Build, ApplyUpTo, Framing.Text, CommitOf, Checkpointed;
    var actions := Build(q, ids, at.snap).actions;
    CommitRoundTrip(codec, info, actions);
    var created := Created(codec, info, at.version + 1, actions, landing.seen);
    CheckpointSparesCommits(codec, pc, out.Done? && (at.version + 1) % CHECKPOINT_INTERVAL == 0, at.version + 1, now.snap, created, landing, now.objects);
  }

  /** Left part way through the commit after `version`, or not at all. */
  ghost predicate Interrupted(codec: Codec, known: Known, objects: Objects, version: U64, whole: State, s: State) {
    s == whole || exists key, c: Commit ::
      Holds(codec, objects, key, c) && c.version == version + 1 && PartOf(known, c.actions, whole, s)
  }

  lemma NotInterrupted(codec: Codec, known: Known, objects: Objects, version: U64, s: State)
    ensures Interrupted(codec, known, objects, version, s, s)
  {
  }

  lemma InterruptedAt(codec: Codec, known: Known, objects: Objects, base: U64, commits: seq<Commit>, done: nat, whole: State, s: State)
    requires Follows(codec, objects, base, commits) && done < |commits|
    requires PartOf(known, commits[done].actions, whole, s) && base + done < U64_LIMIT
    ensures Interrupted(codec, known, objects, base + done, whole, s)
  {
    hide Holds, AfterAll, PartOf;
    var keys :| AllHold(codec, objects, keys, commits);
    assert Holds(codec, objects, keys[done], commits[done]);
  }

  lemma RefusedAt(codec: Codec, known: Known, objects: Objects, base: U64, commits: seq<Commit>, done: nat)
    requires Follows(codec, objects, base, commits) && done < |commits|
    requires !AcceptsAll(known, commits[done].actions) && base + done < U64_LIMIT
    ensures RefusedNext(codec, known, objects, base + done)
  {
    hide Holds, AcceptsAll;
    var keys :| AllHold(codec, objects, keys, commits);
    assert Holds(codec, objects, keys[done], commits[done]);
  }

  lemma CheckpointSparesCommits(codec: Codec, pc: PointerCodec, due: bool, at: U64, s: State, created: Objects, landing: Landing, now: Objects)
    requires Checkpointed(codec, pc, due, at, s, created, landing, now)
    ensures forall w: U64 | CommitKey(w) in created :: CommitKey(w) in now && now[CommitKey(w)] == created[CommitKey(w)]
  {
    hide CommitKey, CheckpointKey, VersionFromKey, CheckpointText, Typed, Newlines, Hash;
    forall w: U64 ensures CommitKey(w) != CheckpointKey(at) && CommitKey(w) != LAST_CHECKPOINT_KEY {
      CommitKeyRoundTrip(w);
      NotACommitKey(at);
    }
  }

  lemma NothingLost(version: nat, began: Objects, now: Objects)
    ensures Losses([], version, began, now)
  {
  }

  /** Losing means the target is taken, and after the first catch-up by a commit that was not
      there when the call began. */
  lemma LostTo(lost: seq<nat>, v0: nat, began: Objects, seen: Objects, target: U64, version: U64)
    requires Losses(lost, v0, began, seen) && CommitKey(target) in seen && target == version + 1
    requires lost == [] ==> version == v0
    requires lost != [] ==> lost[|lost| - 1] <= version && forall w: U64 | CommitKey(w) in began :: w <= version
    ensures Losses(lost + [target], v0, began, seen)
  {
    hide CommitKey, Losses;
    OneMoreLoss(lost, v0, began, seen, target);
  }
}
