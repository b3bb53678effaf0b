/** A replica that has stopped inside an entry its build cannot read: what it shows, and that it
    goes on showing it until the replica is restarted. */
module Stopped {
  import opened Wrappers
  import opened Model
  import opened Snapshots
  import opened Replay
  import opened Repos
  import opened Guards
  import opened Checkpoints
  import opened Tracking
  import opened Protocol
  import opened Safety
  import opened Groups
  import opened Policy
  import opened Visibility

  /** The snapshot is its version with the readable part of the next entry on top, and a coherent
      index over that. */
  ghost predicate StoppedIn(log: Log, r: Replica) {
    && Contiguous(log) && r.version > 0 && r.version + 1 in log && Reaches(log, r.version)
    && !AcceptsAll(r.known, log[r.version + 1].actions)
    && Agrees(ApplyUpTo(r.known, Fold(log, r.version), log[r.version + 1].actions), r.snap)
  }

  lemma GuardedPrefix(s: State, p: seq<Action>, k: nat, ks: set<EntityKind>)
    requires Guarded(s, p, ks) && k <= |p|
    ensures Guarded(s, p[..k], ks)
  {
    hide Guard, AfterAll;
    forall i | 0 <= i < k ensures p[..k][i].Readable() && Guard(AfterAll(s, p[..k][..i]), p[..k][i], ks) {
      assert p[..k][..i] == p[..i];
    }
  }

  /** A snapshot with these rows and a coherent index is as good a start for a replay. */
  lemma SmearedByRows(s: State, p: seq<Action>, m: State, m': State, ks: set<EntityKind>)
    requires Smeared(s, p, m, ks) && Agrees(m, m', ks)
    ensures Smeared(s, p, m', ks)
  {
  }

  /** Applying the readable part once more leaves it as it was. */
  lemma PartAgain(log: Log, v: nat, known: Known, s: State)
    requires LogOk(log) && Contiguous(log) && v < |log| && v + 1 in log && Reaches(log, v)
    requires var part := ApplyUpTo(known, Fold(log, v), log[v + 1].actions); Agrees(Fold(log, v), s) || Agrees(part, s)
    ensures Agrees(ApplyUpTo(known, Fold(log, v), log[v + 1].actions), ApplyUpTo(known, s, log[v + 1].actions))
  {
    hide LogOk, Fold, Coherent, Guarded, AfterAll, Smeared;
    var p, fold := log[v + 1].actions, Fold(log, v);
    var q := p[..Accepted(known, p)];
    LogIsGuarded(log, v + 1);
    assert GuardedEntry(log, v + 1, GUARDED);
    GuardedPrefix(fold, p, Accepted(known, p), GUARDED);
    FoldTrusted(log, v);
    TrustedIsCoherent(fold);
    CoherentIsSmeared(fold, q, fold, GUARDED);
    if Agrees(fold, s) {
      CoherentIsSmeared(fold, q, s, GUARDED);
    } else {
      SmearedPrefix(fold, q, fold, |q|, GUARDED);
      assert q[..|q|] == q;
      SmearedByRows(fold, q, AfterAll(fold, q), s, GUARDED);
    }
    ReplayRepairs(fold, q, s, GUARDED);
  }

  lemma InsideIsStopped(log: Log, r: Replica)
    requires LogOk(log) && Contiguous(log) && r.version > 0 && r.version + 1 in log && Reaches(log, r.version)
    requires !AcceptsAll(r.known, log[r.version + 1].actions)
    requires Agrees(ApplyUpTo(r.known, Fold(log, r.version), log[r.version + 1].actions), r.snap)
    ensures StoppedIn(log, r)
  {
  }

  /** That is what a catch-up leaves of a replica that was whole, when it stops inside an entry. */
  lemma CatchUpStops(c: Cluster, r: Replica, base: Option<nat>, listed: nat)
    requires LogOk(c.log) && Contiguous(c.log) && CanReplay(c, r, base, listed, None) && WholeStart(c, r, base)
    requires 0 < AfterCatchUp(c, r, base, listed).version < listed
    ensures StoppedIn(c.log, AfterCatchUp(c, r, base, listed))
  {
    hide LogOk, WholeAt, AfterCatchUp, Fold, ApplyUpTo, AcceptsAll, Agrees, WholeStart, StartState;
    var s := CatchUpEnds(c, r, base, listed);
    var after := AfterCatchUp(c, r, base, listed);
    CatchUpTouches(c, r, base, listed);
    InLog(c.log, after.version);
    WholeAgrees(c.log, after.version, s);
    PartAgain(c.log, after.version, r.known, s);
    InsideIsStopped(c.log, after);
  }

  lemma WholeAgrees(log: Log, v: nat, s: State)
    requires Contiguous(log) && WholeAt(log, v, s)
    ensures v <= |log| && Agrees(Fold(log, v), s)
  {
  }

  lemma AppendKeepsStopped(log: Log, e: Entry, r: Replica)
    requires StoppedIn(log, r)
    ensures StoppedIn(Appended(log, e), r)
  {
    hide Appended, Fold, ApplyUpTo, AcceptsAll, Agrees;
    AppendedIsContiguous(log, e);
    InLog(log, r.version);
    FoldKept(log, e, r.version);
  }

  /** The replica still stands where it stood, with the same rows. */
  ghost predicate StillThere(was: Replica, now: Replica) {
    now.version == was.version && now.snap.rows == was.snap.rows && now.known == was.known
  }

  lemma CatchUpStays(c: Cluster, r: Replica, base: Option<nat>, listed: nat)
    requires LogOk(c.log) && StoppedIn(c.log, r) && CanReplay(c, r, base, listed, None)
    ensures StoppedIn(c.log, AfterCatchUp(c, r, base, listed)) && StillThere(r, AfterCatchUp(c, r, base, listed))
  {
    hide LogOk, AfterCatchUp, Fold, ApplyUpTo, AcceptsAll, Coherent;
    CatchUpShape(c, r, base, listed);
    CatchUpTouches(c, r, base, listed);
    NothingReplayed(c.log, r.snap, r.version);
    InLog(c.log, r.version + 1);
    PartAgain(c.log, r.version, r.known, r.snap);
    assert Reached(c.log, r.known, r.version, listed) == r.version;
  }

  lemma SettleStays(log: Log, r: Replica, t: nat)
    requires LogOk(log) && StoppedIn(log, r) && ReplicaOk(log, r) && t in r.tasks && r.tasks[t].Landed?
    ensures StoppedIn(log, AfterSettle(r, t)) && StillThere(r, AfterSettle(r, t))
  {
    hide LogOk, Fold, ApplyUpTo, AcceptsAll, Coherent, Held, WholeAt, TaskOk, Accepted, ReplicaOk;
    LandedAhead(log, r, t, r.version);
    InLog(log, r.version + 1);
    PartAgain(log, r.version, r.known, r.snap);
    AllAccepted(r.known, r.tasks[t].entry.actions);
  }

  lemma SameStopped(log: Log, r: Replica, r': Replica)
    requires StoppedIn(log, r) && r'.version == r.version && r'.snap == r.snap && r'.known == r.known
    ensures StoppedIn(log, r')
  {
    hide Fold, ApplyUpTo, AcceptsAll, Agrees;
  }

  lemma ReadLeaves(head: nat, r: Replica, t: nat, q: Request, ids: seq<Id>)
    requires q.WellFormed() && |ids| >= q.Demand()
    ensures var r' := AfterRead(head, r, t, q, ids); r'.version == r.version && r'.snap == r.snap && r'.known == r.known
  {
    hide Build;
  }

  lemma LogKeepsStopped(c: Cluster, step: Step, r: Replica)
    requires Inv(c) && Enabled(c, step) && StoppedIn(c.log, r)
    ensures StoppedIn(Do(c, step).log, r)
  {
    hide Inv, Enabled, Do, StoppedIn, Appended, AnswersWith;
    StepRefines(c, step);
    if Wins(c, step) {
      WinnerIsNext(c, step);
      AppendKeepsStopped(c.log, Winner(c, step).entry, r);
    }
  }

  ghost predicate StaysIn(c: Cluster, d: Cluster, r: nat) {
    r in c.replicas && r in d.replicas && StoppedIn(c.log, d.replicas[r]) && StillThere(c.replicas[r], d.replicas[r])
  }

  /** What this replica's own steps make of it. */
  lemma OwnStepStays(c: Cluster, step: Step)
    requires Inv(c) && Enabled(c, step) && !step.Boot? && step.replica in c.replicas && StoppedIn(c.log, c.replicas[step.replica])
    ensures StaysIn(c, Do(c, step), step.replica)
  {
    hide Inv, AfterRead, AfterSettle, AfterCatchUp, MayRead, Dump, Typed, StoppedIn, ReplicaOk, LogOk;
    var r := step.replica;
    InvFacts(c, r);
    match step
    case Read(_, t, q, ids) =>
      ReadLeaves(|c.log|, c.replicas[r], t, q, ids);
      SameStopped(c.log, c.replicas[r], AfterRead(|c.log|, c.replicas[r], t, q, ids));
    case Settle(_, t) => SettleStays(c.log, c.replicas[r], t);
    case CatchUp(_, base, listed) => CatchUpStays(c, c.replicas[r], base, listed);
    case Boot(_, _) =>
    case _ => SameStopped(c.log, c.replicas[r], Do(c, step).replicas[r]);
  }

  /** No step but a restart moves it. */
  lemma StepKeepsStopped(c: Cluster, step: Step, r: nat)
    requires Inv(c) && Enabled(c, step) && r in c.replicas && StoppedIn(c.log, c.replicas[r]) && !(step.Boot? && step.replica == r)
    ensures r in Do(c, step).replicas && StoppedIn(Do(c, step).log, Do(c, step).replicas[r]) && StillThere(c.replicas[r], Do(c, step).replicas[r])
  {
    hide Inv, AfterRead, AfterSettle, AfterCatchUp, MayRead, Dump, Typed, StoppedIn;
    if step.replica == r { OwnStepStays(c, step); }
    LogKeepsStopped(c, step, Do(c, step).replicas[r]);
  }

  lemma {:induction false} StaysStopped(cs: seq<Cluster>, steps: seq<Step>, i: nat, j: nat, r: nat)
    requires Run(cs, steps) && i <= j < |cs| && r in cs[i].replicas && StoppedIn(cs[i].log, cs[i].replicas[r])
    requires forall k | i <= k < j :: !(steps[k].Boot? && steps[k].replica == r)
    ensures r in cs[j].replicas && StoppedIn(cs[j].log, cs[j].replicas[r]) && StillThere(cs[i].replicas[r], cs[j].replicas[r])
    decreases j
  {
    hide Enabled, Do, StoppedIn, Inv;
    if i < j {
      StaysStopped(cs, steps, i, j - 1, r);
      RunKeeps(cs, steps, j - 1);
      StepKeepsStopped(cs[j - 1], steps[j - 1], r);
    }
  }

  lemma StoppedIsCoherent(log: Log, r: Replica)
    requires StoppedIn(log, r)
    ensures Coherent(r.snap, GUARDED)
  {
  }

  /** Until it is restarted, a replica that has stopped inside an entry shows what it showed then,
      however often it catches up and whatever its tasks do: every property map and the policy. */
  lemma StoppedShowsTheSame(cs: seq<Cluster>, steps: seq<Step>, i: nat, j: nat, r: nat, e: Id, ty: string)
    requires Run(cs, steps) && i <= j < |cs| && r in cs[i].replicas && StoppedIn(cs[i].log, cs[i].replicas[r])
    requires forall k | i <= k < j :: !(steps[k].Boot? && steps[k].replica == r)
    ensures r in cs[j].replicas && StoppedIn(cs[j].log, cs[j].replicas[r])
    ensures PropertyMap(cs[j].replicas[r].snap, e, ty) == PropertyMap(cs[i].replicas[r].snap, e, ty)
    ensures RuleSet(cs[j].replicas[r].snap.rows) == RuleSet(cs[i].replicas[r].snap.rows)
  {
    hide Run, StoppedIn, PropertyMap, RuleSet, Coherent;
    StaysStopped(cs, steps, i, j, r);
    StoppedIsCoherent(cs[i].log, cs[i].replicas[r]);
    StoppedIsCoherent(cs[j].log, cs[j].replicas[r]);
    SamePropertyMap(cs[j].replicas[r].snap, cs[i].replicas[r].snap, e, ty);
  }

  /** And that is the part of the entry it could read: of a replacement, the entries or rules
      before the first row it could not. */
  lemma StoppedShowsPart(cs: seq<Cluster>, steps: seq<Step>, i: nat, r: nat)
    requires Run(cs, steps) && i < |cs| && r in cs[i].replicas && StoppedIn(cs[i].log, cs[i].replicas[r])
    ensures ShowsFirstEntries(cs[i].log, cs[i].replicas[r].known, cs[i].replicas[r].version, cs[i].replicas[r].snap)
    ensures ShowsFirstRules(cs[i].log, cs[i].replicas[r].known, cs[i].replicas[r].version, cs[i].replicas[r].snap)
  {
    hide Run, Inv, LogOk, ReplicaOk, ShowsFirstEntries, ShowsFirstRules, StoppedIn;
    RunKeeps(cs, steps, i);
    InvFacts(cs[i], r);
    PartShown(cs[i].log, cs[i].replicas[r]);
  }

  lemma PartShown(log: Log, r: Replica)
    requires LogOk(log) && StoppedIn(log, r)
    ensures ShowsFirstEntries(log, r.known, r.version, r.snap) && ShowsFirstRules(log, r.known, r.version, r.snap)
  {
    hide LogOk, Fold, ApplyUpTo, AcceptsAll, Coherent, WholeAt, PropertyMap, RuleSet;
    var v, p, fold := r.version, log[r.version + 1].actions, Fold(log, r.version);
    InLog(log, v);
    var part := ApplyUpTo(r.known, fold, p);
    FoldIsVersion(log, v);
    PropertiesCutShort(log, r.known, v, fold);
    RulesCutShort(log, r.known, v, fold);
    PartAgain(log, v, r.known, fold);
    forall e, ty ensures PropertyMap(r.snap, e, ty) == PropertyMap(part, e, ty) { SamePropertyMap(r.snap, part, e, ty); }
    SameShown(log, r.known, v, part, r.snap);
  }

  lemma SameShown(log: Log, known: Known, u: nat, s: State, t: State)
    requires ShowsFirstEntries(log, known, u, s) && ShowsFirstRules(log, known, u, s)
    requires s.rows == t.rows && forall e, ty :: PropertyMap(t, e, ty) == PropertyMap(s, e, ty)
    ensures ShowsFirstEntries(log, known, u, t) && ShowsFirstRules(log, known, u, t)
  {
    hide PropertyMap, RuleSet, AcceptsAll, Fold, FirstEntries, RowsRead, Unused, OtherGroup;
  }

  lemma FoldIsVersion(log: Log, v: nat)
    requires LogOk(log) && Contiguous(log) && v <= |log| && Reaches(log, v)
    ensures WholeAt(log, v, Fold(log, v)) && Agrees(Fold(log, v), Fold(log, v))
  {
    hide LogOk, Fold, Coherent, GuardedTo;
    FoldTrusted(log, v);
    TrustedIsCoherent(Fold(log, v));
    if Tidy(log, v) { GuardedCoherent(log, v, COLUMNS); }
  }
}
