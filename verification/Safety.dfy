/** What holds in every run of the protocol: any number of replicas and tasks, any
    interleaving, any losses, restarts and torn replays. */
module Safety {
  import opened Wrappers
  import opened Model
  import opened Snapshots
  import opened Replay
  import opened Repos
  import opened Guards
  import opened Checkpoints
  import opened Tracking
  import opened Protocol
  import opened Groups
  import opened Scan

  /** A run: the clusters it passes through and the steps between them. */
  ghost predicate Run(cs: seq<Cluster>, steps: seq<Step>) {
    && |cs| == |steps| + 1 && cs[0] == GENESIS
    && forall i | 0 <= i < |steps| :: Enabled(cs[i], steps[i]) && cs[i + 1] == Do(cs[i], steps[i])
  }

  lemma {:induction false} RunKeeps(cs: seq<Cluster>, steps: seq<Step>, i: nat)
    requires Run(cs, steps) && i < |cs|
    ensures Inv(cs[i])
  {
    hide Inv, Enabled, Do;
    if i == 0 {
      GenesisOk();
    } else {
      RunKeeps(cs, steps, i - 1);
      StepKeeps(cs[i - 1], steps[i - 1]);
    }
  }

  lemma GenesisOk()
    ensures Inv(GENESIS)
  {
    assert forall v: nat :: v in GENESIS.log <==> 1 <= v <= |GENESIS.log|;
  }

  // ----- one sequential store, linearised at the winning PUT -----

  predicate Wins(c: Cluster, step: Step) {
    step.Put? && HasTask(c, step.replica, step.task) && c.replicas[step.replica].tasks[step.task].Staged?
    && c.replicas[step.replica].tasks[step.task].target !in c.log
  }

  function Winner(c: Cluster, step: Step): Task
    requires Wins(c, step)
  {
    c.replicas[step.replica].tasks[step.task]
  }

  /** The call's closure takes effect on the abstract store in one piece: its actions and its
      reply are what it returns on that very state, and its entry is the one new entry. The
      exception is dropping columns once the log is no longer tidy: what it removes then
      depends on the replica. */
  ghost predicate TakesEffect(log: Log, log': Log, w: Task) {
    && w.Staged? && w.entry.request.WellFormed() && |w.entry.ids| >= w.entry.request.Demand()
    && Contiguous(log) && Contiguous(log')
    && |log'| == |log| + 1 && log' == log[|log| + 1 := w.entry]
    && Fold(log', |log'|) == AfterAll(Fold(log, |log|), w.entry.actions)
    && (if Determined(log, |log|, w.entry.request)
        then Build(w.entry.request, w.entry.ids, Fold(log, |log|)) == Built(w.entry.actions, w.reply)
        else DropsOnly(w.entry))
  }

  ghost predicate Refines(c: Cluster, step: Step)
    requires Enabled(c, step)
  {
    var log' := Do(c, step).log;
    if Wins(c, step) then TakesEffect(c.log, log', Winner(c, step)) else log' == c.log
  }

  /** Every step either leaves the log alone, or is one call's closure taking effect. */
  lemma StepRefines(c: Cluster, step: Step)
    requires Inv(c) && Enabled(c, step)
    ensures Inv(Do(c, step)) && Refines(c, step)
  {
    hide AfterRead, AfterSettle, AfterCatchUp, Inv, MayRead, TakesEffect;
    StepKeeps(c, step);
    if Wins(c, step) {
      WinnerIsNext(c, step);
      WinnerTakesEffect(c.log, Winner(c, step));
    }
  }

  lemma WinnerIsNext(c: Cluster, step: Step)
    requires Inv(c) && Enabled(c, step) && Wins(c, step)
    ensures Contiguous(c.log) && Winner(c, step).target == |c.log| + 1
    ensures Contiguous(Do(c, step).log) && Do(c, step).log == Appended(c.log, Winner(c, step).entry)
    ensures |Do(c, step).log| == |c.log| + 1
    ensures AnswersWith(c.log, |c.log|, Winner(c, step).entry, Winner(c, step).reply)
    ensures Fold(Do(c, step).log, |c.log| + 1) == AfterAll(Fold(c.log, |c.log|), Winner(c, step).entry.actions)
  {
    hide AnswersAt, AfterAll, Inv;
    var w := Winner(c, step);
    InvFacts(c, step.replica);
    StagedFacts(c, step.replica, step.task);
    AppendedIsContiguous(c.log, w.entry);
    FoldKept(c.log, w.entry, |c.log|);
  }

  lemma WinnerTakesEffect(log: Log, w: Task)
    requires Contiguous(log) && w.Staged? && AnswersWith(log, |log|, w.entry, w.reply)
    ensures TakesEffect(log, Appended(log, w.entry), w)
  {
    hide Build, AfterAll, Determined;
    AppendedIsContiguous(log, w.entry);
    FoldKept(log, w.entry, |log|);
  }

  /** Entries are never changed or dropped, so neither is any earlier abstract state. */
  lemma {:induction false} HistoryIsFixed(cs: seq<Cluster>, steps: seq<Step>, i: nat, j: nat, v: nat)
    requires Run(cs, steps) && i <= j < |cs|
    ensures Inv(cs[i]) && Inv(cs[j]) && |cs[i].log| <= |cs[j].log|
    ensures 1 <= v <= |cs[i].log| ==> cs[j].log[v] == cs[i].log[v]
    ensures v <= |cs[i].log| ==> Fold(cs[j].log, v) == Fold(cs[i].log, v)
  {
    hide Enabled, Do, LogOk, Held, Fold, ReplicaOk, AfterAll;
    RunKeeps(cs, steps, i);
    RunKeeps(cs, steps, j);
    LogIsContiguous(cs[i].log);
    LogIsContiguous(cs[j].log);
    if i < j {
      HistoryIsFixed(cs, steps, i, j - 1, v);
      RunKeeps(cs, steps, j - 1);
      LogIsContiguous(cs[j - 1].log);
      if v <= |cs[i].log| { StepKeepsFold(cs[j - 1], steps[j - 1], v); } else { StepKeepsFold(cs[j - 1], steps[j - 1], 0); }
    }
  }

  lemma StepKeepsFold(c: Cluster, step: Step, v: nat)
    requires Inv(c) && Enabled(c, step) && v <= |c.log|
    ensures Contiguous(c.log) && Contiguous(Do(c, step).log) && v <= |Do(c, step).log| && |c.log| <= |Do(c, step).log|
    ensures Fold(Do(c, step).log, v) == Fold(c.log, v)
    ensures forall u | u in c.log :: u in Do(c, step).log && Do(c, step).log[u] == c.log[u]
  {
    hide Enabled, LogOk, Held, Fold, ReplicaOk, AnswersWith, AfterAll, Appended;
    LogIsContiguous(c.log);
    StepRefines(c, step);
    if Wins(c, step) {
      WinnerIsNext(c, step);
      FoldKept(c.log, Winner(c, step).entry, v);
      AppendedIsContiguous(c.log, Winner(c, step).entry);
    }
  }

  /** How many steps before `n` won their version. */
  function WinsBefore(cs: seq<Cluster>, steps: seq<Step>, n: nat): nat
    requires n <= |steps| < |cs|
  {
    if n == 0 then 0 else WinsBefore(cs, steps, n - 1) + if Wins(cs[n - 1], steps[n - 1]) then 1 else 0
  }

  /** Conservation: the log holds one entry per won PUT and nothing else. */
  lemma {:induction false} OneEntryPerWin(cs: seq<Cluster>, steps: seq<Step>, n: nat)
    requires Run(cs, steps) && n <= |steps|
    ensures |cs[n].log| == WinsBefore(cs, steps, n)
  {
    hide Enabled, Do, Inv, Fold, Determined, AfterAll, Wins;
    if n > 0 {
      OneEntryPerWin(cs, steps, n - 1);
      RunKeeps(cs, steps, n - 1);
      StepRefines(cs[n - 1], steps[n - 1]);
    }
  }

  // ----- one call, at most one entry -----

  /** The call has landed its entry or has ended without one. */
  predicate Spent(c: Cluster, r: nat, t: nat) {
    HasTask(c, r, t) && (c.replicas[r].tasks[t].Landed? || c.replicas[r].tasks[t].Finished?)
  }

  predicate Drops(step: Step, r: nat, t: nat) {
    (step.Boot? && step.replica == r) || (step.Abandon? && step.replica == r && step.task == t)
  }

  predicate Puts(step: Step, r: nat, t: nat) {
    step.Put? && step.replica == r && step.task == t
  }

  /** The step takes a call past its last PUT: it won, it was refused, it had nothing to write,
      or it has lost too often. */
  predicate EndsPutting(c: Cluster, step: Step, r: nat, t: nat)
    requires Enabled(c, step)
  {
    match step
    case Put(r', t') => r' == r && t' == t && Wins(c, step)
    case Read(r', t', q, ids) =>
      r' == r && t' == t && var b := Build(q, ids, c.replicas[r].snap); b.Refused? || b.actions == []
    case GiveUp(r', t') => r' == r && t' == t
    case _ => false
  }

  lemma EndingSpends(c: Cluster, step: Step, r: nat, t: nat)
    requires Enabled(c, step) && EndsPutting(c, step, r, t)
    ensures Spent(Do(c, step), r, t)
  {
    hide Build, MayRead;
  }

  lemma ReadTasks(head: nat, r: Replica, t: nat, q: Request, ids: seq<Id>, u: nat)
    requires q.WellFormed() && |ids| >= q.Demand() && u in r.tasks && u != t
    ensures var r' := AfterRead(head, r, t, q, ids); u in r'.tasks && r'.tasks[u] == r.tasks[u]
  {
    hide Build;
  }

  lemma SettleTasks(r: Replica, t: nat, u: nat)
    requires t in r.tasks && r.tasks[t].Landed? && u in r.tasks
    ensures var r' := AfterSettle(r, t); u in r'.tasks && if u == t then r'.tasks[u].Finished? else r'.tasks[u] == r.tasks[u]
  {
    hide AfterAll, ApplyUpTo;
  }

  lemma SpentStays(c: Cluster, step: Step, r: nat, t: nat)
    requires Enabled(c, step) && Spent(c, r, t)
    ensures !Puts(step, r, t)
    ensures !Drops(step, r, t) ==> Spent(Do(c, step), r, t)
  {
    hide AfterRead, AfterSettle, AfterCatchUp, Dump;
    if step.replica == r {
      match step
      case Read(_, u, q, ids) => if u != t { ReadTasks(|c.log|, c.replicas[r], u, q, ids, t); }
      case Settle(_, u) => SettleTasks(c.replicas[r], u, t);
      case CatchUp(_, base, listed) => CatchUpTouches(c, c.replicas[r], base, listed);
      case _ =>
    }
  }

  lemma {:induction false} NeverPutsAgain(cs: seq<Cluster>, steps: seq<Step>, i: nat, j: nat, r: nat, t: nat)
    requires Run(cs, steps) && i <= j < |steps| && Spent(cs[i], r, t)
    requires forall k | i <= k < j :: !Drops(steps[k], r, t)
    ensures Spent(cs[j], r, t) && !Puts(steps[j], r, t)
    decreases j
  {
    hide Spent, Enabled, Do, Puts, Drops;
    if i < j {
      NeverPutsAgain(cs, steps, i, j - 1, r, t);
      SpentStays(cs[j - 1], steps[j - 1], r, t);
    }
    SpentStays(cs[j], steps[j], r, t);
  }

  /** A call that won, was refused, had nothing to write or gave up never puts again: only a
      new call under the same name does. With one entry per won PUT, a successful call with
      something to write adds exactly one entry and any other adds none. */
  lemma OneEntryPerCall(cs: seq<Cluster>, steps: seq<Step>, i: nat, j: nat, r: nat, t: nat)
    requires Run(cs, steps) && i < j < |steps| && EndsPutting(cs[i], steps[i], r, t) && Puts(steps[j], r, t)
    ensures exists k :: i < k < j && Drops(steps[k], r, t)
  {
    hide Spent, Enabled, Do, EndsPutting, Puts, Drops;
    EndingSpends(cs[i], steps[i], r, t);
    if forall k | i < k < j :: !Drops(steps[k], r, t) {
      NeverPutsAgain(cs, steps, i + 1, j, r, t);
    }
  }

  // ----- contention, with any number of tasks sharing a snapshot -----

  predicate SevenOthers(log: Log, past: Past) {
    && |past.lost| == 8 && past.lost[0] == past.first + 1
    && (forall k | 1 <= k < 8 :: past.begun < past.lost[k])
    && (forall k | 0 <= k < 7 :: past.lost[k] < past.lost[k + 1])
    && (forall k | 0 <= k < 8 :: past.lost[k] in log)
    && |log| >= past.begun + 7 && |log| >= past.first + 8
  }

  lemma EightRise(log: Log, past: Past)
    requires Contiguous(log) && PastOk(log, past) && |past.lost| == 8
    ensures SevenOthers(log, past)
  {
    var lost := past.lost;
    assert lost[0] < lost[1] < lost[2] < lost[3] < lost[4] < lost[5] < lost[6] < lost[7];
  }

  /** As long as the call may still put, it remembers this beginning. */
  predicate BeganAt(task: Task, begun: nat, first: nat) {
    match task
    case Staged(_, _, _, past) => past.begun == begun && past.first == first
    case Lost(_, past) => past.begun == begun && past.first == first
    case _ => true
  }

  predicate CallBeganAt(c: Cluster, r: nat, t: nat, begun: nat, first: nat) {
    HasTask(c, r, t) && BeganAt(c.replicas[r].tasks[t], begun, first)
  }

  lemma ReadBegins(head: nat, r: Replica, t: nat, q: Request, ids: seq<Id>, begun: nat, first: nat)
    requires q.WellFormed() && |ids| >= q.Demand() && MayRead(r, t, q)
    requires if t in r.tasks then BeganAt(r.tasks[t], begun, first) else begun == head && first == r.version
    ensures var r' := AfterRead(head, r, t, q, ids); t in r'.tasks && BeganAt(r'.tasks[t], begun, first)
  {
    hide Build;
  }

  lemma CallStays(c: Cluster, step: Step, r: nat, t: nat, begun: nat, first: nat)
    requires Enabled(c, step) && CallBeganAt(c, r, t, begun, first) && !Drops(step, r, t)
    ensures CallBeganAt(Do(c, step), r, t, begun, first)
  {
    hide AfterRead, AfterSettle, AfterCatchUp, Dump, MayRead;
    if step.replica == r {
      match step
      case Read(_, u, q, ids) =>
        if u != t { ReadTasks(|c.log|, c.replicas[r], u, q, ids, t); } else { ReadBegins(|c.log|, c.replicas[r], t, q, ids, begun, first); }
      case Settle(_, u) => SettleTasks(c.replicas[r], u, t);
      case CatchUp(_, base, listed) => CatchUpTouches(c, c.replicas[r], base, listed);
      case _ =>
    }
  }

  lemma CallBegins(c: Cluster, r: nat, t: nat, q: Request, ids: seq<Id>)
    requires Enabled(c, Read(r, t, q, ids)) && t !in c.replicas[r].tasks
    ensures CallBeganAt(Do(c, Read(r, t, q, ids)), r, t, |c.log|, c.replicas[r].version)
  {
    hide AfterRead;
    ReadBegins(|c.log|, c.replicas[r], t, q, ids, |c.log|, c.replicas[r].version);
  }

  lemma {:induction false} CallGoesOn(cs: seq<Cluster>, steps: seq<Step>, i: nat, j: nat, r: nat, t: nat, begun: nat, first: nat)
    requires Run(cs, steps) && i <= j < |cs| && CallBeganAt(cs[i], r, t, begun, first)
    requires forall k | i <= k < j :: !Drops(steps[k], r, t)
    ensures CallBeganAt(cs[j], r, t, begun, first)
    decreases j
  {
    hide Enabled, Do, CallBeganAt, Drops;
    if i < j {
      CallGoesOn(cs, steps, i, j - 1, r, t, begun, first);
      CallStays(cs[j - 1], steps[j - 1], r, t, begun, first);
    }
  }

  /** The call named t on replica r first reads at step i and has not been dropped before j. */
  ghost predicate UnderWay(cs: seq<Cluster>, steps: seq<Step>, i: nat, j: nat, r: nat, t: nat) {
    && Run(cs, steps) && i < j <= |steps| < |cs|
    && steps[i].Read? && steps[i].replica == r && steps[i].task == t && r in cs[i].replicas && t !in cs[i].replicas[r].tasks
    && forall k | i < k < j :: !Drops(steps[k], r, t)
  }

  /** A call that gives up has lost eight rising versions. The first was the one after the
      snapshot it began with; the other seven were taken while it was under way, whoever
      moved the snapshot on in between; so the log is at least seven entries longer than when
      the call began, and at least eight versions past that snapshot. */
  lemma GivingUpMeansSevenOthers(cs: seq<Cluster>, steps: seq<Step>, i: nat, j: nat, r: nat, t: nat)
    requires UnderWay(cs, steps, i, j, r, t) && Enabled(cs[j], GiveUp(r, t))
    ensures var past := cs[j].replicas[r].tasks[t].past;
            past.begun == |cs[i].log| && past.first == cs[i].replicas[r].version && SevenOthers(cs[j].log, past)
  {
    hide Run, Do, LogOk, Held, WholeAt, AnswersWith;
    FirstReadEnabled(cs, steps, i);
    CallBegins(cs[i], r, t, steps[i].request, steps[i].ids);
    CallGoesOn(cs, steps, i + 1, j, r, t, |cs[i].log|, cs[i].replicas[r].version);
    RunKeeps(cs, steps, j);
    InvFacts(cs[j], r);
    var task := cs[j].replicas[r].tasks[t];
    assert TaskOk(cs[j].log, cs[j].replicas[r].version, task);
    EightRise(cs[j].log, task.past);
  }

  lemma FirstReadEnabled(cs: seq<Cluster>, steps: seq<Step>, i: nat)
    requires Run(cs, steps) && i < |steps|
    ensures Enabled(cs[i], steps[i]) && i + 1 < |cs| && cs[i + 1] == Do(cs[i], steps[i])
  {
    hide Enabled, Do;
  }

  // ----- what callers are told -----

  /** Every outcome a call on a whole snapshot gets is the sequential store's at some version,
      no later than the head; a write that was answered is in the log right after that
      version, and its own replica has it. */
  lemma OutcomesAreSequential(cs: seq<Cluster>, steps: seq<Step>, i: nat, r: nat, t: nat)
    requires Run(cs, steps) && i < |cs| && HasTask(cs[i], r, t)
    requires cs[i].replicas[r].tasks[t].Finished? && cs[i].replicas[r].tasks[t].at.Some?
    ensures Inv(cs[i])
    ensures var task := cs[i].replicas[r].tasks[t]; var log := cs[i].log; var v := task.at.value;
            && v <= |log| && task.request.WellFormed() && |task.ids| >= task.request.Demand()
            && (Determined(log, v, task.request) ==>
                  match Build(task.request, task.ids, Fold(log, v))
                  case Refused(error) => task.outcome == Failure(error)
                  case Built(actions, reply) =>
                    && (task.outcome == Answer(reply) || (task.outcome == Broken && actions != []))
                    && (actions != [] ==> v < |log| && log[v + 1] == Entry(task.request, task.ids, actions))
                    && (actions != [] && task.outcome.Answer? ==> v < cs[i].replicas[r].version))
  {
    hide Build, Enabled, Do, LogOk, Held, WholeAt, Fold, AnswersWith, GuardedTo;
    RunKeeps(cs, steps, i);
    InvFacts(cs[i], r);
    assert TaskOk(cs[i].log, cs[i].replicas[r].version, cs[i].replicas[r].tasks[t]);
  }

  // ----- replicas -----

  /** A whole snapshot is the fold of its version, row for row, with a coherent index; torn or
      whole, no index entry is stale. */
  lemma SnapshotsAreFolds(cs: seq<Cluster>, steps: seq<Step>, i: nat, r: nat)
    requires Run(cs, steps) && i < |cs| && r in cs[i].replicas
    ensures Inv(cs[i])
    ensures var replica := cs[i].replicas[r];
            && replica.version <= |cs[i].log| && Sound(replica.snap)
            && (!replica.torn ==> replica.snap.rows == Fold(cs[i].log, replica.version).rows
                                  && Coherent(replica.snap, GUARDED) && UniqueKeys(replica.snap.rows, GUARDED))
  {
    hide Build, Enabled, Do, LogOk, Fold, Complete, NoStale, Typed, UniqueKeys, TaskOk, GuardedTo, Tracks;
    RunKeeps(cs, steps, i);
    InvFacts(cs[i], r);
    var replica := cs[i].replicas[r];
    InPlace(cs[i].log, replica);
    HeldBound(cs[i].log, replica.version, replica.snap);
    if !replica.torn { CoherentHasUniqueKeys(replica.snap, GUARDED); }
  }

  /** At no version of any run do two rows of a guarded kind share a natural key. */
  lemma KeysAreUnique(cs: seq<Cluster>, steps: seq<Step>, i: nat, v: nat)
    requires Run(cs, steps) && i < |cs| && v <= |cs[i].log|
    ensures Inv(cs[i]) && UniqueKeys(Fold(cs[i].log, v).rows, GUARDED) && Trusted(Fold(cs[i].log, v))
  {
    hide Build, Enabled, Do, LogOk, Fold, Held, Coherent, UniqueKeys, Trusted;
    RunKeeps(cs, steps, i);
    LogIsContiguous(cs[i].log);
    FoldTrusted(cs[i].log, v);
    TrustedIsCoherent(Fold(cs[i].log, v));
    CoherentHasUniqueKeys(Fold(cs[i].log, v), GUARDED);
  }

  predicate NotBack(c: Cluster, c': Cluster, r: nat) {
    r in c.replicas ==> r in c'.replicas && c.replicas[r].version <= c'.replicas[r].version
  }

  lemma ReadStays(head: nat, r: Replica, t: nat, q: Request, ids: seq<Id>)
    requires q.WellFormed() && |ids| >= q.Demand()
    ensures var r' := AfterRead(head, r, t, q, ids); r'.version == r.version && r'.snap == r.snap && r'.torn == r.torn
  {
    hide Build;
  }

  lemma SettleAdvances(r: Replica, t: nat)
    requires t in r.tasks && r.tasks[t].Landed?
    ensures r.version <= AfterSettle(r, t).version
  {
    hide AfterAll, ApplyUpTo;
  }

  lemma CatchUpAdvances(c: Cluster, r: Replica, base: Option<nat>, listed: nat)
    requires CanReplay(c, r, base, listed, None)
    ensures r.version <= AfterCatchUp(c, r, base, listed).version
  {
    hide ReplayFrom, Load, AfterAll, AcceptsAll;
  }

  /** No step but a restart takes a replica back. */
  lemma VersionsAdvance(c: Cluster, step: Step, r: nat)
    requires Enabled(c, step) && !(step.Boot? && step.replica == r)
    ensures NotBack(c, Do(c, step), r)
  {
    hide AfterRead, AfterSettle, AfterCatchUp, Dump, MayRead;
    if r in c.replicas && step.replica == r {
      match step
      case Read(_, t, q, ids) => ReadStays(|c.log|, c.replicas[r], t, q, ids);
      case Settle(_, t) => SettleAdvances(c.replicas[r], t);
      case CatchUp(_, base, listed) => CatchUpAdvances(c, c.replicas[r], base, listed);
      case _ =>
    }
  }

  function Holding(r: Replica): (nat, State, bool) {
    (r.version, r.snap, r.torn)
  }

  /** A call that landed is answered exactly when its replica has reached its entry, which it
      fails to do only when its own build cannot read it back; a replica already past the
      entry is left as it is. */
  lemma AnswersReadTheirWrite(cs: seq<Cluster>, steps: seq<Step>, i: nat, r: nat, t: nat)
    requires Run(cs, steps) && i < |cs| && HasTask(cs[i], r, t) && cs[i].replicas[r].tasks[t].Landed?
    ensures var r', was := AfterSettle(cs[i].replicas[r], t), cs[i].replicas[r].tasks[t];
            && t in r'.tasks && r'.tasks[t].Finished?
            && was.target in cs[i].log && cs[i].log[was.target] == was.entry
            && r'.tasks[t].outcome == (if was.target <= r'.version then Answer(was.reply) else Broken)
            && (was.target <= r'.version <==>
                was.target <= cs[i].replicas[r].version || AcceptsAll(cs[i].replicas[r].known, was.entry.actions))
            && (was.target <= cs[i].replicas[r].version ==> Holding(r') == Holding(cs[i].replicas[r]))
  {
    hide AfterAll, ApplyUpTo, Enabled, Do, LogOk, ReplicaOk, Accepted, AcceptsAll;
    AllAccepted(cs[i].replicas[r].known, cs[i].replicas[r].tasks[t].entry.actions);
    RunKeeps(cs, steps, i);
    InvFacts(cs[i], r);
    LandedAhead(cs[i].log, cs[i].replicas[r], t, cs[i].replicas[r].version);
  }

  // ----- recovery -----

  /** The build can decode the checkpoint it would start from, if any, and every entry after. */
  predicate Decodes(c: Cluster, known: Known, base: Option<nat>)
    requires base.Some? ==> base.value in c.checkpoints
  {
    && (base.Some? ==> AcceptsAll(known, c.checkpoints[base.value]))
    && forall v | v in c.log && v > StartVersion(Fresh(known), base) :: AcceptsAll(known, c.log[v].actions)
  }

  function Opened(c: Cluster, known: Known, base: Option<nat>): Replica
    requires CanReplay(c, Fresh(known), base, |c.log|, None)
  {
    AfterCatchUp(c, Fresh(known), base, |c.log|)
  }

  lemma CanOpen(c: Cluster, known: Known, base: Option<nat>)
    requires Inv(c) && (base.Some? ==> base.value in c.checkpoints)
    ensures Contiguous(c.log) && StartVersion(Fresh(known), base) <= |c.log| && CanReplay(c, Fresh(known), base, |c.log|, None)
    ensures base.Some? ==> base.value > 0
    ensures Held(c.log, StartVersion(Fresh(known), base), StartState(c, Fresh(known), base))
  {
    hide LogOk, Held, Load, ReplicaOk;
    InvFacts(c, 0);
    FreshOk(c.log, known);
    StartHeld(c, Fresh(known), base);
    HeldBound(c.log, StartVersion(Fresh(known), base), StartState(c, Fresh(known), base));
  }

  lemma OpensAtHead(c: Cluster, known: Known, base: Option<nat>)
    requires Inv(c) && (base.Some? ==> base.value in c.checkpoints)
    ensures CanReplay(c, Fresh(known), base, |c.log|, None)
    ensures Opened(c, known, base).version == |c.log| <==> Decodes(c, known, base)
  {
    hide Inv, Held, LogOk, ReplayFrom, Load, AfterAll, AcceptsAll;
    CanOpen(c, known, base);
    if !(base.Some? && !AcceptsAll(known, c.checkpoints[base.value])) {
      var upto := Reached(c.log, known, StartVersion(Fresh(known), base), |c.log|);
      assert upto < |c.log| ==> upto + 1 in c.log;
    }
  }

  lemma OpenedIsWhole(c: Cluster, known: Known, base: Option<nat>)
    requires Inv(c) && (base.Some? ==> base.value in c.checkpoints) && Decodes(c, known, base)
    ensures Contiguous(c.log) && CanReplay(c, Fresh(known), base, |c.log|, None)
    ensures WholeAt(c.log, |c.log|, Opened(c, known, base).snap)
  {
    hide Inv, Held, WholeAt, LogOk, ReplayFrom, Load, AcceptsAll, Decodes;
    InvFacts(c, 0);
    CanOpen(c, known, base);
    OpensAtHead(c, known, base);
    HeldReplayStays(c.log, StartState(c, Fresh(known), base), StartVersion(Fresh(known), base), |c.log|);
    assert base.Some? ==> AcceptsAll(known, c.checkpoints[base.value]) by { DecodesBase(c, known, base); }
  }

  lemma DecodesBase(c: Cluster, known: Known, base: Option<nat>)
    requires (base.Some? ==> base.value in c.checkpoints) && Decodes(c, known, base)
    ensures base.Some? ==> AcceptsAll(known, c.checkpoints[base.value])
  {
  }

  /** Whichever checkpoint is adopted, if any, and whoever wrote it: opening the store reaches
      the head exactly when the build can decode what it reads, and then it has the rows of
      the whole log and the same index over them. */
  lemma RecoveryIsTheFold(cs: seq<Cluster>, steps: seq<Step>, i: nat, known: Known, base: Option<nat>)
    requires Run(cs, steps) && i < |cs| && (base.Some? ==> base.value in cs[i].checkpoints)
    ensures Inv(cs[i]) && CanReplay(cs[i], Fresh(known), base, |cs[i].log|, None)
    ensures Opened(cs[i], known, base).version == |cs[i].log| <==> Decodes(cs[i], known, base)
    ensures Decodes(cs[i], known, base) ==> Agrees(Fold(cs[i].log, |cs[i].log|), Opened(cs[i], known, base).snap)
  {
    hide Inv, Enabled, Do, Opened, CanReplay, Agrees, Fold, Decodes, GuardedTo;
    RunKeeps(cs, steps, i);
    OpensAtHead(cs[i], known, base);
    if Decodes(cs[i], known, base) { OpenedIsWhole(cs[i], known, base); }
  }

  lemma RecoveryRoutesAgree(cs: seq<Cluster>, steps: seq<Step>, i: nat, known: Known, base: Option<nat>, known': Known, base': Option<nat>)
    requires Run(cs, steps) && i < |cs|
    requires (base.Some? ==> base.value in cs[i].checkpoints) && (base'.Some? ==> base'.value in cs[i].checkpoints)
    requires Decodes(cs[i], known, base) && Decodes(cs[i], known', base')
    ensures CanReplay(cs[i], Fresh(known), base, |cs[i].log|, None) && CanReplay(cs[i], Fresh(known'), base', |cs[i].log|, None)
    ensures var s, s' := Opened(cs[i], known, base).snap, Opened(cs[i], known', base').snap;
            && s.rows == s'.rows
            && (forall k: Tag | k.kind in GUARDED :: (k in s.index <==> k in s'.index) && (k in s.index ==> s.index[k] == s'.index[k]))
            && (Tidy(cs[i].log, |cs[i].log|) ==>
                  forall k: Tag | k.kind == Column :: (k in s.index <==> k in s'.index) && (k in s.index ==> s.index[k] == s'.index[k]))
  {
    hide Enabled, Do, Inv, Fold, Coherent, Opened, CanReplay, Decodes, LogOk, GuardedTo, Held;
    RunKeeps(cs, steps, i);
    InvFacts(cs[i], 0);
    OpenedIsWhole(cs[i], known, base);
    OpenedIsWhole(cs[i], known', base');
    CoherentIndexDetermined(Opened(cs[i], known, base).snap, Opened(cs[i], known', base').snap, GUARDED);
    if Tidy(cs[i].log, |cs[i].log|) {
      CoherentIndexDetermined(Opened(cs[i], known, base).snap, Opened(cs[i], known', base').snap, COLUMNS);
    }
  }

  /** Two whole replicas at one version would write the same checkpoint, line for line. */
  lemma ReplicasDumpAlike(cs: seq<Cluster>, steps: seq<Step>, i: nat, r: nat, r': nat)
    requires Run(cs, steps) && i < |cs| && r in cs[i].replicas && r' in cs[i].replicas
    requires !cs[i].replicas[r].torn && !cs[i].replicas[r'].torn && cs[i].replicas[r].version == cs[i].replicas[r'].version
    ensures Typed(cs[i].replicas[r].snap) && Typed(cs[i].replicas[r'].snap)
    ensures Dump(cs[i].replicas[r].snap) == Dump(cs[i].replicas[r'].snap)
  {
    hide Inv, Enabled, Do, Fold, Complete, NoStale, Typed, UniqueKeys, Lines;
    SnapshotsAreFolds(cs, steps, i, r);
    SnapshotsAreFolds(cs, steps, i, r');
  }
}
