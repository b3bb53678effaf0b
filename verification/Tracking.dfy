/** What the log denotes, and which snapshots can stand for a prefix of it. */
module Tracking {
  import opened Wrappers
  import opened Model
  import opened Snapshots
  import opened Replay
  import opened Repos
  import opened Guards
  import opened Checkpoints

  /** A commit object, with the call that wrote it as its provenance. */
  datatype Entry = Entry(request: Request, ids: seq<Id>, actions: seq<Action>)

  type Log = map<nat, Entry>

  // ----- the state the log denotes -----

  predicate Reaches(log: Log, v: nat) {
    forall u: nat | 1 <= u <= v :: u in log
  }

  ghost predicate Contiguous(log: Log) {
    forall v: nat :: v in log <==> 1 <= v <= |log|
  }

  /** The fold of entries 1..v: the one sequential store all replicas are copies of. */
  function Fold(log: Log, v: nat): State
    requires Reaches(log, v)
  {
    if v == 0 then EMPTY else AfterAll(Fold(log, v - 1), log[v].actions)
  }

  /** Applying entries from+1..upto on top of a snapshot. */
  function ReplayFrom(log: Log, s: State, from: nat, upto: nat): State
    requires from <= upto && Reaches(log, upto)
    decreases upto
  {
    if upto == from then s else AfterAll(ReplayFrom(log, s, from, upto - 1), log[upto].actions)
  }

  // ----- entries that defend the keys of a set of kinds -----

  predicate GuardedEntry(log: Log, v: nat, ks: set<EntityKind>)
    requires 1 <= v && Reaches(log, v)
  {
    Guarded(Fold(log, v - 1), log[v].actions, ks)
  }

  ghost predicate GuardedTo(log: Log, n: nat, ks: set<EntityKind>) {
    Reaches(log, n) && forall v: nat | 1 <= v <= n :: GuardedEntry(log, v, ks)
  }

  const COLUMNS: set<EntityKind> := {Column}

  /** Up to version n, no insert has given two columns of a table one ordinal. */
  ghost predicate Tidy(log: Log, n: nat) {
    GuardedTo(log, n, COLUMNS)
  }

  lemma GuardedDown(log: Log, m: nat, n: nat, ks: set<EntityKind>)
    requires GuardedTo(log, n, ks) && m <= n
    ensures GuardedTo(log, m, ks)
  {
    hide Fold, Guarded;
  }

  lemma EmptyTrusted()
    ensures Trusted(EMPTY) && Coherent(EMPTY, COLUMNS)
  {
  }

  lemma EmptyCoherent(ks: set<EntityKind>)
    ensures Coherent(EMPTY, ks)
  {
  }

  lemma {:induction false} GuardedCoherent(log: Log, n: nat, ks: set<EntityKind>)
    requires GuardedTo(log, n, ks)
    ensures Coherent(Fold(log, n), ks)
  {
    hide Guarded, Coherent, AfterAll;
    if n == 0 {
      EmptyCoherent(ks);
    } else {
      GuardedDown(log, n - 1, n, ks);
      GuardedCoherent(log, n - 1, ks);
      assert GuardedEntry(log, n, ks);
      GuardedResult(Fold(log, n - 1), log[n].actions, ks);
    }
  }

  // ----- entries that are what their caller's closure returns -----

  predicate Answers(s: State, e: Entry) {
    && e.request.WellFormed() && |e.ids| >= e.request.Demand() && e.actions != []
    && Build(e.request, e.ids, s).Built? && Build(e.request, e.ids, s).actions == e.actions
  }

  /** The request's answer is a function of the rows: all but dropping columns always, that
      one as long as the column index has stayed coherent. */
  ghost predicate Determined(log: Log, n: nat, q: Request) {
    q.DropColumns? ==> Tidy(log, n)
  }

  predicate DropsOnly(e: Entry) {
    e.request.DropColumns? && e.actions != [] && forall a | a in e.actions :: a.Remove? && a.kind == Column
  }

  ghost predicate AnswersAt(log: Log, n: nat, e: Entry)
    requires Reaches(log, n)
  {
    if Determined(log, n, e.request) then Answers(Fold(log, n), e) else DropsOnly(e)
  }

  ghost predicate AnswersWith(log: Log, n: nat, e: Entry, reply: Reply)
    requires Reaches(log, n)
  {
    && AnswersAt(log, n, e)
    && (Determined(log, n, e.request) ==> Build(e.request, e.ids, Fold(log, n)).reply == reply)
  }

  /** Entry v is what its caller's closure returns on the fold of entries 1..v-1. */
  ghost predicate EntryOk(log: Log, v: nat)
    requires 1 <= v && Reaches(log, v)
  {
    AnswersAt(log, v - 1, log[v])
  }

  ghost predicate LogOk(log: Log) {
    Contiguous(log) && forall v: nat | 1 <= v <= |log| :: EntryOk(log, v)
  }

  lemma LogIsContiguous(log: Log)
    requires LogOk(log)
    ensures Contiguous(log)
  {
  }

  lemma AnswersGuarded(s: State, e: Entry)
    requires Trusted(s) && Answers(s, e)
    ensures Guarded(s, e.actions, GUARDED) && Trusted(AfterAll(s, e.actions))
  {
    hide Build, Trusted, Guarded, AfterAll;
    BuildGuarded(e.request, e.ids, s);
    TrustedAfterBuild(e.request, e.ids, s);
  }

  lemma DropsGuarded(s: State, e: Entry)
    requires Trusted(s) && DropsOnly(e)
    ensures Guarded(s, e.actions, GUARDED) && Trusted(AfterAll(s, e.actions))
  {
    hide Coherent, FaithfulRows, AfterAll;
    forall i | 0 <= i < |e.actions| ensures e.actions[i].Readable() && Guard(AfterAll(s, e.actions[..i]), e.actions[i], GUARDED) {
      assert e.actions[i] in e.actions;
    }
    GuardedResult(s, e.actions, GUARDED);
    FaithfulAfter(s, e.actions);
  }

  lemma {:induction false} FoldTrusted(log: Log, v: nat)
    requires LogOk(log) && v <= |log|
    ensures Reaches(log, v) && Trusted(Fold(log, v))
  {
    hide Trusted, AfterAll, Answers, DropsOnly, Determined;
    if v == 0 {
      EmptyTrusted();
    } else {
      FoldTrusted(log, v - 1);
      assert EntryOk(log, v);
      if Determined(log, v - 1, log[v].request) {
        AnswersGuarded(Fold(log, v - 1), log[v]);
      } else {
        DropsGuarded(Fold(log, v - 1), log[v]);
      }
    }
  }

  lemma TrustedIsCoherent(s: State)
    requires Trusted(s)
    ensures Coherent(s, GUARDED)
  {
  }

  /** Every entry of the log defends the guarded kinds. */
  lemma LogIsGuarded(log: Log, n: nat)
    requires LogOk(log) && n <= |log|
    ensures Contiguous(log) && GuardedTo(log, n, GUARDED)
  {
    hide Trusted, Guarded, AfterAll, Answers, DropsOnly, Determined, Fold;
    forall v: nat | 1 <= v <= n ensures v in log && GuardedEntry(log, v, GUARDED) {
      FoldTrusted(log, v - 1);
      assert EntryOk(log, v);
      if Determined(log, v - 1, log[v].request) {
        AnswersGuarded(Fold(log, v - 1), log[v]);
      } else {
        DropsGuarded(Fold(log, v - 1), log[v]);
      }
    }
  }

  // ----- snapshots that stand for a version -----

  /** The same rows, with a coherent index over them. */
  predicate Agrees(s: State, t: State, ks: set<EntityKind> := GUARDED) {
    s.rows == t.rows && Coherent(t, ks)
  }

  function Next(log: Log, v: nat): nat {
    if v < |log| then v + 1 else v
  }

  /** What a snapshot at version v may look like: the fold of v entries, or that fold with
      some of the next entry's actions on top. */
  ghost predicate Tracks(log: Log, v: nat, s: State, ks: set<EntityKind> := GUARDED)
    requires Contiguous(log)
  {
    v <= |log| &&
    if v == |log| then Agrees(Fold(log, v), s, ks) else Smeared(Fold(log, v), log[v + 1].actions, s, ks)
  }

  lemma AgreesTracks(log: Log, v: nat, s: State, ks: set<EntityKind>)
    requires Contiguous(log) && v <= |log| && Agrees(Fold(log, v), s, ks)
    ensures Tracks(log, v, s, ks)
  {
    hide Coherent, Smeared, Fold;
    if v < |log| { CoherentIsSmeared(Fold(log, v), log[v + 1].actions, s, ks); }
  }

  /** One full replay of the next entry leaves exactly the next fold. */
  lemma ReplayOne(log: Log, v: nat, s: State, ks: set<EntityKind>)
    requires Contiguous(log) && v < |log| && GuardedTo(log, v + 1, ks) && Tracks(log, v, s, ks)
    ensures Agrees(Fold(log, v + 1), AfterAll(s, log[v + 1].actions), ks)
  {
    hide Coherent, Guarded, AfterAll, Smeared;
    GuardedDown(log, v, v + 1, ks);
    GuardedCoherent(log, v, ks);
    assert GuardedEntry(log, v + 1, ks);
    ReplayRepairs(Fold(log, v), log[v + 1].actions, s, ks);
  }

  lemma {:induction false} ReplayTracks(log: Log, s: State, from: nat, upto: nat, ks: set<EntityKind>)
    requires Contiguous(log) && from < upto <= |log| && GuardedTo(log, upto, ks) && Tracks(log, from, s, ks)
    ensures Agrees(Fold(log, upto), ReplayFrom(log, s, from, upto), ks)
    decreases upto
  {
    hide Agrees, Tracks, AfterAll, GuardedTo, Fold;
    if from < upto - 1 {
      GuardedDown(log, upto - 1, upto, ks);
      ReplayTracks(log, s, from, upto - 1, ks);
      AgreesTracks(log, upto - 1, ReplayFrom(log, s, from, upto - 1), ks);
    }
    ReplayOne(log, upto - 1, ReplayFrom(log, s, from, upto - 1), ks);
  }

  lemma NothingReplayed(log: Log, s: State, from: nat)
    requires Reaches(log, from)
    ensures ReplayFrom(log, s, from, from) == s
  {
  }

  lemma InterruptedTracks(log: Log, v: nat, s: State, i: nat, ks: set<EntityKind>)
    requires Contiguous(log) && v < |log| && GuardedTo(log, v + 1, ks) && Tracks(log, v, s, ks) && i <= |log[v + 1].actions|
    ensures Tracks(log, v, AfterAll(s, log[v + 1].actions[..i]), ks)
  {
    hide Coherent, Guarded, AfterAll, Smeared;
    GuardedDown(log, v, v + 1, ks);
    GuardedCoherent(log, v, ks);
    assert GuardedEntry(log, v + 1, ks);
    SmearedPrefix(Fold(log, v), log[v + 1].actions, s, i, ks);
  }

  lemma TracksBound(log: Log, v: nat, s: State, ks: set<EntityKind>)
    requires Contiguous(log) && Tracks(log, v, s, ks)
    ensures v <= |log| && Reaches(log, v) && Sound(s) && Typed(s)
  {
    hide Fold, Touches, Complete, NoStale, AfterAll;
  }

  lemma DumpTracks(log: Log, v: nat, s: State, ks: set<EntityKind>)
    requires Contiguous(log) && GuardedTo(log, Next(log, v), ks) && Tracks(log, v, s, ks)
    ensures Typed(s) && Tracks(log, v, Load(Dump(s)), ks)
  {
    hide Guarded, Coherent, AfterAll, Smeared, Dump, Load, Typed;
    TracksBound(log, v, s, ks);
    if v < |log| {
      GuardedDown(log, v, v + 1, ks);
      GuardedCoherent(log, v, ks);
      assert GuardedEntry(log, v + 1, ks);
      ReloadedIsSmeared(Fold(log, v), log[v + 1].actions, s, ks);
    } else {
      CoherentHasUniqueKeys(s, ks);
      RebuiltIndex(s, ks);
    }
  }

  /** Dumping and loading a whole snapshot gives a whole snapshot. */
  lemma DumpAgrees(s: State, t: State, ks: set<EntityKind>)
    requires Agrees(s, t, ks)
    ensures Typed(t) && Agrees(s, Load(Dump(t)), ks)
  {
    hide Complete, NoStale, Dump, Load;
    CoherentHasUniqueKeys(t, ks);
    RebuiltIndex(t, ks);
  }

  // ----- the guarded kinds always, columns as long as the log is tidy -----

  /** `s` may be held at version v. */
  ghost predicate Held(log: Log, v: nat, s: State)
    requires Contiguous(log)
  {
    Tracks(log, v, s) && (Tidy(log, Next(log, v)) ==> Tracks(log, v, s, COLUMNS))
  }

  /** `s` is version v, no more and no less. */
  ghost predicate WholeAt(log: Log, v: nat, s: State)
    requires Contiguous(log)
  {
    v <= |log| && Agrees(Fold(log, v), s) && (Tidy(log, v) ==> Agrees(Fold(log, v), s, COLUMNS))
  }

  lemma WholeIsHeld(log: Log, v: nat, s: State)
    requires Contiguous(log) && WholeAt(log, v, s)
    ensures Held(log, v, s)
  {
    hide Agrees, Tracks, Fold, GuardedTo;
    AgreesTracks(log, v, s, GUARDED);
    if Tidy(log, Next(log, v)) {
      GuardedDown(log, v, Next(log, v), COLUMNS);
      AgreesTracks(log, v, s, COLUMNS);
    }
  }

  lemma HeldAtHead(log: Log, s: State)
    requires Contiguous(log) && Held(log, |log|, s)
    ensures WholeAt(log, |log|, s)
  {
    hide Agrees, Fold, GuardedTo;
  }

  lemma HeldReplay(log: Log, s: State, from: nat, upto: nat)
    requires LogOk(log) && Contiguous(log) && from < upto <= |log| && Held(log, from, s)
    ensures WholeAt(log, upto, ReplayFrom(log, s, from, upto))
  {
    hide Agrees, Tracks, Fold, GuardedTo, LogOk, ReplayFrom;
    LogIsGuarded(log, upto);
    ReplayTracks(log, s, from, upto, GUARDED);
    if Tidy(log, upto) {
      GuardedDown(log, Next(log, from), upto, COLUMNS);
      ReplayTracks(log, s, from, upto, COLUMNS);
    }
  }

  lemma HeldReplayStays(log: Log, s: State, from: nat, upto: nat)
    requires LogOk(log) && Contiguous(log) && from <= upto <= |log| && Held(log, from, s)
    ensures Held(log, upto, ReplayFrom(log, s, from, upto))
    ensures from < upto || upto == |log| ==> WholeAt(log, upto, ReplayFrom(log, s, from, upto))
  {
    hide LogOk, ReplayFrom, Held, WholeAt;
    if from < upto {
      HeldReplay(log, s, from, upto);
      WholeIsHeld(log, upto, ReplayFrom(log, s, from, upto));
    } else {
      NothingReplayed(log, s, from);
      if upto == |log| { HeldAtHead(log, s); }
    }
  }

  lemma HeldInterrupted(log: Log, v: nat, s: State, i: nat)
    requires LogOk(log) && Contiguous(log) && v < |log| && Held(log, v, s) && i <= |log[v + 1].actions|
    ensures Held(log, v, AfterAll(s, log[v + 1].actions[..i]))
  {
    hide Agrees, Tracks, Fold, GuardedTo, LogOk, AfterAll;
    LogIsGuarded(log, v + 1);
    InterruptedTracks(log, v, s, i, GUARDED);
    if Tidy(log, v + 1) { InterruptedTracks(log, v, s, i, COLUMNS); }
  }

  lemma HeldBound(log: Log, v: nat, s: State)
    requires Contiguous(log) && Held(log, v, s)
    ensures v <= |log| && Reaches(log, v) && Typed(s) && Sound(s)
  {
    hide Tracks, GuardedTo, Typed, Sound;
    TracksBound(log, v, s, GUARDED);
  }

  lemma HeldDump(log: Log, v: nat, s: State)
    requires LogOk(log) && Contiguous(log) && Held(log, v, s)
    ensures Typed(s) && Held(log, v, Load(Dump(s)))
  {
    hide Agrees, Tracks, Fold, GuardedTo, LogOk, Dump, Load, Typed;
    HeldBound(log, v, s);
    LogIsGuarded(log, Next(log, v));
    DumpTracks(log, v, s, GUARDED);
    if Tidy(log, Next(log, v)) { DumpTracks(log, v, s, COLUMNS); }
  }

  // ----- appending an entry disturbs nothing -----

  lemma {:induction false} FoldFrame(log: Log, log': Log, v: nat)
    requires Reaches(log, v) && Reaches(log', v)
    requires forall u: nat | 1 <= u <= v :: log[u] == log'[u]
    ensures Fold(log, v) == Fold(log', v)
  {
    if v > 0 { FoldFrame(log, log', v - 1); }
  }

  function Appended(log: Log, e: Entry): Log {
    log[|log| + 1 := e]
  }

  lemma AppendedIsContiguous(log: Log, e: Entry)
    requires Contiguous(log)
    ensures |Appended(log, e)| == |log| + 1 && Contiguous(Appended(log, e))
    ensures Appended(log, e)[|log| + 1] == e && forall v | v in log :: Appended(log, e)[v] == log[v]
  {
    assert |log| + 1 !in log;
  }

  lemma FoldKept(log: Log, e: Entry, v: nat)
    requires Contiguous(log) && v <= |log|
    ensures Reaches(Appended(log, e), v) && Fold(Appended(log, e), v) == Fold(log, v)
  {
    hide Appended;
    AppendedIsContiguous(log, e);
    FoldFrame(log, Appended(log, e), v);
  }

  lemma GuardedKept(log: Log, e: Entry, n: nat, ks: set<EntityKind>)
    requires Contiguous(log) && n <= |log|
    ensures GuardedTo(Appended(log, e), n, ks) <==> GuardedTo(log, n, ks)
  {
    hide Appended, Fold, Guarded;
    AppendedIsContiguous(log, e);
    FoldKept(log, e, n);
    forall v: nat | 1 <= v <= n ensures GuardedEntry(Appended(log, e), v, ks) <==> GuardedEntry(log, v, ks) {
      FoldKept(log, e, v - 1);
    }
  }

  /** An answer given at a version stays one. */
  lemma AnswersKept(log: Log, e: Entry, n: nat, f: Entry, reply: Reply)
    requires Contiguous(log) && n <= |log|
    ensures Reaches(Appended(log, e), n)
    ensures Determined(Appended(log, e), n, f.request) <==> Determined(log, n, f.request)
    ensures AnswersAt(Appended(log, e), n, f) <==> AnswersAt(log, n, f)
    ensures AnswersWith(Appended(log, e), n, f, reply) <==> AnswersWith(log, n, f, reply)
  {
    hide Appended, Fold, GuardedTo, Build, Answers, DropsOnly;
    FoldKept(log, e, n);
    GuardedKept(log, e, n, COLUMNS);
  }

  lemma AppendKeepsLog(log: Log, e: Entry)
    requires LogOk(log) && Contiguous(log) && AnswersAt(log, |log|, e)
    ensures LogOk(Appended(log, e)) && Contiguous(Appended(log, e))
  {
    hide Appended, AnswersAt, Fold;
    AppendedIsContiguous(log, e);
    forall v: nat | 1 <= v <= |log| + 1 ensures EntryOk(Appended(log, e), v) {
      AnswersKept(log, e, v - 1, Appended(log, e)[v], Unit);
      if v <= |log| { assert EntryOk(log, v); }
    }
  }

  lemma AppendKeepsWhole(log: Log, e: Entry, v: nat, s: State)
    requires Contiguous(log) && WholeAt(log, v, s)
    ensures Contiguous(Appended(log, e)) && WholeAt(Appended(log, e), v, s)
  {
    hide Appended, Fold, GuardedTo, Agrees;
    AppendedIsContiguous(log, e);
    FoldKept(log, e, v);
    GuardedKept(log, e, v, COLUMNS);
  }

  lemma AppendKeepsHeld(log: Log, e: Entry, v: nat, s: State)
    requires Contiguous(log) && Held(log, v, s)
    ensures Contiguous(Appended(log, e)) && Held(Appended(log, e), v, s)
  {
    hide Appended, Fold, GuardedTo, Smeared, Coherent;
    AppendedIsContiguous(log, e);
    if v == |log| {
      HeldAtHead(log, s);
      AppendKeepsWhole(log, e, v, s);
      WholeIsHeld(Appended(log, e), v, s);
    } else {
      FoldKept(log, e, v);
      GuardedKept(log, e, v + 1, COLUMNS);
    }
  }
}
