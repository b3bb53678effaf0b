/** What readers of a replica can see of a commit that replaces a whole group, and what a
    rolling upgrade does to that. */
module Visibility {
  import opened Wrappers
  import opened Order
  import opened Model
  import opened Snapshots
  import opened Replay
  import opened Scan
  import opened Repos
  import opened Guards
  import opened Checkpoints
  import opened Tracking
  import opened Protocol
  import opened Safety
  import opened Groups
  import opened Policy

  lemma SamePropertyMap(s: State, t: State, entityId: Id, entityType: string)
    requires s.rows == t.rows && Coherent(s, GUARDED) && Coherent(t, GUARDED)
    ensures PropertyMap(s, entityId, entityType) == PropertyMap(t, entityId, entityType)
  {
    hide Coherent, IdsUnderPrefix, PropertyPrefix;
    SameListings(s, t, GUARDED, Property, PropertyPrefix(entityId, entityType));
    SameCollect(s, t, IdsUnderPrefix(s, Property, PropertyPrefix(entityId, entityType)));
  }

  lemma {:induction false} SameCollect(s: State, t: State, ids: seq<Id>)
    requires s.rows == t.rows
    ensures Collect(s, ids) == Collect(t, ids)
  {
    if ids != [] { SameCollect(s, t, ids[..|ids| - 1]); }
  }

  /** Readers of `s` see every property map and the policy as they are at version v. */
  ghost predicate ShowsVersion(log: Log, v: nat, s: State) {
    && Reaches(log, v)
    && (forall e, ty :: PropertyMap(s, e, ty) == PropertyMap(Fold(log, v), e, ty))
    && RuleSet(s.rows) == RuleSet(Fold(log, v).rows)
  }

  lemma WholeShows(log: Log, v: nat, s: State)
    requires LogOk(log) && Contiguous(log) && WholeAt(log, v, s)
    ensures ShowsVersion(log, v, s) && Trusted(s)
  {
    hide LogOk, Fold, Coherent, PropertyMap, RuleSet, GuardedTo;
    FoldTrusted(log, v);
    TrustedIsCoherent(Fold(log, v));
    forall e, ty ensures PropertyMap(s, e, ty) == PropertyMap(Fold(log, v), e, ty) {
      SamePropertyMap(s, Fold(log, v), e, ty);
    }
  }

  /** A reader of a whole snapshot sees what the snapshot's version says: between two
      versions there is nothing to see. */
  lemma ReadersSeeVersions(cs: seq<Cluster>, steps: seq<Step>, i: nat, r: nat)
    requires Run(cs, steps) && i < |cs| && r in cs[i].replicas && !cs[i].replicas[r].torn
    ensures ShowsVersion(cs[i].log, cs[i].replicas[r].version, cs[i].replicas[r].snap)
  {
    hide Run, Inv, ShowsVersion, WholeAt, Held, TaskOk;
    RunKeeps(cs, steps, i);
    InvFacts(cs[i], r);
    InPlace(cs[i].log, cs[i].replicas[r]);
    WholeShows(cs[i].log, cs[i].replicas[r].version, cs[i].replicas[r].snap);
  }

  // ----- one entry, one version -----

  predicate IsReplace(e: Entry) {
    e.request.OnProperty? && e.request.property.ReplaceProperties?
  }

  predicate IsReplaceAll(e: Entry) {
    e.request.OnRule? && e.request.rule.ReplaceRules?
  }

  lemma EntryAnswers(log: Log, v: nat)
    requires LogOk(log) && Contiguous(log) && v in log && !log[v].request.DropColumns?
    ensures Answers(Fold(log, v - 1), log[v])
  {
    hide Answers, DropsOnly;
    assert EntryOk(log, v);
  }

  /** The entry of a `property::replace` takes the store from one map to the other at once. */
  lemma ReplacementIsOneVersion(log: Log, v: nat)
    requires LogOk(log) && Contiguous(log) && v in log && IsReplace(log[v]) && Unused(Fold(log, v - 1), Property, log[v].ids)
    ensures var call := log[v].request.property;
            var s, t := Fold(log, v - 1), Fold(log, v);
            && PropertyMap(t, call.entityId, call.entityType) == call.properties
            && forall e, ty | OtherGroup(call.entityId, call.entityType, e, ty) :: PropertyMap(t, e, ty) == PropertyMap(s, e, ty)
  {
    hide Build, LogOk, PropertyMap, AfterAll, Trusted, Unused, OtherGroup;
    FoldTrusted(log, v - 1);
    EntryAnswers(log, v);
    var e := log[v];
    var call := e.request.property;
    ReplaceIsAssignment(Fold(log, v - 1), call.entityId, call.entityType, call.properties, e.ids);
  }

  // ----- a replacement cut short -----

  /** How many of the last n actions are accepted before one is refused. */
  function RowsRead(known: Known, p: seq<Action>, n: nat): (j: nat)
    ensures j <= n
  {
    if n <= |p| then Accepted(known, p[|p| - n..]) else 0
  }

  lemma {:induction false} AcceptedConcat(known: Known, p: seq<Action>, q: seq<Action>)
    requires AcceptsAll(known, p)
    ensures Accepted(known, p + q) == |p| + Accepted(known, q)
    ensures AcceptsAll(known, p + q) <==> Accepted(known, q) == |q|
  {
    AllAccepted(known, p + q);
    if p == [] {
      assert p + q == q;
    } else {
      assert p[0] in p && (p + q)[1..] == p[1..] + q;
      AcceptedConcat(known, p[1..], q);
    }
  }

  lemma RemovalsAccepted(known: Known, kind: EntityKind, ids: seq<Id>)
    ensures AcceptsAll(known, Removals(kind, ids)) && |Removals(kind, ids)| == |ids|
  {
  }

  /** The first n entries in the order of their names. */
  function FirstEntries(properties: map<string, string>, n: nat): map<string, string>
    requires n <= |properties|
  {
    map name | name in SortedNames(properties.Keys)[..n] :: properties[name]
  }

  lemma FirstNames(properties: map<string, string>, n: nat)
    requires n <= |properties|
    ensures |properties| == |properties.Keys| && |FirstEntries(properties, n)| == n
    ensures SortedNames(FirstEntries(properties, n).Keys) == SortedNames(properties.Keys)[..n]
    ensures FirstEntries(properties, n) == properties <==> n == |properties|
  {
    hide SortedNames;
    var names := SortedNames(properties.Keys);
    var first := FirstEntries(properties, n);
    assert |properties| == |properties.Keys|;
    PlainIsInjective();
    SortedUnique(SortedNames(first.Keys), names[..n], Plain);
    assert |first| == |first.Keys| == |names[..n]|;
    if n == |properties| {
      assert names[..n] == names;
      assert first == properties;
    }
  }

  function Upserts(entityId: Id, entityType: string, properties: map<string, string>, ids: seq<Id>): seq<Action>
    requires |ids| >= |properties|
  {
    PropertyUpserts(entityId, entityType, SortedNames(properties.Keys), properties, ids)
  }

  lemma SomeUpserts(entityId: Id, entityType: string, names: seq<string>, properties: map<string, string>, some: map<string, string>, ids: seq<Id>, n: nat)
    requires n <= |names| <= |ids| && forall i | 0 <= i < |names| :: names[i] in properties
    requires forall i | 0 <= i < n :: names[i] in some && some[names[i]] == properties[names[i]]
    ensures (forall k | k in names :: k in properties) && forall k | k in names[..n] :: k in some
    ensures |PropertyUpserts(entityId, entityType, names, properties, ids)| == |names|
    ensures PropertyUpserts(entityId, entityType, names, properties, ids)[..n] == PropertyUpserts(entityId, entityType, names[..n], some, ids)
  {
  }

  lemma FirstUpserts(entityId: Id, entityType: string, properties: map<string, string>, ids: seq<Id>, n: nat)
    requires n <= |properties| <= |ids|
    ensures |FirstEntries(properties, n)| == n && |Upserts(entityId, entityType, properties, ids)| == |properties|
    ensures Upserts(entityId, entityType, properties, ids)[..n] == Upserts(entityId, entityType, FirstEntries(properties, n), ids)
  {
    hide SortedNames, PropertyUpserts;
    FirstNames(properties, n);
    var names, first := SortedNames(properties.Keys), FirstEntries(properties, n);
    assert forall i | 0 <= i < |names| :: names[i] in names;
    assert forall i | 0 <= i < n :: names[..n][i] == names[i] && names[i] in first;
    SomeUpserts(entityId, entityType, names, properties, first, ids, n);
  }

  lemma ReplaceActions(s: State, entityId: Id, entityType: string, properties: map<string, string>, ids: seq<Id>)
    requires NulFree(entityType) && |ids| >= |properties|
    ensures Build(OnProperty(ReplaceProperties(entityId, entityType, properties)), ids, s).Built?
    ensures Build(OnProperty(ReplaceProperties(entityId, entityType, properties)), ids, s).actions
         == Removals(Property, IdsUnderPrefix(s, Property, PropertyPrefix(entityId, entityType))) + Upserts(entityId, entityType, properties, ids)
  {
    hide IdsUnderPrefix, PropertyPrefix, Removals, PropertyUpserts, SortedNames, NulFree;
  }

  /** What a build that cannot read every row of a replacement makes of it: assignment of the
      entries before the first row it refuses. */
  lemma InterruptedReplace(known: Known, s: State, entityId: Id, entityType: string, properties: map<string, string>, ids: seq<Id>)
    requires Trusted(s) && NulFree(entityType) && |ids| >= |properties| && Unused(s, Property, ids)
    ensures var p := Build(OnProperty(ReplaceProperties(entityId, entityType, properties)), ids, s).actions;
            var j := RowsRead(known, p, |properties|);
            var t := ApplyUpTo(known, s, p);
            && (j == |properties| <==> AcceptsAll(known, p))
            && PropertyMap(t, entityId, entityType) == FirstEntries(properties, j)
            && forall e, ty | OtherGroup(entityId, entityType, e, ty) :: PropertyMap(t, e, ty) == PropertyMap(s, e, ty)
  {
    hide Trusted, PropertyMap, IdsUnderPrefix, PropertyPrefix, AfterAll, Removals, Upserts, Unused, OtherGroup, NulFree, Accepted, FirstEntries, Build, AcceptsAll;
    ReplaceActions(s, entityId, entityType, properties, ids);
    var listed := IdsUnderPrefix(s, Property, PropertyPrefix(entityId, entityType));
    var stale, added := Removals(Property, listed), Upserts(entityId, entityType, properties, ids);
    var p := Build(OnProperty(ReplaceProperties(entityId, entityType, properties)), ids, s).actions;
    FirstUpserts(entityId, entityType, properties, ids, 0);
    assert p[|p| - |properties|..] == added;
    RemovalsAccepted(known, Property, listed);
    AcceptedConcat(known, stale, added);
    var j := RowsRead(known, p, |properties|);
    FirstUpserts(entityId, entityType, properties, ids, j);
    assert p[..|stale| + j] == stale + added[..j];
    var first := FirstEntries(properties, j);
    ReplaceActions(s, entityId, entityType, first, ids);
    ReplaceIsAssignment(s, entityId, entityType, first, ids);
  }

  lemma ReplaceAllActions(s: State, rules: seq<Rule>, ids: seq<Id>)
    requires |ids| >= |rules|
    ensures Build(OnRule(ReplaceRules(rules)), ids, s).Built?
    ensures Build(OnRule(ReplaceRules(rules)), ids, s).actions
         == Removals(CasbinRule, IdsByKind(s, CasbinRule)) + RuleUpserts(Unseen(rules, {}), ids)
  {
    hide IdsByKind, Removals, RuleUpserts, Unseen, RuleKey, OnCatalogs, OnSchemas, OnTables, OnProperties, OnMetastore, ColumnUpserts;
  }

  /** The rules left when only some of a replacement's rows can be read. */
  lemma InterruptedReplaceAll(known: Known, s: State, rules: seq<Rule>, ids: seq<Id>)
    requires Trusted(s) && |ids| >= |rules| && Unused(s, CasbinRule, ids)
    ensures var p := Build(OnRule(ReplaceRules(rules)), ids, s).actions;
            var kept := Unseen(rules, {});
            var j := RowsRead(known, p, |kept|);
            && (j == |kept| <==> AcceptsAll(known, p))
            && RuleSet(ApplyUpTo(known, s, p).rows) == set q | q in kept[..j]
  {
    hide Trusted, AfterAll, Removals, RuleUpserts, IdsByKind, Unseen, Unused, RuleKey, Accepted, Build, AcceptsAll, RuleSet;
    ReplaceAllActions(s, rules, ids);
    var stale, kept := Removals(CasbinRule, IdsByKind(s, CasbinRule)), Unseen(rules, {});
    var added := RuleUpserts(kept, ids);
    var p := Build(OnRule(ReplaceRules(rules)), ids, s).actions;
    RemovalsAccepted(known, CasbinRule, IdsByKind(s, CasbinRule));
    AcceptedConcat(known, stale, added);
    FirstRules(kept, ids, 0);
    assert p[|p| - |kept|..] == added;
    var j := RowsRead(known, p, |kept|);
    FirstRules(kept, ids, j);
    assert p[..|stale| + j] == stale + added[..j];
    SomeRulesLeft(s, kept[..j], ids);
  }

  lemma SomeRulesLeft(s: State, rules: seq<Rule>, ids: seq<Id>)
    requires Trusted(s) && |ids| >= |rules| && Unused(s, CasbinRule, ids)
    ensures RuleSet(AfterAll(s, Removals(CasbinRule, IdsByKind(s, CasbinRule)) + RuleUpserts(rules, ids)).rows) == set q | q in rules
  {
    hide Trusted, AfterAll, Removals, RuleUpserts, IdsByKind, Unused, RuleSet;
    var stale := Removals(CasbinRule, IdsByKind(s, CasbinRule));
    AfterAllConcat(s, stale, RuleUpserts(rules, ids));
    ClearedHoldsNone(s, ids);
    UnusedRules(AfterAll(s, stale), rules, ids);
  }

  lemma FirstRules(rules: seq<Rule>, ids: seq<Id>, n: nat)
    requires n <= |rules| <= |ids|
    ensures |RuleUpserts(rules, ids)| == |rules| && RuleUpserts(rules, ids)[..n] == RuleUpserts(rules[..n], ids)
  {
  }

  lemma {:induction false} UnseenApart(rules: seq<Rule>, n: nat)
    requires n <= |Unseen(rules, {})|
    ensures (set q | q in Unseen(rules, {})[..n]) == (set q | q in Unseen(rules, {})) <==> n == |Unseen(rules, {})|
  {
    hide Unseen, RuleKey;
    UnseenDistinct(rules, {});
    var kept := Unseen(rules, {});
    var some, all := set q | q in kept[..n], set q | q in kept;
    if n == |kept| {
      assert kept[..n] == kept;
    } else {
      assert kept[n] in all && kept[n] !in some;
    }
  }

  // ----- what readers see of a catch-up -----

  /** A catch-up can begin here, and from a snapshot that is one version and no more. */
  ghost predicate WholeStart(c: Cluster, r: Replica, base: Option<nat>) {
    && Contiguous(c.log) && (base.Some? ==> base.value in c.checkpoints)
    && WholeAt(c.log, StartVersion(r, base), StartState(c, r, base))
    && (r.version == 0 && base.Some? ==> AcceptsAll(r.known, c.checkpoints[base.value]))
  }

  /** `s` is version u; `after` is it, or it and the part of the next entry that the build
      could read. */
  ghost predicate EndsAt(c: Cluster, known: Known, u: nat, s: State, listed: nat, after: State) {
    && Contiguous(c.log) && WholeAt(c.log, u, s) && u <= listed <= |c.log|
    && if u == listed then after == s
       else u + 1 in c.log && !AcceptsAll(known, c.log[u + 1].actions) && after == ApplyUpTo(known, s, c.log[u + 1].actions)
  }

  lemma CatchUpEnds(c: Cluster, r: Replica, base: Option<nat>, listed: nat) returns (s: State)
    requires LogOk(c.log) && Contiguous(c.log) && CanReplay(c, r, base, listed, None) && WholeStart(c, r, base)
    ensures EndsAt(c, r.known, AfterCatchUp(c, r, base, listed).version, s, listed, AfterCatchUp(c, r, base, listed).snap)
  {
    hide LogOk, Held, WholeAt, Load, AfterAll, AcceptsAll, ReplayFrom, StartState, Accepted, AfterCatchUp, ApplyUpTo;
    CatchUpShape(c, r, base, listed);
    var from, start := StartVersion(r, base), StartState(c, r, base);
    var u := Reached(c.log, r.known, from, listed);
    s := ReplayFrom(c.log, start, from, u);
    InLog(c.log, listed);
    WholeIsHeld(c.log, from, start);
    HeldReplayStays(c.log, start, from, u);
    NothingReplayed(c.log, start, from);
  }

  lemma UnusedByRows(s: State, t: State, kind: EntityKind, ids: seq<Id>)
    requires s.rows == t.rows
    ensures Unused(s, kind, ids) <==> Unused(t, kind, ids)
  {
  }

  /** What readers see when a catch-up of the entries up to `listed` has stopped at u. */
  ghost predicate ShowsAfter(log: Log, known: Known, u: nat, listed: nat, s: State) {
    if u == listed then ShowsVersion(log, u, s) else ShowsFirstEntries(log, known, u, s) && ShowsFirstRules(log, known, u, s)
  }

  /** A catch-up from a whole snapshot ends at a version, and then shows it, or stops in an
      entry. Of one that replaces a property map or the policy it then shows the part before
      the first row its build cannot read. That is what the version before or the version
      after says exactly when nothing is refused or the part is what was there before. */
  lemma CatchUpShows(c: Cluster, r: Replica, base: Option<nat>, listed: nat)
    requires LogOk(c.log) && Contiguous(c.log) && CanReplay(c, r, base, listed, None) && WholeStart(c, r, base)
    ensures ShowsAfter(c.log, r.known, AfterCatchUp(c, r, base, listed).version, listed, AfterCatchUp(c, r, base, listed).snap)
  {
    hide LogOk, WholeAt, AfterCatchUp, ShowsVersion, ShowsFirstEntries, ShowsFirstRules, AcceptsAll, ApplyUpTo, WholeStart, StartState;
    var s := CatchUpEnds(c, r, base, listed);
    var after := AfterCatchUp(c, r, base, listed);
    WholeShows(c.log, after.version, s);
    if after.version < listed {
      PropertiesCutShort(c.log, r.known, after.version, s);
      RulesCutShort(c.log, r.known, after.version, s);
    }
  }

  /** So in every run, for the catch-ups of every replica that is whole. */
  lemma EveryCatchUpShows(cs: seq<Cluster>, steps: seq<Step>, i: nat, r: nat, base: Option<nat>, listed: nat)
    requires Run(cs, steps) && i < |steps| && steps[i] == CatchUp(r, base, listed)
    requires r in cs[i].replicas && r in cs[i + 1].replicas && WholeStart(cs[i], cs[i].replicas[r], base)
    ensures ShowsAfter(cs[i].log, cs[i].replicas[r].known, cs[i + 1].replicas[r].version, listed, cs[i + 1].replicas[r].snap)
    ensures !cs[i].replicas[r].torn ==> WholeStart(cs[i], cs[i].replicas[r], None)
  {
    hide Inv, LogOk, Held, WholeAt, AfterCatchUp, ShowsAfter, TaskOk;
    RunKeeps(cs, steps, i);
    InvFacts(cs[i], r);
    InPlace(cs[i].log, cs[i].replicas[r]);
    CatchUpShows(cs[i], cs[i].replicas[r], base, listed);
  }

  /** Where `e` leads from `before` to `after`: what is shown by `s`, a whole copy of `before`
      with the readable part of `e` on top. */
  ghost predicate FirstEntriesShown(known: Known, e: Entry, before: State, after: State, s: State)
    requires IsReplace(e)
  {
    var call := e.request.property;
    var j := RowsRead(known, e.actions, |call.properties|);
    var shown, was, will := PropertyMap(s, call.entityId, call.entityType), PropertyMap(before, call.entityId, call.entityType), PropertyMap(after, call.entityId, call.entityType);
    && (j == |call.properties| <==> AcceptsAll(known, e.actions))
    && shown == FirstEntries(call.properties, j)
    && (shown == was || shown == will <==> AcceptsAll(known, e.actions) || FirstEntries(call.properties, j) == was)
    && (forall i, ty | OtherGroup(call.entityId, call.entityType, i, ty) :: PropertyMap(s, i, ty) == PropertyMap(before, i, ty))
  }

  ghost predicate ShowsFirstEntries(log: Log, known: Known, u: nat, s: State) {
    && Reaches(log, u + 1)
    && (IsReplace(log[u + 1]) && Unused(Fold(log, u), Property, log[u + 1].ids) ==>
          FirstEntriesShown(known, log[u + 1], Fold(log, u), Fold(log, u + 1), s))
  }

  lemma PropertiesCutShort(log: Log, known: Known, u: nat, s: State)
    requires LogOk(log) && Contiguous(log) && WholeAt(log, u, s) && u + 1 in log
    ensures ShowsFirstEntries(log, known, u, ApplyUpTo(known, s, log[u + 1].actions))
  {
    hide LogOk, WholeAt, PropertyMap, Trusted, ApplyUpTo, Fold, AcceptsAll, Unused, FirstEntriesShown, Build, RuleSet, AfterAll;
    var e := log[u + 1];
    if IsReplace(e) && Unused(Fold(log, u), Property, e.ids) {
      WholeShows(log, u, s);
      EntryAnswers(log, u + 1);
      SameEntry(log, u, s, e);
      UnusedByRows(s, Fold(log, u), Property, e.ids);
      FoldStep(log, u);
      FoldTrusted(log, u);
      EntryCutShort(known, e, Fold(log, u), s);
    }
  }

  lemma FoldStep(log: Log, u: nat)
    requires Reaches(log, u + 1)
    ensures Fold(log, u + 1) == AfterAll(Fold(log, u), log[u + 1].actions)
  {
  }

  lemma EntryCutShort(known: Known, e: Entry, before: State, s: State)
    requires IsReplace(e) && Answers(before, e) && Answers(s, e) && Trusted(before) && Trusted(s)
    requires Unused(before, Property, e.ids) && Unused(s, Property, e.ids)
    requires forall i, ty :: PropertyMap(s, i, ty) == PropertyMap(before, i, ty)
    ensures FirstEntriesShown(known, e, before, AfterAll(before, e.actions), ApplyUpTo(known, s, e.actions))
  {
    hide PropertyMap, Trusted, ApplyUpTo, AfterAll, AcceptsAll, Unused, RowsRead, FirstEntries, OtherGroup, Answers;
    var call := e.request.property;
    IsAnswer(e, before);
    IsAnswer(e, s);
    InterruptedReplace(known, s, call.entityId, call.entityType, call.properties, e.ids);
    ReplaceIsAssignment(before, call.entityId, call.entityType, call.properties, e.ids);
    FirstNames(call.properties, RowsRead(known, e.actions, |call.properties|));
  }

  lemma IsAnswer(e: Entry, s: State)
    requires IsReplace(e) && Answers(s, e)
    ensures var call := e.request.property;
            && NulFree(call.entityType) && |e.ids| >= |call.properties|
            && e.request == OnProperty(ReplaceProperties(call.entityId, call.entityType, call.properties))
            && Build(e.request, e.ids, s) == Built(e.actions, Unit)
  {
    hide NulFree, Removals, IdsUnderPrefix, SortedNames, PropertyUpserts;
  }

  lemma SameEntry(log: Log, u: nat, s: State, e: Entry)
    requires LogOk(log) && Contiguous(log) && WholeAt(log, u, s) && Answers(Fold(log, u), e) && !e.request.DropColumns?
    ensures Build(e.request, e.ids, s) == Build(e.request, e.ids, Fold(log, u)) && s.rows == Fold(log, u).rows
  {
    hide LogOk, Build, Fold, Coherent;
    WholeAnswers(log, u, s, e.request, e.ids);
  }

  ghost predicate ShowsFirstRules(log: Log, known: Known, u: nat, s: State) {
    && Reaches(log, u + 1)
    && (IsReplaceAll(log[u + 1]) && Unused(Fold(log, u), CasbinRule, log[u + 1].ids) ==>
          var kept := Unseen(log[u + 1].request.rule.rules, {});
          var j := RowsRead(known, log[u + 1].actions, |kept|);
          var left := set q | q in kept[..j];
          && (j < |kept| <==> !AcceptsAll(known, log[u + 1].actions))
          && RuleSet(s.rows) == left
          && (RuleSet(s.rows) == RuleSet(Fold(log, u).rows) || RuleSet(s.rows) == RuleSet(Fold(log, u + 1).rows) <==>
                AcceptsAll(known, log[u + 1].actions) || left == RuleSet(Fold(log, u).rows)))
  }

  lemma RulesCutShort(log: Log, known: Known, u: nat, s: State)
    requires LogOk(log) && Contiguous(log) && WholeAt(log, u, s) && u + 1 in log
    ensures ShowsFirstRules(log, known, u, ApplyUpTo(known, s, log[u + 1].actions))
  {
    hide LogOk, WholeAt, RuleSet, Trusted, ApplyUpTo, Build, AcceptsAll, RowsRead, Unseen, AfterAll;
    var e := log[u + 1];
    if IsReplaceAll(e) && Unused(Fold(log, u), CasbinRule, e.ids) {
      var rules := e.request.rule.rules;
      WholeShows(log, u, s);
      FoldTrusted(log, u);
      EntryAnswers(log, u + 1);
      SameEntry(log, u, s, e);
      InterruptedReplaceAll(known, s, rules, e.ids);
      ReplaceAllIsAssignment(Fold(log, u), rules, e.ids);
      UnseenApart(rules, RowsRead(known, e.actions, |Unseen(rules, {})|));
    }
  }
}
