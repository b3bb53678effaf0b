/** The metastore: one row for ever, and the same one told to every caller, although its
    kind has no natural key for the index to defend. */
module Singleton {
  import opened Wrappers
  import opened Model
  import opened Snapshots
  import opened Replay
  import opened Scan
  import opened Repos
  import opened Guards
  import opened Checkpoints
  import opened Tracking
  import opened Protocol
  import opened Safety

  predicate IsMetastore(rows: map<Tag, Row>, ref: Tag) {
    ref in rows && ref.kind == Metastore && |ref.text| == 36
  }

  ghost predicate AtMostOne(rows: map<Tag, Row>) {
    forall q, r | IsMetastore(rows, q) && IsMetastore(rows, r) :: q == r
  }

  predicate MentionsMetastore(p: seq<Action>) {
    exists a :: a in p && a.kind == Metastore
  }

  /** Only initialisation writes a metastore row, and only where there is none. */
  lemma OnlyInitWrites(q: Request, ids: seq<Id>, s: State)
    requires q.WellFormed() && |ids| >= q.Demand() && Build(q, ids, s).Built?
    ensures MentionsMetastore(Build(q, ids, s).actions) ==>
              q.InitMetastore? && Build(q, ids, s).actions == [Upsert(Metastore, ids[0], MetastoreRow(ids[0], q.name))]
              && forall ref :: !IsMetastore(s.rows, ref)
  {
    hide IdsByKind, OnProperties, OnRules, ColumnUpserts, Removals, IdsUnderPrefix;
    match q
    case OnProperty(call) => PropertyActions(call, ids, s);
    case OnRule(call) => RuleActions(call, ids, s);
    case InitMetastore(_) => NoneListed(s);
    case InsertColumns(columns) => ColumnActions(columns);
    case DropColumns(table) => RemovalsOfKind(Column, IdsUnderPrefix(s, Column, ChildKey(table, "")));
    case _ =>
  }

  lemma NoneListed(s: State)
    ensures IdsByKind(s, Metastore) == [] ==> forall ref :: !IsMetastore(s.rows, ref)
  {
    hide IdsByKind;
    forall ref | IsMetastore(s.rows, ref) ensures IdsByKind(s, Metastore) != [] {
      assert ref == Tag(Metastore, ref.text);
      assert ref.text in IdsByKind(s, Metastore);
    }
  }

  lemma ColumnActions(columns: seq<Row>)
    requires forall c | c in columns :: c.ColumnRow?
    ensures OfKind(ColumnUpserts(columns), Column)
  {
  }

  lemma {:induction false} Unmentioned(s: State, p: seq<Action>, ref: Tag)
    requires !MentionsMetastore(p) && ref.kind == Metastore
    ensures ref in AfterAll(s, p).rows <==> ref in s.rows
    ensures ref in s.rows ==> AfterAll(s, p).rows[ref] == s.rows[ref]
  {
    assert forall i | 0 <= i < |p| :: p[i] in p;
    UntouchedKept(s, p, ref);
  }

  /** One entry on, a metastore row is still there; the rows are the same, or the first one
      has just come. */
  lemma NextFold(log: Log, v: nat, ref: Tag)
    requires LogOk(log) && v < |log|
    ensures var s, s' := Fold(log, v).rows, Fold(log, v + 1).rows;
            && (IsMetastore(s, ref) ==> IsMetastore(s', ref) && s'[ref] == s[ref])
            && (MentionsMetastore(log[v + 1].actions) ==> forall q :: !IsMetastore(s, q))
            && (IsMetastore(s', ref) && !IsMetastore(s, ref) ==>
                  log[v + 1].request.InitMetastore? && log[v + 1].ids != []
                  && ref == Tag(Metastore, log[v + 1].ids[0])
                  && log[v + 1].actions == [Upsert(Metastore, ref.text, s'[ref])])
  {
    hide Build, AfterAll, GuardedTo;
    LogIsContiguous(log);
    assert EntryOk(log, v + 1);
    var e := log[v + 1];
    if Answers(Fold(log, v), e) { OnlyInitWrites(e.request, e.ids, Fold(log, v)); }
    if MentionsMetastore(e.actions) {
      AfterOne(Fold(log, v), e.actions[0]);
    } else if ref.kind == Metastore {
      Unmentioned(Fold(log, v), e.actions, ref);
    }
  }

  lemma {:induction false} FoldHasAtMostOne(log: Log, v: nat)
    requires LogOk(log) && v <= |log|
    ensures AtMostOne(Fold(log, v).rows)
  {
    hide LogOk, Fold;
    LogIsContiguous(log);
    if v > 0 {
      FoldHasAtMostOne(log, v - 1);
      var rows := Fold(log, v).rows;
      forall q, r | IsMetastore(rows, q) && IsMetastore(rows, r) ensures q == r {
        NextFold(log, v - 1, q);
        NextFold(log, v - 1, r);
      }
    } else {
      FoldOfNothing(log);
    }
  }

  lemma FoldOfNothing(log: Log)
    ensures Fold(log, 0) == EMPTY
  {
  }

  lemma {:induction false} MetastorePersists(log: Log, v: nat, w: nat, ref: Tag)
    requires LogOk(log) && v <= w <= |log| && Reaches(log, w) && IsMetastore(Fold(log, v).rows, ref)
    ensures IsMetastore(Fold(log, w).rows, ref) && Fold(log, w).rows[ref] == Fold(log, v).rows[ref]
    decreases w
  {
    hide LogOk, Fold;
    if v < w {
      MetastorePersists(log, v, w - 1, ref);
      NextFold(log, w - 1, ref);
    }
  }

  /** Whatever metastore row a snapshot shows, torn or whole, is the one of the log's head. */
  lemma ShownIsHead(log: Log, v: nat, s: State, ref: Tag)
    requires LogOk(log) && Contiguous(log) && Held(log, v, s) && IsMetastore(s.rows, ref)
    ensures IsMetastore(Fold(log, |log|).rows, ref) && Fold(log, |log|).rows[ref] == s.rows[ref]
  {
    hide LogOk, Fold, Coherent, Sound, AfterAll, GuardedTo;
    if v < |log| {
      var p := log[v + 1].actions;
      if IsMetastore(Fold(log, v).rows, ref) && Fold(log, v).rows[ref] == s.rows[ref] {
        MetastorePersists(log, v, |log|, ref);
      } else {
        var a := Upsert(ref.kind, ref.text, s.rows[ref]);
        assert a in p;
        assert MentionsMetastore(p);
        JustWritten(log, v, a);
        MetastorePersists(log, v + 1, |log|, ref);
      }
    }
  }

  lemma JustWritten(log: Log, v: nat, a: Action)
    requires LogOk(log) && v < |log| && a in log[v + 1].actions && a.Upsert? && a.kind == Metastore
    ensures IsMetastore(Fold(log, v + 1).rows, a.Ref()) && Fold(log, v + 1).rows[a.Ref()] == a.row
  {
    hide Build, AfterAll, GuardedTo;
    LogIsContiguous(log);
    assert EntryOk(log, v + 1);
    var e := log[v + 1];
    assert MentionsMetastore(e.actions);
    OnlyInitWrites(e.request, e.ids, Fold(log, v));
    AfterOne(Fold(log, v), a);
  }

  // ----- what `get_or_init` answers -----

  /** The answer names the metastore of the log's head. */
  ghost predicate Told(log: Log, reply: Reply)
    requires Contiguous(log)
  {
    reply.Found? && exists ref :: IsMetastore(Fold(log, |log|).rows, ref) && Fold(log, |log|).rows[ref] == reply.row
  }

  ghost predicate TaskTold(log: Log, task: Task)
    requires Contiguous(log)
  {
    task.Finished? && task.request.InitMetastore? && task.outcome.Answer? ==> Told(log, task.outcome.reply)
  }

  ghost predicate AllTold(c: Cluster)
    requires Contiguous(c.log)
  {
    forall r, t | HasTask(c, r, t) :: TaskTold(c.log, c.replicas[r].tasks[t])
  }

  /** A step touches the task it names and no other. */
  lemma TaskSource(c: Cluster, step: Step, r: nat, t: nat)
    requires Enabled(c, step) && HasTask(Do(c, step), r, t)
    ensures (HasTask(c, r, t) && c.replicas[r].tasks[t] == Do(c, step).replicas[r].tasks[t])
            || (step.Read? && step.replica == r && step.task == t)
            || (step.Settle? && step.replica == r && step.task == t)
            || !EndsWell(Do(c, step).replicas[r].tasks[t])
  {
    hide AfterRead, AfterSettle, AfterCatchUp, Dump, MayRead;
    if step.replica == r && r in c.replicas {
      match step
      case Read(_, u, q, ids) => if u != t { ReadSource(|c.log|, c.replicas[r], u, q, ids, t); }
      case Settle(_, u) => if u != t { SettleSource(c.replicas[r], u, t); }
      case CatchUp(_, base, listed) => CatchUpTouches(c, c.replicas[r], base, listed);
      case _ =>
    }
  }

  predicate EndsWell(task: Task) {
    task.Finished? && task.outcome.Answer?
  }

  lemma ReadSource(head: nat, r: Replica, u: nat, q: Request, ids: seq<Id>, t: nat)
    requires q.WellFormed() && |ids| >= q.Demand() && u != t && t in AfterRead(head, r, u, q, ids).tasks
    ensures t in r.tasks && AfterRead(head, r, u, q, ids).tasks[t] == r.tasks[t]
  {
    hide Build;
  }

  lemma SettleSource(r: Replica, u: nat, t: nat)
    requires u in r.tasks && r.tasks[u].Landed? && u != t && t in AfterSettle(r, u).tasks
    ensures t in r.tasks && AfterSettle(r, u).tasks[t] == r.tasks[t]
  {
    hide AfterAll, ApplyUpTo;
  }

  lemma ReadTold(c: Cluster, r: nat, t: nat, q: Request, ids: seq<Id>)
    requires Inv(c) && Contiguous(c.log) && Enabled(c, Read(r, t, q, ids))
    ensures var after := AfterRead(|c.log|, c.replicas[r], t, q, ids); t in after.tasks ==> TaskTold(c.log, after.tasks[t])
  {
    hide Inv, LogOk, Fold, TaskOk, Held, WholeAt, ReplicaOk, MayRead, PastOf, Build, Typed;
    InvFacts(c, r);
    InPlace(c.log, c.replicas[r]);
    var s := c.replicas[r].snap;
    HeldBound(c.log, c.replicas[r].version, s);
    if q.InitMetastore? {
      GetOrInitFinds(q.name, ids, s);
      if SomeMetastore(s.rows) {
        var ref :| IsMetastore(s.rows, ref) && s.rows[ref] == Build(q, ids, s).reply.row;
        ShownIsHead(c.log, c.replicas[r].version, s, ref);
      }
    }
  }

  lemma GetOrInitFinds(name: string, ids: seq<Id>, s: State)
    requires Typed(s) && |ids| >= 1
    ensures var b := Build(InitMetastore(name), ids, s);
            && b.Built? && b.reply.Found? && (b.actions == [] ==> SomeMetastore(s.rows))
            && (SomeMetastore(s.rows) ==> exists ref :: IsMetastore(s.rows, ref) && s.rows[ref] == b.reply.row)
  {
    hide Build, AfterAll, IsMetastore;
    GetOrInitAnswers(name, ids, s);
  }

  lemma LandedTold(log: Log, version: nat, task: Task)
    requires LogOk(log) && Contiguous(log) && task.Landed? && TaskOk(log, version, task)
    requires task.entry.request.InitMetastore?
    ensures Told(log, task.reply)
  {
    hide LogOk, Fold, IdsByKind, AfterAll;
    var a := task.entry.actions[0];
    assert task.reply == Found(a.row);
    JustWritten(log, task.target - 1, a);
    MetastorePersists(log, task.target, |log|, a.Ref());
  }

  lemma ToldStays(log: Log, log': Log, reply: Reply)
    requires LogOk(log') && Contiguous(log) && Contiguous(log') && |log| <= |log'|
    requires Fold(log', |log|) == Fold(log, |log|) && Told(log, reply)
    ensures Told(log', reply)
  {
    hide LogOk, Fold;
    var ref :| IsMetastore(Fold(log, |log|).rows, ref) && Fold(log, |log|).rows[ref] == reply.row;
    MetastorePersists(log', |log|, |log'|, ref);
  }

  lemma StepTells(c: Cluster, step: Step)
    requires Inv(c) && Contiguous(c.log) && Enabled(c, step) && AllTold(c)
    ensures Contiguous(Do(c, step).log) && AllTold(Do(c, step))
  {
    hide Inv, Fold, LogOk, Do, Enabled, Told;
    var d := Do(c, step);
    StepKeepsFold(c, step, |c.log|);
    StepKeeps(c, step);
    InvFacts(d, 0);
    forall r, t | HasTask(d, r, t) ensures TaskTold(d.log, d.replicas[r].tasks[t]) {
      TaskSource(c, step, r, t);
      TaskTells(c, step, r, t);
    }
  }

  lemma TaskTells(c: Cluster, step: Step, r: nat, t: nat)
    requires Inv(c) && Contiguous(c.log) && Enabled(c, step) && AllTold(c) && HasTask(Do(c, step), r, t)
    requires LogOk(Do(c, step).log) && Contiguous(Do(c, step).log)
    requires |c.log| <= |Do(c, step).log| && Fold(Do(c, step).log, |c.log|) == Fold(c.log, |c.log|)
    ensures TaskTold(Do(c, step).log, Do(c, step).replicas[r].tasks[t])
  {
    hide Inv, Fold, LogOk, Told, AfterRead, AfterSettle, AfterCatchUp;
    TaskSource(c, step, r, t);
    var d := Do(c, step);
    var task := d.replicas[r].tasks[t];
    if HasTask(c, r, t) && c.replicas[r].tasks[t] == task {
      assert TaskTold(c.log, task);
      if task.Finished? && task.request.InitMetastore? && task.outcome.Answer? { ToldStays(c.log, d.log, task.outcome.reply); }
    } else if step.Read? && EndsWell(task) {
      ReadTold(c, r, t, step.request, step.ids);
    } else if step.Settle? && EndsWell(task) {
      InvFacts(c, r);
      SettleTold(c.log, c.replicas[r], t);
    }
  }

  lemma SettleTold(log: Log, r: Replica, t: nat)
    requires LogOk(log) && Contiguous(log) && ReplicaOk(log, r) && t in r.tasks && r.tasks[t].Landed?
    ensures var after := AfterSettle(r, t); t in after.tasks && TaskTold(log, after.tasks[t])
  {
    hide LogOk, Fold, Held, WholeAt, AfterAll, ApplyUpTo, Told, AnswersWith;
    LandedAhead(log, r, t, r.version);
    if r.tasks[t].entry.request.InitMetastore? { LandedTold(log, r.version, r.tasks[t]); }
  }

  lemma {:induction false} RunTells(cs: seq<Cluster>, steps: seq<Step>, i: nat)
    requires Run(cs, steps) && i < |cs|
    ensures Inv(cs[i]) && Contiguous(cs[i].log) && AllTold(cs[i])
  {
    hide Inv, Do, Enabled, TaskTold;
    RunKeeps(cs, steps, i);
    InvFacts(cs[i], 0);
    if i > 0 {
      RunTells(cs, steps, i - 1);
      StepTells(cs[i - 1], steps[i - 1]);
    }
  }

  /** In no run, at no version, is there a second metastore row; and any two answers of
      `get_or_init`, on whatever replicas and at whatever times, are the same row. */
  lemma OneMetastore(cs: seq<Cluster>, steps: seq<Step>, i: nat, j: nat, r: nat, t: nat, r': nat, t': nat, v: nat)
    requires Run(cs, steps) && i <= j < |cs| && HasTask(cs[i], r, t) && HasTask(cs[j], r', t')
    requires var task := cs[i].replicas[r].tasks[t]; task.Finished? && task.request.InitMetastore? && task.outcome.Answer?
    requires var task := cs[j].replicas[r'].tasks[t']; task.Finished? && task.request.InitMetastore? && task.outcome.Answer?
    ensures Inv(cs[j]) && (v <= |cs[j].log| ==> AtMostOne(Fold(cs[j].log, v).rows))
    ensures cs[i].replicas[r].tasks[t].outcome == cs[j].replicas[r'].tasks[t'].outcome
    ensures cs[i].replicas[r].tasks[t].outcome.reply.Found?
  {
    hide Inv, Do, Enabled, Fold, LogOk;
    RunTells(cs, steps, i);
    RunTells(cs, steps, j);
    InvFacts(cs[j], 0);
    HistoryIsFixed(cs, steps, i, j, |cs[i].log|);
    var first, second := cs[i].replicas[r].tasks[t], cs[j].replicas[r'].tasks[t'];
    assert TaskTold(cs[i].log, first) && TaskTold(cs[j].log, second);
    ToldStays(cs[i].log, cs[j].log, first.outcome.reply);
    FoldHasAtMostOne(cs[j].log, |cs[j].log|);
    if v <= |cs[j].log| { FoldHasAtMostOne(cs[j].log, v); }
  }

  // ----- every call is answered -----

  ghost predicate SomeMetastore(rows: map<Tag, Row>) {
    exists ref :: IsMetastore(rows, ref)
  }

  /** `get_or_init` never refuses. Where a metastore row is live it writes nothing and answers with
      a live one; where none is, the state after it has exactly the one it answers with, which has
      the name asked for, and every other row as before. */
  lemma GetOrInitAnswers(name: string, ids: seq<Id>, s: State)
    requires Typed(s) && |ids| >= 1
    ensures var b := Build(InitMetastore(name), ids, s);
            && b.Built? && b.reply.Found?
            && (SomeMetastore(s.rows) ==> b.actions == [] && exists ref :: IsMetastore(s.rows, ref) && s.rows[ref] == b.reply.row)
            && (!SomeMetastore(s.rows) ==>
                  && b.reply.row == MetastoreRow(ids[0], name) && b.actions != []
                  && AfterAll(s, b.actions).rows == s.rows[Tag(Metastore, ids[0]) := b.reply.row]
                  && forall ref :: IsMetastore(AfterAll(s, b.actions).rows, ref) <==> ref == Tag(Metastore, ids[0]))
  {
    hide IdsByKind, NoStale;
    var listed := IdsByKind(s, Metastore);
    if listed != [] {
      assert listed[0] in listed;
      assert IsMetastore(s.rows, Tag(Metastore, listed[0]));
      assert s.rows[Tag(Metastore, listed[0])].Kind() == Metastore;
    } else {
      NoneListed(s);
      var a := Upsert(Metastore, ids[0], MetastoreRow(ids[0], name));
      assert !SomeMetastore(s.rows);
      AfterOne(s, a);
      assert Build(InitMetastore(name), ids, s).actions == [a];
    }
  }

  /** How a call of `get_or_init` may end: answered, or beaten too often, or by a build that cannot
      read the row it has written. */
  predicate EndsRight(known: Known, task: Task) {
    task.Finished? && task.request.InitMetastore? ==>
      || task.outcome.Answer? || task.outcome.Exhausted?
      || (task.outcome.Broken? && |task.ids| >= 1 && !known(MetastoreRow(task.ids[0], task.request.name)))
  }

  ghost predicate AllEndRight(c: Cluster) {
    forall r, t | HasTask(c, r, t) :: EndsRight(c.replicas[r].known, c.replicas[r].tasks[t])
  }

  lemma ReadEndsRight(c: Cluster, r: nat, t: nat, q: Request, ids: seq<Id>)
    requires Inv(c) && Enabled(c, Read(r, t, q, ids))
    ensures var after := AfterRead(|c.log|, c.replicas[r], t, q, ids); t in after.tasks ==> EndsRight(after.known, after.tasks[t])
  {
    hide Inv, LogOk, TaskOk, Held, WholeAt, ReplicaOk, MayRead, PastOf, Build, Typed;
    InvFacts(c, r);
    InPlace(c.log, c.replicas[r]);
    HeldBound(c.log, c.replicas[r].version, c.replicas[r].snap);
    if q.InitMetastore? { GetOrInitBuilds(q.name, ids, c.replicas[r].snap); }
  }

  lemma GetOrInitBuilds(name: string, ids: seq<Id>, s: State)
    requires Typed(s) && |ids| >= 1
    ensures Build(InitMetastore(name), ids, s).Built?
  {
    hide Build, AfterAll, IsMetastore;
    GetOrInitAnswers(name, ids, s);
  }

  lemma SettleEndsRight(log: Log, r: Replica, t: nat)
    requires LogOk(log) && Contiguous(log) && ReplicaOk(log, r) && t in r.tasks && r.tasks[t].Landed?
    ensures var after := AfterSettle(r, t); t in after.tasks && EndsRight(after.known, after.tasks[t])
  {
    hide LogOk, Held, WholeAt, AfterAll, ApplyUpTo, TaskOk, Accepted;
    var task := r.tasks[t];
    AllAccepted(r.known, task.entry.actions);
    if task.entry.request.InitMetastore? {
      assert TaskOk(log, r.version, task);
      InitEntryIs(log, r.version, task);
      if r.known(MetastoreRow(task.entry.ids[0], task.entry.request.name)) { assert AcceptsAll(r.known, task.entry.actions); }
    }
  }

  lemma InitEntryIs(log: Log, version: nat, task: Task)
    requires Contiguous(log) && task.Landed? && TaskOk(log, version, task) && task.entry.request.InitMetastore?
    ensures |task.entry.ids| >= 1
    ensures task.entry.actions == [Upsert(Metastore, task.entry.ids[0], MetastoreRow(task.entry.ids[0], task.entry.request.name))]
  {
    hide Fold, IdsByKind, GuardedTo;
  }

  lemma StepEndsRight(c: Cluster, step: Step)
    requires Inv(c) && Enabled(c, step) && AllEndRight(c)
    ensures AllEndRight(Do(c, step))
  {
    hide Inv, Do, Enabled, EndsRight;
    var d := Do(c, step);
    forall r, t | HasTask(d, r, t) ensures EndsRight(d.replicas[r].known, d.replicas[r].tasks[t]) { TaskEndsRight(c, step, r, t); }
  }

  /** Where a task of the next cluster comes from. */
  lemma TaskOrigin(c: Cluster, step: Step, r: nat, t: nat)
    requires Enabled(c, step) && HasTask(Do(c, step), r, t)
    ensures (HasTask(c, r, t) && c.replicas[r].tasks[t] == Do(c, step).replicas[r].tasks[t] && Do(c, step).replicas[r].known == c.replicas[r].known)
            || (step.Read? && step.replica == r && step.task == t)
            || (step.Settle? && step.replica == r && step.task == t)
            || EndsRight(Do(c, step).replicas[r].known, Do(c, step).replicas[r].tasks[t])
  {
    hide AfterRead, AfterSettle, AfterCatchUp, Dump, MayRead;
    if step.replica == r && r in c.replicas {
      match step
      case Read(_, u, q, ids) =>
        if u != t {
          ReadSource(|c.log|, c.replicas[r], u, q, ids, t);
          ReadKnown(|c.log|, c.replicas[r], u, q, ids);
        }
      case Settle(_, u) =>
        if u != t {
          SettleSource(c.replicas[r], u, t);
          SettleKnown(c.replicas[r], u);
        }
      case CatchUp(_, base, listed) => CatchUpTouches(c, c.replicas[r], base, listed);
      case _ =>
    }
  }

  lemma ReadKnown(head: nat, r: Replica, t: nat, q: Request, ids: seq<Id>)
    requires q.WellFormed() && |ids| >= q.Demand()
    ensures AfterRead(head, r, t, q, ids).known == r.known
  {
    hide Build;
  }

  lemma SettleKnown(r: Replica, t: nat)
    requires t in r.tasks && r.tasks[t].Landed?
    ensures AfterSettle(r, t).known == r.known
  {
    hide AfterAll, ApplyUpTo;
  }

  lemma TaskEndsRight(c: Cluster, step: Step, r: nat, t: nat)
    requires Inv(c) && Enabled(c, step) && AllEndRight(c) && HasTask(Do(c, step), r, t)
    ensures EndsRight(Do(c, step).replicas[r].known, Do(c, step).replicas[r].tasks[t])
  {
    hide Inv, LogOk, AfterRead, AfterSettle, AfterCatchUp, EndsRight, MayRead, ReplicaOk;
    TaskOrigin(c, step, r, t);
    if HasTask(c, r, t) && c.replicas[r].tasks[t] == Do(c, step).replicas[r].tasks[t] {
      assert EndsRight(c.replicas[r].known, c.replicas[r].tasks[t]);
    }
    if step.Read? && step.replica == r && step.task == t {
      ReadEndsRight(c, r, t, step.request, step.ids);
    } else if step.Settle? && step.replica == r && step.task == t {
      InvFacts(c, r);
      SettleEndsRight(c.log, c.replicas[r], t);
    }
  }

  /** In every run, a call of `get_or_init` that has ended was answered, or gave up under
      contention; the one exception is a build that cannot read the row it wrote. */
  lemma {:induction false} MetastoreCallsEnd(cs: seq<Cluster>, steps: seq<Step>, i: nat)
    requires Run(cs, steps) && i < |cs|
    ensures AllEndRight(cs[i])
  {
    hide Inv, Do, Enabled, EndsRight;
    if i > 0 {
      MetastoreCallsEnd(cs, steps, i - 1);
      RunKeeps(cs, steps, i - 1);
      StepEndsRight(cs[i - 1], steps[i - 1]);
    }
  }
}
