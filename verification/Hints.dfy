/** The hint of one table, shared by the tasks of a replica: each reads it, lists from it and
    raises it, or appends and raises it, with any number of the others in between. */
module Hints {
  import opened Wrappers
  import opened Keys
  import opened Model
  import opened ContentHash
  import opened ObjectLog
  import opened Delta

  /** What a task has done of its call: read the hint, got its answer from a listing begun then
      and ended later, or created a commit; or it has also raised the hint by it. */
  datatype Call =
    | Listing(hint: Option<I64>, began: Objects)
    | Answering(hint: Option<I64>, began: Objects, ended: Objects, latest: Option<I64>)
    | Answered(hint: Option<I64>, began: Objects, ended: Objects, latest: Option<I64>)
    | Created(version: I64)
    | Appended(version: I64)

  datatype World = World(objects: Objects, hint: Option<I64>, calls: map<nat, Call>)

  /** `listed` is what the listing brought up; `others` what other replicas have made of the
      objects. */
  datatype Step =
    | Others(others: Objects)
    | Begin(call: nat)
    | List(call: nat, listed: Option<I64>)
    | Append(call: nat, version: I64, body: seq<Byte>)
    | Raise(call: nat)

  /** `*entry = (*entry).max(v)`. */
  function RaisedTo(hint: Option<I64>, version: I64): Option<I64> {
    if hint.Some? then Some(Max(hint.value, version)) else Some(version)
  }

  ghost predicate Enabled(table: Id, w: World, step: Step) {
    match step
    case Others(others) => Extends(w.objects, others) && Keyed(others, table)
    case Begin(call) => call !in w.calls
    case List(call, listed) =>
      call in w.calls && w.calls[call].Listing? && Answers(listed, w.calls[call].hint, w.calls[call].began, w.objects, table)
    case Append(call, version, body) => call !in w.calls
    case Raise(call) => call in w.calls && (w.calls[call].Answering? || w.calls[call].Created?)
  }

  /** An append at a version that is taken is refused. */
  function Do(table: Id, w: World, step: Step): World
    requires Enabled(table, w, step)
  {
    match step
    case Others(others) => w.(objects := others)
    case Begin(call) => w.(calls := w.calls[call := Listing(w.hint, w.objects)])
    case List(call, listed) =>
      w.(calls := w.calls[call := Answering(w.calls[call].hint, w.calls[call].began, w.objects, listed)])
    case Append(call, version, body) =>
      if Committed(w.objects, table, version) then w
      else w.(objects := w.objects[DeltaKey(table, version) := body], calls := w.calls[call := Created(version)])
    case Raise(call) =>
      match w.calls[call]
      case Answering(hint, began, ended, latest) =>
        World(w.objects, if latest.Some? then RaisedTo(w.hint, latest.value) else w.hint,
              w.calls[call := Answered(hint, began, ended, latest)])
      case Created(version) => World(w.objects, RaisedTo(w.hint, version), w.calls[call := Appended(version)])
      case _ => w
  }

  predicate AtLeast(hint: Option<I64>, low: Option<I64>) {
    low.Some? ==> hint.Some? && low.value <= hint.value
  }

  ghost predicate CallOk(table: Id, objects: Objects, hint: Option<I64>, call: Call) {
    match call
    case Listing(read, began) => Extends(began, objects) && HintCommitted(read, began, table)
    case Answering(read, began, ended, latest) =>
      Extends(began, ended) && Extends(ended, objects) && HintCommitted(read, began, table) && Answers(latest, read, began, ended, table)
    case Answered(read, began, ended, latest) =>
      && Extends(began, ended) && Extends(ended, objects) && HintCommitted(read, began, table) && Answers(latest, read, began, ended, table)
      && AtLeast(hint, latest)
    case Created(version) => Committed(objects, table, version)
    case Appended(version) => Committed(objects, table, version) && AtLeast(hint, Some(version))
  }

  ghost predicate Inv(table: Id, w: World) {
    && Keyed(w.objects, table) && HintCommitted(w.hint, w.objects, table)
    && forall c | c in w.calls :: CallOk(table, w.objects, w.hint, w.calls[c])
  }

  /** More objects and a higher hint disturb no call. */
  lemma CallStays(table: Id, before: Objects, hint: Option<I64>, after: Objects, hint': Option<I64>, call: Call)
    requires CallOk(table, before, hint, call) && Extends(before, after) && AtLeast(hint', hint)
    ensures CallOk(table, after, hint', call)
  {
    hide DeltaKey, Answers;
    match call
    case Listing(_, began) => ExtendsTransitive(began, before, after);
    case Answering(_, _, ended, _) => ExtendsTransitive(ended, before, after);
    case Answered(_, _, ended, _) => ExtendsTransitive(ended, before, after);
    case _ =>
  }

  /** What is about to be raised is committed. */
  lemma RaisesCommitted(table: Id, objects: Objects, hint: Option<I64>, call: Call)
    requires CallOk(table, objects, hint, call) && call.Answering? && call.latest.Some?
    ensures Committed(objects, table, call.latest.value)
  {
    hide DeltaKey;
    AnswerIsCommitted(call.latest, call.hint, call.began, call.ended, table);
  }

  lemma CallsStay(table: Id, w: World, objects: Objects, hint: Option<I64>)
    requires Inv(table, w) && Extends(w.objects, objects) && Keyed(objects, table)
    requires AtLeast(hint, w.hint) && HintCommitted(hint, objects, table)
    ensures Inv(table, World(objects, hint, w.calls))
  {
    hide Keyed, HintCommitted, CallOk, Extends;
    forall c | c in w.calls ensures CallOk(table, objects, hint, w.calls[c]) {
      CallStays(table, w.objects, w.hint, objects, hint, w.calls[c]);
    }
  }

  lemma CallReplaced(table: Id, w: World, c: nat, call: Call)
    requires Inv(table, w) && CallOk(table, w.objects, w.hint, call)
    ensures Inv(table, w.(calls := w.calls[c := call]))
  {
    hide Keyed, HintCommitted, CallOk;
  }

  /** Every step keeps the invariant, and none lowers the hint or loses an object. */
  lemma StepKeeps(table: Id, w: World, step: Step)
    requires Inv(table, w) && Enabled(table, w, step)
    ensures Inv(table, Do(table, w, step)) && AtLeast(Do(table, w, step).hint, w.hint) && Extends(w.objects, Do(table, w, step).objects)
  {
    hide Keyed, DeltaKey, Answers;
    ExtendsItself(w.objects);
    match step
    case Others(others) => CallsStay(table, w, others, w.hint);
    case Begin(call) => CallReplaced(table, w, call, Listing(w.hint, w.objects));
    case List(call, listed) => CallReplaced(table, w, call, Answering(w.calls[call].hint, w.calls[call].began, w.objects, listed));
    case Append(call, version, body) =>
      if !Committed(w.objects, table, version) {
        var after := w.objects[DeltaKey(table, version) := body];
        AppendKeepsKeyed(w.objects, table, version, body);
        CallsStay(table, w, after, w.hint);
        CallReplaced(table, World(after, w.hint, w.calls), call, Created(version));
      }
    case Raise(call) =>
      var was := w.calls[call];
      assert CallOk(table, w.objects, w.hint, was);
      if was.Answering? {
        if was.latest.Some? { RaisesCommitted(table, w.objects, w.hint, was); }
        var hint := if was.latest.Some? then RaisedTo(w.hint, was.latest.value) else w.hint;
        CallsStay(table, w, w.objects, hint);
        CallReplaced(table, World(w.objects, hint, w.calls), call, Answered(was.hint, was.began, was.ended, was.latest));
      } else {
        CallsStay(table, w, w.objects, RaisedTo(w.hint, was.version));
        CallReplaced(table, World(w.objects, RaisedTo(w.hint, was.version), w.calls), call, Appended(was.version));
      }
  }

  ghost predicate Run(table: Id, ws: seq<World>, steps: seq<Step>) {
    && |ws| == |steps| + 1 && Keyed(ws[0].objects, table) && ws[0] == World(ws[0].objects, None, map[])
    && forall i | 0 <= i < |steps| :: Enabled(table, ws[i], steps[i]) && ws[i + 1] == Do(table, ws[i], steps[i])
  }

  lemma {:induction false} RunKeeps(table: Id, ws: seq<World>, steps: seq<Step>, i: nat, j: nat)
    requires Run(table, ws, steps) && i <= j < |ws|
    ensures Inv(table, ws[j]) && AtLeast(ws[j].hint, ws[i].hint)
    decreases j
  {
    hide Enabled, Do, Keyed;
    if j > 0 {
      RunKeeps(table, ws, steps, if i < j then i else j - 1, j - 1);
      StepKeeps(table, ws[j - 1], steps[j - 1]);
    }
  }

  /** Over any run: the hint never falls and is a committed version; every answer is what a listing
      from the hint its task read brings up, however the others raised it meanwhile, so without a
      hint or with a version that is not negative it lies between the true maxima; and the hint
      stays at least as high as every answer given and every version appended. */
  lemma HintOnlyRises(table: Id, ws: seq<World>, steps: seq<Step>, i: nat, j: nat, c: nat)
    requires Run(table, ws, steps) && i <= j < |ws|
    ensures AtLeast(ws[j].hint, ws[i].hint) && HintCommitted(ws[j].hint, ws[j].objects, table)
    ensures c in ws[j].calls && ws[j].calls[c].Answered? ==>
              var call := ws[j].calls[c];
              && Answers(call.latest, call.hint, call.began, call.ended, table) && AtLeast(ws[j].hint, call.latest)
              && (call.hint.None? || SomeNatural(call.began, table) ==> Between(call.latest, call.began, call.ended, table))
    ensures c in ws[j].calls && ws[j].calls[c].Appended? ==>
              AtLeast(ws[j].hint, Some(ws[j].calls[c].version)) && Committed(ws[j].objects, table, ws[j].calls[c].version)
  {
    hide Enabled, Do, Keyed, Answers, Between, SomeNatural, DeltaKey;
    RunKeeps(table, ws, steps, i, j);
    if c in ws[j].calls {
      var call := ws[j].calls[c];
      assert CallOk(table, ws[j].objects, ws[j].hint, call);
      if call.Answered? && (call.hint.None? || SomeNatural(call.began, table)) {
        AnswerIsBetween(call.latest, call.hint, call.began, call.ended, table);
      }
    }
  }
}
