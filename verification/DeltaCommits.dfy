/** Commits of a table as their writers see them: one claimant per version, a flag that only
    goes up, and requests that append in order. */
module DeltaCommits {
  import opened Wrappers
  import opened Order
  import opened Keys
  import opened Model
  import opened ContentHash
  import opened ObjectLog
  import opened Delta

  /** `rest` stands for the fields that nothing edits. */
  datatype DeltaCommit = DeltaCommit(table: Id, version: I64, rest: string, backfilled: bool)

  datatype DocCodec = DocCodec(print_: DeltaCommit -> seq<Byte>, parse: seq<Byte> -> Option<DeltaCommit>) {
    ghost predicate Valid() {
      forall d: DeltaCommit :: parse(print_(d)) == Some(d)
    }
  }

  datatype Fault = Backend | Conflict | Corrupt | KeyChanged | Hole

  // ----- appending within one request -----

  /** The first `n` commits of a request went in: by rising version, all beyond `head`, each
      where there was nothing, each now holding what was sent. */
  ghost predicate WentIn(codec: DocCodec, table: Id, commits: seq<DeltaCommit>, n: nat, head: I64, began: Objects, now: Objects)
    requires n <= |commits|
  {
    && (forall i | 0 <= i < n :: commits[i].version > head)
    && (forall i, j | 0 <= i < j < n :: commits[i].version < commits[j].version)
    && (forall i | 0 <= i < n ::
          var k := DeltaKey(table, commits[i].version);
          k !in began && k in now && now[k] == codec.print_(commits[i]))
  }

  function Latest(commits: seq<DeltaCommit>, n: nat, head: I64): I64
    requires n <= |commits|
  {
    if n == 0 then head else commits[n - 1].version
  }

  lemma OneMore(codec: DocCodec, table: Id, commits: seq<DeltaCommit>, n: nat, head: I64, began: Objects, seen: Objects, now: Objects)
    requires n < |commits| && WentIn(codec, table, commits, n, head, began, seen)
    requires commits[n].version > Latest(commits, n, head) && Extends(began, seen) && Extends(seen, now)
    requires var k := DeltaKey(table, commits[n].version); k !in seen && k in now && now[k] == codec.print_(commits[n])
    ensures WentIn(codec, table, commits, n + 1, head, began, now)
  {
    hide DeltaKey;
  }

  lemma StillIn(codec: DocCodec, table: Id, commits: seq<DeltaCommit>, n: nat, head: I64, began: Objects, seen: Objects, now: Objects)
    requires n <= |commits| && WentIn(codec, table, commits, n, head, began, seen) && Extends(seen, now)
    ensures WentIn(codec, table, commits, n, head, began, now)
  {
    hide DeltaKey;
  }

  /** The commits of an `update_table` request, each checked against the running latest and
      appended at once. A failure leaves the ones before it committed. */
  method UpdateTable(delta: DeltaLog, codec: DocCodec, table: Id, commits: seq<DeltaCommit>)
      returns (out: Result<I64, Fault>, head: I64, landed: nat, ghost known: Option<I64>, ghost read: Objects)
    requires delta.Valid()
    modifies delta, delta.log
    ensures delta.Valid() && Extends(old(delta.log.objects), delta.log.objects)
    ensures landed <= |commits| && (out.Ok? <==> landed == |commits| && out != Err(Backend))
    ensures WentIn(codec, table, commits, landed, head, old(delta.log.objects), delta.log.objects)
    ensures out.Ok? ==> out.value == Latest(commits, |commits|, head)
    ensures out == Err(Conflict) ==> landed < |commits|
    ensures out == Err(Conflict) ==>
              commits[landed].version <= Latest(commits, landed, head) || DeltaKey(table, commits[landed].version) in delta.log.objects
    ensures delta.log.honest ==> out != Err(Backend)
    ensures Extends(old(delta.log.objects), read) && Extends(read, delta.log.objects)
    ensures delta.log.honest && Keyed(delta.log.objects, table) ==>
              && Answers(known, HintFor(old(delta.latestHint), table), old(delta.log.objects), read, table)
              && HeadIs(head, known, read, table)
    ensures delta.log.honest && old(delta.log.others) == [] && Keyed(old(delta.log.objects), table) ==>
              && read == old(delta.log.objects)
              && (out.Ok? <==> Acceptable(table, commits, head, old(delta.log.objects)))
              && OnlyOurs(table, commits, landed, old(delta.log.objects), delta.log.objects)
    ensures delta.log.honest && Keyed(delta.log.objects, table)
            && (HintFor(old(delta.latestHint), table).None? || SomeNatural(old(delta.log.objects), table)) ==>
              forall v: I64 | Committed(old(delta.log.objects), table, v) :: v <= head
    ensures delta.log.honest && Partitioned(delta.log.objects, table) ==>
              head >= -1 && forall v: I64 | Committed(old(delta.log.objects), table, v) :: v <= head
  {
    hide DeltaKey, Later, Extends, Keyed, Partitioned, Between, HintsOk, WentIn, Raised, Answers, SomeNatural, HintCommitted, HeadIs, Acceptable, OnlyOurs;
    ghost var began, schedule, hint := delta.log.objects, delta.log.others, HintFor(delta.latestHint, table);
    landed, head := 0, -1;
    var latestKnown := delta.LatestVersion(table);
    LaterExtends(began, schedule, delta.log.objects, delta.log.others);
    if schedule == [] { LaterQuiet(began, delta.log.objects, delta.log.others); }
    NoneWentIn(codec, table, commits, head, began, delta.log.objects);
    read, known := delta.log.objects, None;
    ExtendsItself(read);
    if latestKnown.Err? { return Err(Backend), head, 0, known, read; }
    known := latestKnown.value;
    if latestKnown.value.Some? { head := latestKnown.value.value; }
    if delta.log.honest && Keyed(read, table) { HeadCovers(known, hint, began, read, table, head); }
    NoneWentIn(codec, table, commits, head, began, read);
    NothingOurs(table, commits, began);
    var latest := head;
    for i := 0 to |commits|
      invariant landed == i && delta.Valid() && latest == Latest(commits, i, head)
      invariant Extends(began, delta.log.objects) && Extends(read, delta.log.objects)
      invariant WentIn(codec, table, commits, i, head, began, delta.log.objects)
      invariant schedule == [] ==> delta.log.others == [] && OnlyOurs(table, commits, i, began, delta.log.objects)
    {
      if commits[i].version <= latest {
        NotAbove(table, commits, i, head, began);
        if Keyed(delta.log.objects, table) { KeyedBefore(read, delta.log.objects, table); }
        PartitionedBefore(read, delta.log.objects, table);
        return Err(Conflict), head, i, known, read;
      }
      ghost var before, left := delta.log.objects, delta.log.others;
      var created := delta.Append(table, commits[i].version, codec.print_(commits[i]));
      ghost var seen := Seen(before, left);
      AppendExtends(before, left, DeltaKey(table, commits[i].version), codec.print_(commits[i]), created, delta.log.objects);
      ExtendsTransitive(began, before, seen);
      ExtendsTransitive(began, before, delta.log.objects);
      ExtendsTransitive(read, before, delta.log.objects);
      StillIn(codec, table, commits, i, head, began, before, seen);
      if !created {
        if schedule == [] { NotFree(table, commits, i, head, began, before); }
        if Keyed(delta.log.objects, table) { KeyedBefore(read, delta.log.objects, table); }
        PartitionedBefore(read, delta.log.objects, table);
        return Err(Conflict), head, i, known, read;
      }
      OneMore(codec, table, commits, i, head, began, seen, delta.log.objects);
      if schedule == [] { OneMoreOurs(codec, table, commits, i, began, before, delta.log.objects); }
      latest := commits[i].version;
      landed := i + 1;
    }
    if Keyed(delta.log.objects, table) { KeyedBefore(read, delta.log.objects, table); }
    PartitionedBefore(read, delta.log.objects, table);
    AllWentIn(codec, table, commits, head, began, delta.log.objects);
    out := Ok(latest);
  }

  /** The head is the answer, or -1 when there is none; and there is none only for a table without
      commits. */
  ghost predicate HeadIs(head: I64, known: Option<I64>, read: Objects, table: Id) {
    && head == (if known.Some? then known.value else -1)
    && (known.Some? ==> Committed(read, table, head))
    && ((forall v: I64 :: !Committed(read, table, v)) ==> head == -1)
  }

  /** The versions rise, from beyond the head on, and none is taken. */
  ghost predicate Acceptable(table: Id, commits: seq<DeltaCommit>, head: I64, objects: Objects) {
    && (forall i | 0 <= i < |commits| :: commits[i].version > head && !Committed(objects, table, commits[i].version))
    && (forall i, j | 0 <= i < j < |commits| :: commits[i].version < commits[j].version)
  }

  /** Nothing has been put but the first n commits of the request. */
  ghost predicate OnlyOurs(table: Id, commits: seq<DeltaCommit>, n: nat, began: Objects, now: Objects)
    requires n <= |commits|
  {
    forall k | k in now :: k in began || exists i :: 0 <= i < n && DeltaKey(table, commits[i].version) == k
  }

  lemma NothingOurs(table: Id, commits: seq<DeltaCommit>, objects: Objects)
    ensures OnlyOurs(table, commits, 0, objects, objects)
  {
  }

  lemma OneMoreOurs(codec: DocCodec, table: Id, commits: seq<DeltaCommit>, n: nat, began: Objects, before: Objects, now: Objects)
    requires n < |commits| && OnlyOurs(table, commits, n, began, before)
    requires now == before[DeltaKey(table, commits[n].version) := codec.print_(commits[n])]
    ensures OnlyOurs(table, commits, n + 1, began, now)
  {
    hide DeltaKey;
    forall k | k in now ensures k in began || exists i :: 0 <= i < n + 1 && DeltaKey(table, commits[i].version) == k {
      if k in before && k !in began {
        var i :| 0 <= i < n && DeltaKey(table, commits[i].version) == k;
      }
    }
  }

  /** A version that does not rise is why a request is refused. */
  lemma NotAbove(table: Id, commits: seq<DeltaCommit>, i: nat, head: I64, began: Objects)
    requires i < |commits| && commits[i].version <= Latest(commits, i, head)
    ensures !Acceptable(table, commits, head, began)
  {
    hide DeltaKey;
  }

  /** And so is one that is taken. */
  lemma NotFree(table: Id, commits: seq<DeltaCommit>, i: nat, head: I64, began: Objects, now: Objects)
    requires i < |commits| && Committed(now, table, commits[i].version) && OnlyOurs(table, commits, i, began, now)
    ensures !Acceptable(table, commits, head, began)
  {
    hide DeltaKey;
    if !Committed(began, table, commits[i].version) {
      var j :| 0 <= j < i && DeltaKey(table, commits[j].version) == DeltaKey(table, commits[i].version);
      KeyOrder(table, commits[j].version, commits[i].version);
    }
  }

  lemma AllWentIn(codec: DocCodec, table: Id, commits: seq<DeltaCommit>, head: I64, began: Objects, now: Objects)
    requires WentIn(codec, table, commits, |commits|, head, began, now)
    ensures Acceptable(table, commits, head, began)
  {
    hide DeltaKey;
  }

  lemma NoneWentIn(codec: DocCodec, table: Id, commits: seq<DeltaCommit>, head: I64, began: Objects, now: Objects)
    ensures WentIn(codec, table, commits, 0, head, began, now)
  {
  }

  lemma PartitionedBefore(before: Objects, after: Objects, table: Id)
    requires Extends(before, after)
    ensures Partitioned(after, table) ==> Partitioned(before, table) && Keyed(after, table)
  {
    hide DeltaKey, Keyed;
    if Partitioned(after, table) {
      KeyedBefore(before, after, table);
      forall v: I64 | Committed(before, table, v) ensures v >= 0 { assert Committed(after, table, v); }
    }
  }

  lemma HeadCovers(latest: Option<I64>, hint: Option<I64>, began: Objects, read: Objects, table: Id, head: I64)
    requires Keyed(read, table) && Extends(began, read) && HintCommitted(hint, began, table)
    requires Answers(latest, hint, began, read, table)
    requires head == if latest.Some? then latest.value else -1
    ensures hint.None? || SomeNatural(began, table) ==> forall v: I64 | Committed(began, table, v) :: v <= head
    ensures Partitioned(read, table) ==> head >= -1 && forall v: I64 | Committed(began, table, v) :: v <= head
    ensures HeadIs(head, latest, read, table)
  {
    hide DeltaKey, Keyed;
    PartitionedBefore(began, read, table);
    if Partitioned(read, table) && hint.Some? { assert hint.value >= 0; }
    if hint.None? || SomeNatural(began, table) { AnswerIsBetween(latest, hint, began, read, table); }
    AnswerIsCommitted(latest, hint, began, read, table);
  }

  lemma AppendExtends(before: Objects, left: seq<Objects>, key: string, body: seq<Byte>, created: bool, after: Objects)
    requires created == (key !in Seen(before, left))
    requires after == if created then Seen(before, left)[key := body] else Seen(before, left)
    ensures Extends(before, after) && Extends(before, Seen(before, left)) && Extends(Seen(before, left), after)
  {
    SeenExtends(before, left);
  }

  // ----- listing a table's commits -----

  /** Row `i` is what the commit object of version `i` holds. */
  predicate AllRead(codec: DocCodec, objects: Objects, table: Id, versions: seq<I64>, rows: seq<DeltaCommit>) {
    |rows| <= |versions| && forall i | 0 <= i < |rows| ::
      DeltaKey(table, versions[i]) in objects && codec.parse(objects[DeltaKey(table, versions[i])]) == Some(rows[i])
  }

  lemma StillRead(codec: DocCodec, before: Objects, after: Objects, table: Id, versions: seq<I64>, rows: seq<DeltaCommit>)
    requires AllRead(codec, before, table, versions, rows) && Extends(before, after)
    ensures AllRead(codec, after, table, versions, rows)
  {
    hide DeltaKey;
  }

  lemma OneMoreRead(codec: DocCodec, objects: Objects, table: Id, versions: seq<I64>, rows: seq<DeltaCommit>, row: DeltaCommit)
    requires AllRead(codec, objects, table, versions, rows) && |rows| < |versions|
    requires var k := DeltaKey(table, versions[|rows|]); k in objects && codec.parse(objects[k]) == Some(row)
    ensures AllRead(codec, objects, table, versions, rows + [row])
  {
    hide DeltaKey;
  }

  lemma NoneRead(codec: DocCodec, objects: Objects, table: Id, versions: seq<I64>)
    ensures AllRead(codec, objects, table, versions, [])
  {
  }

  lemma ListsLater(versions: seq<I64>, began: Objects, now: Objects, later: Objects, table: Id, starting: Option<I64>, ending: Option<I64>)
    requires Lists(versions, began, now, table, starting, ending) && Extends(now, later)
    ensures Lists(versions, began, later, table, starting, ending)
  {
    hide DeltaKey, Listed, Increasing;
  }

  /** The commit object of this version holds a document. */
  predicate Parses(codec: DocCodec, objects: Objects, table: Id, version: I64) {
    Committed(objects, table, version) && codec.parse(objects[DeltaKey(table, version)]).Some?
  }

  lemma ReadParses(codec: DocCodec, objects: Objects, table: Id, versions: seq<I64>, rows: seq<DeltaCommit>, i: nat)
    requires AllRead(codec, objects, table, versions, rows) && i < |rows|
    ensures Parses(codec, objects, table, versions[i])
  {
  }

  /** The rows of the versions listed, ascending; a version that was listed but cannot be
      read is an error, not a gap. */
  method ListForTable(delta: DeltaLog, codec: DocCodec, table: Id, starting: Option<I64>, ending: Option<I64>)
      returns (out: Result<seq<DeltaCommit>, Fault>, versions: seq<I64>)
    requires delta.Valid()
    modifies delta.log
    ensures delta.Valid() && Extends(old(delta.log.objects), delta.log.objects)
    ensures out.Ok? ==> |out.value| == |versions| && AllRead(codec, delta.log.objects, table, versions, out.value)
    ensures delta.log.honest && Keyed(delta.log.objects, table) ==>
              && Lists(versions, old(delta.log.objects), delta.log.objects, table, starting, ending)
              && (out.Ok? <==> forall i | 0 <= i < |versions| :: Parses(codec, delta.log.objects, table, versions[i]))
              && (out.Err? ==> out == Err(Corrupt))
  {
    hide DeltaKey, Later, Extends, Keyed, Lists, HintsOk, AllRead;
    ghost var began, schedule := delta.log.objects, delta.log.others;
    var listed := delta.ListVersions(table, starting, ending);
    LaterExtends(began, schedule, delta.log.objects, delta.log.others);
    if listed.Err? { return Err(Backend), []; }
    versions := listed.value;
    ghost var now := delta.log.objects;
    ExtendsItself(now);
    var rows: seq<DeltaCommit> := [];
    NoneRead(codec, now, table, versions);
    for i := 0 to |versions|
      invariant |rows| == i && delta.Valid() && Extends(began, delta.log.objects) && Extends(now, delta.log.objects)
      invariant AllRead(codec, delta.log.objects, table, versions, rows)
    {
      ghost var before, left := delta.log.objects, delta.log.others;
      var bytes := delta.Read(table, versions[i]);
      SeenExtends(before, left);
      ExtendsTransitive(began, before, delta.log.objects);
      ExtendsTransitive(now, before, delta.log.objects);
      StillRead(codec, before, delta.log.objects, table, versions, rows);
      if delta.log.honest && Keyed(delta.log.objects, table) {
        KeyedBefore(now, delta.log.objects, table);
        ListsLater(versions, began, now, delta.log.objects, table, starting, ending);
        ListsCommitted(versions, began, delta.log.objects, table, starting, ending, i);
      }
      if bytes.None? { return Err(Hole), versions; }
      var row := codec.parse(bytes.value);
      if row.None? { return Err(Corrupt), versions; }
      OneMoreRead(codec, delta.log.objects, table, versions, rows, row.value);
      rows := rows + [row.value];
    }
    if delta.log.honest && Keyed(delta.log.objects, table) {
      KeyedBefore(now, delta.log.objects, table);
      ListsLater(versions, began, now, delta.log.objects, table, starting, ending);
    }
    forall i | 0 <= i < |versions| ensures Parses(codec, delta.log.objects, table, versions[i]) {
      ReadParses(codec, delta.log.objects, table, versions, rows, i);
    }
    out := Ok(rows);
  }

  lemma ListsCommitted(versions: seq<I64>, began: Objects, now: Objects, table: Id, starting: Option<I64>, ending: Option<I64>, i: nat)
    requires Lists(versions, began, now, table, starting, ending) && i < |versions|
    ensures Committed(now, table, versions[i])
  {
  }

  // ----- the one edit in place -----

  /** `mutate_commit`: read, edit, write back. Nothing guards the time between; an edit that
      would change the key is refused, and a commit that is not there is left alone. */
  method MutateCommit(log: MemoryLog, codec: DocCodec, table: Id, version: I64, edit: DeltaCommit -> DeltaCommit)
      returns (out: Result<bool, Fault>)
    modifies log
    ensures var seen := Seen(old(log.objects), old(log.others)); var k := DeltaKey(table, version);
            if k !in seen then out == Ok(false) && log.objects == seen
            else
              match codec.parse(seen[k])
              case None => out == Err(Corrupt) && log.objects == seen
              case Some(doc) =>
                if edit(doc).table != doc.table || edit(doc).version != doc.version
                then out == Err(KeyChanged) && log.objects == seen
                else out == Ok(true) && log.objects == Seen(seen, Remaining(old(log.others)))[k := codec.print_(edit(doc))]
  {
    hide DeltaKey;
    var key := DeltaKey(table, version);
    var bytes := log.Get(key);
    if bytes.None? { return Ok(false); }
    var doc := codec.parse(bytes.value);
    if doc.None? { return Err(Corrupt); }
    var edited := edit(doc.value);
    if edited.table != doc.value.table || edited.version != doc.value.version { return Err(KeyChanged); }
    log.Put(key, codec.print_(edited));
    out := Ok(true);
  }

  function Latched(doc: DeltaCommit): DeltaCommit {
    doc.(backfilled := true)
  }

  /** `mark_backfilled`: a commit that is not there is left alone, one that cannot be read is an
      error, and of any other the flag is set: table, version and the rest stay as read. */
  method MarkBackfilled(log: MemoryLog, codec: DocCodec, table: Id, version: I64) returns (out: Result<bool, Fault>)
    modifies log
    ensures var seen, k := Seen(old(log.objects), old(log.others)), DeltaKey(table, version);
            if k !in seen then out == Ok(false) && log.objects == seen
            else
              match codec.parse(seen[k])
              case None => out == Err(Corrupt) && log.objects == seen
              case Some(doc) =>
                && out == Ok(true)
                && log.objects == Seen(seen, Remaining(old(log.others)))[k := codec.print_(DeltaCommit(doc.table, doc.version, doc.rest, true))]
    ensures codec.Valid() && out == Ok(true) ==>
              var seen, k := Seen(old(log.objects), old(log.others)), DeltaKey(table, version);
              && k in log.objects && codec.parse(log.objects[k]).Some?
              && var doc, now := codec.parse(seen[k]).value, codec.parse(log.objects[k]).value;
                 now.backfilled && now.table == doc.table && now.version == doc.version && now.rest == doc.rest
  {
    hide DeltaKey;
    out := MutateCommit(log, codec, table, version, Latched);
    assert forall d: DeltaCommit {:trigger Latched(d)} :: Latched(d) == DeltaCommit(d.table, d.version, d.rest, true);
  }
}
