/** Why columns stay out of the uniqueness theorem, and when they are back in it: inserting
    them checks nothing, and what follows from a clash depends on how a replica got where it
    is; as long as no two columns are given one place, they behave like everything else. */
module Columns {
  import opened Wrappers
  import opened Order
  import opened Keys
  import opened Model
  import opened Snapshots
  import opened Replay
  import opened Scan
  import opened Repos
  import opened Guards
  import opened Groups
  import opened Entities
  import opened Checkpoints
  import opened Tracking
  import opened Protocol
  import opened Safety

  // ----- when an insert keeps the column keys unique -----

  predicate SamePlace(c: Row, d: Row) {
    c.ColumnRow? && d.ColumnRow? && c.tableId == d.tableId && c.ordinal == d.ordinal
  }

  /** No two of the columns, and none of them and a live one, have one table and ordinal. */
  predicate Placed(s: State, columns: seq<Row>) {
    && (forall i, j | 0 <= i < j < |columns| :: !SamePlace(columns[i], columns[j]))
    && (forall i, r | 0 <= i < |columns| && r in s.rows :: !SamePlace(columns[i], s.rows[r]))
  }

  /** The columns bring new ids. */
  predicate NewColumns(s: State, columns: seq<Row>) {
    && (forall i | 0 <= i < |columns| :: columns[i].ColumnRow? && Tag(Column, columns[i].id) !in s.rows)
    && (forall i, j | 0 <= i < j < |columns| :: columns[i].id != columns[j].id)
  }

  lemma PlaceIsKey(c: Row, d: Row)
    requires c.ColumnRow? && d.Kind() == Column
    ensures KeyOf(c) == KeyOf(d) <==> SamePlace(c, d)
  {
    hide PadI64;
    assert d.ColumnRow?;
    PadI64Ordered(c.ordinal, d.ordinal);
    ChildGroup(c.tableId, d.tableId, PadI64(d.ordinal));
    ChildGroup(c.tableId, c.tableId, PadI64(c.ordinal));
  }

  lemma UpsertsAsColumns(s: State, columns: seq<Row>)
    requires NewColumns(s, columns)
    ensures (forall c | c in columns :: c.ColumnRow?) && DistinctUpserts(ColumnUpserts(columns)) && AllReadable(ColumnUpserts(columns))
    ensures |ColumnUpserts(columns)| == |columns|
    ensures forall i | 0 <= i < |columns| :: ColumnUpserts(columns)[i] == Upsert(Column, columns[i].id, columns[i])
  {
  }

  /** Every row there was, and every column inserted so far, and nothing else. */
  lemma InsertedRows(s: State, columns: seq<Row>, n: nat, r: Tag)
    requires NewColumns(s, columns) && n <= |columns|
    ensures (forall c | c in columns :: c.ColumnRow?) && |ColumnUpserts(columns)| == |columns|
    ensures var rows := AfterAll(s, ColumnUpserts(columns)[..n]).rows;
            && (r in s.rows ==> r in rows && rows[r] == s.rows[r])
            && (r in rows && r !in s.rows ==> exists i :: 0 <= i < n && r == Tag(Column, columns[i].id) && rows[r] == columns[i])
  {
    hide AfterAll;
    UpsertsAsColumns(s, columns);
    var p := ColumnUpserts(columns)[..n];
    if Touches(p, r) {
      var i :| 0 <= i < |p| && p[i].Ref() == r;
      UpsertsLand(s, p, i);
    } else {
      UntouchedKept(s, p, r);
    }
  }

  lemma InsertedColumn(s: State, columns: seq<Row>, i: nat)
    requires NewColumns(s, columns) && i < |columns|
    ensures forall c | c in columns :: c.ColumnRow?
    ensures var rows := AfterAll(s, ColumnUpserts(columns)).rows;
            Tag(Column, columns[i].id) in rows && rows[Tag(Column, columns[i].id)] == columns[i]
  {
    hide AfterAll;
    UpsertsAsColumns(s, columns);
    UpsertsLand(s, ColumnUpserts(columns), i);
  }

  /** The guard holds at each column: its key is no one's. */
  lemma PlacedGuards(s: State, columns: seq<Row>, i: nat)
    requires NewColumns(s, columns) && Placed(s, columns) && i < |columns|
    requires (forall c | c in columns :: c.ColumnRow?) && |ColumnUpserts(columns)| == |columns|
    requires Sound(AfterAll(s, ColumnUpserts(columns)[..i]))
    ensures ColumnUpserts(columns)[i].Readable() && Guard(AfterAll(s, ColumnUpserts(columns)[..i]), ColumnUpserts(columns)[i], COLUMNS)
  {
    hide AfterAll, NaturalKey, KeyOf, ColumnUpserts;
    UpsertsAsColumns(s, columns);
    var t, a := AfterAll(s, ColumnUpserts(columns)[..i]), ColumnUpserts(columns)[i];
    if KeyOf(a.row).Some? && KeyOf(a.row).value in t.index {
      var k := KeyOf(a.row).value;
      IndexOwner(t, a.row);
      var owner := Tag(k.kind, t.index[k]);
      InsertedRows(s, columns, i, owner);
      PlaceIsKey(a.row, t.rows[owner]);
      assert false;
    }
  }

  lemma IndexOwner(t: State, row: Row)
    requires Sound(t) && row.ColumnRow? && KeyOf(row).Some? && KeyOf(row).value in t.index
    ensures var k := KeyOf(row).value; var owner := Tag(k.kind, t.index[k]);
            owner in t.rows && KeyOf(t.rows[owner]) == KeyOf(row) && t.rows[owner].Kind() == Column
  {
    var k := KeyOf(row).value;
    assert KeyAt(t, Tag(k.kind, t.index[k])) == Some(k);
  }

  lemma {:induction false} PlacedIsGuarded(s: State, columns: seq<Row>)
    requires Sound(s) && NewColumns(s, columns) && Placed(s, columns)
    ensures forall c | c in columns :: c.ColumnRow?
    ensures Guarded(s, ColumnUpserts(columns), COLUMNS)
  {
    hide AfterAll, Guard, Placed, Sound, ColumnUpserts;
    UpsertsAsColumns(s, columns);
    var p := ColumnUpserts(columns);
    forall i | 0 <= i < |p| ensures p[i].Readable() && Guard(AfterAll(s, p[..i]), p[i], COLUMNS) {
      AfterAllSound(s, p[..i]);
      PlacedGuards(s, columns, i);
    }
  }

  lemma UniqueIsPlaced(s: State, columns: seq<Row>)
    requires Typed(s) && NewColumns(s, columns)
    requires (forall c | c in columns :: c.ColumnRow?) && UniqueKeys(AfterAll(s, ColumnUpserts(columns)).rows, COLUMNS)
    ensures Placed(s, columns)
  {
    hide AfterAll, NaturalKey, KeyOf, ColumnUpserts;
    var rows := AfterAll(s, ColumnUpserts(columns)).rows;
    forall i | 0 <= i < |columns| ensures Tag(Column, columns[i].id) in rows && rows[Tag(Column, columns[i].id)] == columns[i] && KeyOf(columns[i]).Some? {
      InsertedColumn(s, columns, i);
      ColumnKey(columns[i], columns[i].tableId);
    }
    forall i, j | 0 <= i < j < |columns| ensures !SamePlace(columns[i], columns[j]) {
      PlaceIsKey(columns[i], columns[j]);
    }
    UpsertsAsColumns(s, columns);
    assert ColumnUpserts(columns)[..|columns|] == ColumnUpserts(columns);
    forall i, r | 0 <= i < |columns| && r in s.rows ensures !SamePlace(columns[i], s.rows[r]) {
      InsertedRows(s, columns, |columns|, r);
      if SamePlace(columns[i], s.rows[r]) { PlaceIsKey(columns[i], s.rows[r]); }
    }
  }

  /** `insert_columns` keeps the column keys the exact inverse of the rows if and only if the
      call names no place twice and none that a live column has. */
  lemma InsertKeepsCoherence(s: State, columns: seq<Row>)
    requires Coherent(s, COLUMNS) && NewColumns(s, columns)
    ensures var q := InsertColumns(columns);
            && q.WellFormed() && Build(q, [], s).Built?
            && (Coherent(AfterAll(s, Build(q, [], s).actions), COLUMNS) <==> Placed(s, columns))
            && (Guarded(s, Build(q, [], s).actions, COLUMNS) <==> Placed(s, columns))
  {
    hide AfterAll, Guarded, Placed, Complete, NoStale, ColumnUpserts, UniqueKeys;
    UpsertsAsColumns(s, columns);
    var p := ColumnUpserts(columns);
    if Placed(s, columns) { PlacedIsGuarded(s, columns); }
    if Guarded(s, p, COLUMNS) { GuardedResult(s, p, COLUMNS); }
    if Coherent(AfterAll(s, p), COLUMNS) {
      CoherentHasUniqueKeys(AfterAll(s, p), COLUMNS);
      UniqueIsPlaced(s, columns);
    }
  }

  // ----- the columns the create handler makes -----

  const MAX_I32 := 0x7fff_ffff

  /** One table's columns numbered in order, saturating where an i32 ends. */
  predicate Enumerated(columns: seq<Row>, table: Id) {
    forall i | 0 <= i < |columns| ::
      columns[i].ColumnRow? && columns[i].tableId == table && columns[i].ordinal == if i < MAX_I32 then i else MAX_I32
  }

  /** No live column of the table is numbered below n. */
  predicate NoneBelow(s: State, table: Id, n: nat) {
    forall r | r in s.rows && s.rows[r].ColumnRow? && s.rows[r].tableId == table :: !(0 <= s.rows[r].ordinal < n)
  }

  /** That is a placement exactly as long as the numbers last and the table has no column with
      one of them. */
  lemma EnumeratedIsPlaced(s: State, columns: seq<Row>, table: Id)
    requires Enumerated(columns, table)
    ensures Placed(s, columns) <==> |columns| <= MAX_I32 + 1 && NoneBelow(s, table, |columns|)
  {
    if |columns| > MAX_I32 + 1 {
      assert SamePlace(columns[MAX_I32], columns[MAX_I32 + 1]);
    } else {
      forall r | r in s.rows && s.rows[r].ColumnRow? && s.rows[r].tableId == table && 0 <= s.rows[r].ordinal < |columns| ensures !Placed(s, columns) {
        assert SamePlace(columns[s.rows[r].ordinal], s.rows[r]);
      }
    }
  }

  /** A second create under the id of a table that is there, as two creates at one staging location
      make: it is accepted, it renames the table, and the columns it brings clash with the first. */
  lemma SecondCreateClashes(s: State, id: Id, schemaId: Id, name: string, payload: string, columns: seq<Row>, r: Tag)
    requires Trusted(s) && Get(s, Table, id).Some? && GetByNaturalKey(s, Table, ChildKey(schemaId, name)).None?
    requires r in s.rows && s.rows[r].ColumnRow? && s.rows[r].tableId == id && s.rows[r].ordinal == 0
    requires Enumerated(columns, id) && columns != []
    ensures var b, was := OnTables(CreateTable(id, schemaId, name, payload), s), Get(s, Table, id).value;
            && b.Built? && was.TableRow?
            && var t := AfterAll(s, b.actions);
               && GetByNaturalKey(t, Table, ChildKey(schemaId, name)) == Some(TableRow(id, schemaId, name, payload))
               && GetByNaturalKey(t, Table, ChildKey(was.schemaId, was.name)) == None
               && !Placed(t, columns)
  {
    hide Trusted, GetByNaturalKey, KeyAt, ChildKey, Placed, Enumerated;
    CreateTableAdds(s, id, schemaId, name, payload);
    var a := Upsert(Table, id, TableRow(id, schemaId, name, payload));
    AfterOne(s, a);
    TableHeld(s, id);
    ColumnsOfKind(s, r);
    assert r in After(s, a).rows && After(s, a).rows[r] == s.rows[r];
    EnumeratedIsPlaced(After(s, a), columns, id);
  }

  lemma ColumnsOfKind(s: State, r: Tag)
    requires Trusted(s) && r in s.rows && s.rows[r].ColumnRow?
    ensures r.kind == Column
  {
    hide NoStale, Complete, FaithfulRows;
  }

  // ----- what a clash leads to -----

  function Clash(table: Id, a: Id, b: Id, ordinal: I64): Request {
    InsertColumns([ColumnRow(a, table, ordinal, ""), ColumnRow(b, table, ordinal, "")])
  }

  function Called(q: Request, s: State): State
    requires q.InsertColumns? || q.DropColumns?
    requires q.WellFormed()
  {
    AfterAll(s, Build(q, [], s).actions)
  }

  lemma ClashLeaves(table: Id, a: Id, b: Id, ordinal: I64)
    requires a != b
    ensures var c, d := ColumnRow(a, table, ordinal, ""), ColumnRow(b, table, ordinal, "");
            Called(Clash(table, a, b, ordinal), EMPTY) == State(map[Tag(Column, a) := c, Tag(Column, b) := d], map[KeyOf(d).value := b])
  {
    hide PadI64;
    var c, d := ColumnRow(a, table, ordinal, ""), ColumnRow(b, table, ordinal, "");
    var p := [Upsert(Column, a, c), Upsert(Column, b, d)];
    assert ColumnUpserts([c, d]) == p;
    AfterPrefix(EMPTY, p, 0);
    AfterPrefix(EMPTY, p, 1);
    assert p[..0] == [] && p[..2] == p;
    var first := AfterAll(EMPTY, p[..1]);
    assert first == State(map[Tag(Column, a) := c], map[KeyOf(c).value := a]);
  }

  /** Of the two, `delete_columns` finds the one the index names. */
  lemma DropFinds(table: Id, s: State, d: Row)
    requires d.ColumnRow? && d.tableId == table && s.index == map[KeyOf(d).value := d.id]
    ensures Build(DropColumns(table), [], s).Built? && Build(DropColumns(table), [], s).actions == [Remove(Column, d.id)]
  {
    hide PadI64, GroupListing, Lists;
    var k, prefix := KeyOf(d).value, ChildKey(table, "");
    ColumnKey(d, table);
    GroupListingIsFilter(s, Column, prefix);
    var keys := GroupListing(s, Column, prefix);
    SoleKey(keys, k, Group(s, Column, prefix, None));
    assert IdsUnderPrefix(s, Column, prefix) == [d.id];
  }

  lemma SoleKey(keys: seq<Tag>, k: Tag, group: set<Tag>)
    requires Lists(keys, group) && group == {k}
    ensures keys == [k]
  {
    assert k in group && k in keys;
    forall i | 0 <= i < |keys| ensures keys[i] == k { assert keys[i] in keys; }
    if |keys| > 1 {
      assert Less(Text(keys[0]), Text(keys[1]));
      LessIrreflexive(Text(k));
    }
  }

  /** Two columns put at one ordinal, and the table's columns then dropped: one row stays. The
      live replica does not list it; one that starts from a checkpoint of the same rows does.
      Both calls are accepted. */
  lemma RoutesDisagree(table: Id, a: Id, b: Id, ordinal: I64)
    requires a != b
    ensures var s := Called(DropColumns(table), Called(Clash(table, a, b, ordinal), EMPTY));
            && Typed(s) && Load(Dump(s)).rows == s.rows
            && GetColumns(s, table) == []
            && ColumnRow(a, table, ordinal, "") in GetColumns(Load(Dump(s)), table)
  {
    hide PadI64, GetColumns, Dump, Load, AfterAll, Build;
    var c, d := ColumnRow(a, table, ordinal, ""), ColumnRow(b, table, ordinal, "");
    var s1 := Called(Clash(table, a, b, ordinal), EMPTY);
    ClashLeaves(table, a, b, ordinal);
    DropFinds(table, s1, d);
    AfterOne(s1, Remove(Column, b));
    var s := Called(DropColumns(table), s1);
    assert s.rows == map[Tag(Column, a) := c] && s.index == map[];
    EmptyIndexListsNone(s, table);
    RebuiltIndex(s, COLUMNS);
    ColumnsInOrdinalOrder(Load(Dump(s)), table);
    assert s.rows[Tag(Column, a)] == c;
  }

  lemma EmptyIndexListsNone(s: State, table: Id)
    requires s.index == map[]
    ensures GetColumns(s, table) == []
  {
  }

  // ----- the column keys of a whole log -----

  predicate NoColumnUpserts(p: seq<Action>) {
    forall a | a in p && a.Upsert? :: a.kind != Column
  }

  lemma OthersWriteNoColumns(q: Request, ids: seq<Id>, s: State)
    requires q.WellFormed() && |ids| >= q.Demand() && Build(q, ids, s).Built? && !q.InsertColumns?
    ensures NoColumnUpserts(Build(q, ids, s).actions) && AllReadable(Build(q, ids, s).actions)
  {
    hide IdsByKind, OnProperties, OnRules, Removals, IdsUnderPrefix, GetByNaturalKey;
    BuildReadable(q, ids, s);
    match q
    case OnProperty(call) => PropertyActions(call, ids, s);
    case OnRule(call) => RuleActions(call, ids, s);
    case DropColumns(table) => OnlyRemovals(IdsUnderPrefix(s, Column, ChildKey(table, "")));
    case _ =>
  }

  lemma OnlyRemovals(ids: seq<Id>)
    ensures NoColumnUpserts(Removals(Column, ids))
  {
  }

  lemma NothingToGuard(s: State, p: seq<Action>)
    requires NoColumnUpserts(p) && AllReadable(p)
    ensures Guarded(s, p, COLUMNS)
  {
    hide AfterAll;
    forall i | 0 <= i < |p| ensures p[i].Readable() && Guard(AfterAll(s, p[..i]), p[i], COLUMNS) { assert p[i] in p; }
  }

  /** Every insert of the first n entries brings new ids. */
  ghost predicate NewColumnsTo(log: Log, n: nat) {
    Reaches(log, n) && forall v: nat | 1 <= v <= n && log[v].request.InsertColumns? :: NewColumns(Fold(log, v - 1), log[v].request.columns)
  }

  /** And is placed where it is applied. */
  ghost predicate PlacedTo(log: Log, n: nat) {
    Reaches(log, n) && forall v: nat | 1 <= v <= n && log[v].request.InsertColumns? :: Placed(Fold(log, v - 1), log[v].request.columns)
  }

  lemma EntryIsPlaced(log: Log, v: nat)
    requires LogOk(log) && Contiguous(log) && 1 <= v <= |log| && Coherent(Fold(log, v - 1), COLUMNS)
    requires log[v].request.InsertColumns? ==> NewColumns(Fold(log, v - 1), log[v].request.columns)
    ensures GuardedEntry(log, v, COLUMNS) <==> (log[v].request.InsertColumns? ==> Placed(Fold(log, v - 1), log[v].request.columns))
  {
    hide Build, Fold, Guarded, Coherent, Placed, NewColumns, GuardedTo;
    assert EntryOk(log, v);
    var e, s := log[v], Fold(log, v - 1);
    if e.request.InsertColumns? {
      InsertKeepsCoherence(s, e.request.columns);
      SameInsert(e, s);
    } else {
      if Answers(s, e) { OthersWriteNoColumns(e.request, e.ids, s); }
      NothingToGuard(s, e.actions);
    }
  }

  lemma SameInsert(e: Entry, s: State)
    requires e.request.InsertColumns? && Answers(s, e)
    ensures e.actions == Build(e.request, [], s).actions
  {
  }

  /** Over a log whose inserts bring new ids, no guard on the column keys has ever failed if
      and only if every insert was placed. */
  lemma {:induction false} TidyIffPlaced(log: Log, n: nat)
    requires LogOk(log) && Contiguous(log) && n <= |log| && NewColumnsTo(log, n)
    ensures Tidy(log, n) <==> PlacedTo(log, n)
  {
    hide Fold, LogOk, Coherent, Placed, NewColumns, GuardedEntry;
    InLog(log, n);
    if n > 0 {
      TidyIffPlaced(log, n - 1);
      if Tidy(log, n - 1) {
        GuardedCoherent(log, n - 1, COLUMNS);
        EntryIsPlaced(log, n);
      } else if Tidy(log, n) {
        GuardedDown(log, n - 1, n, COLUMNS);
      }
    }
  }

  /** Exactly the table's columns, each once, in ascending ordinal order. */
  ghost predicate ListsColumns(rows: map<Tag, Row>, cols: seq<Row>, table: Id) {
    && (forall c :: c in cols <==> c.ColumnRow? && c.tableId == table && exists r :: r in rows && rows[r] == c)
    && (forall i | 0 <= i < |cols| :: cols[i].ColumnRow?)
    && (forall i, j | 0 <= i < j < |cols| :: cols[i].ordinal < cols[j].ordinal)
  }

  lemma WholeLists(log: Log, v: nat, s: State, table: Id)
    requires Contiguous(log) && WholeAt(log, v, s) && Tidy(log, v)
    ensures Reaches(log, v) && ListsColumns(Fold(log, v).rows, GetColumns(s, table), table)
  {
    hide Fold, Coherent, GetColumns, GuardedTo;
    InLog(log, v);
    ColumnsInOrdinalOrder(s, table);
    assert forall i | 0 <= i < |GetColumns(s, table)| :: GetColumns(s, table)[i] in GetColumns(s, table);
  }

  /** In every run whose inserts bring new ids and are placed, every replica that is whole
      lists of every table its columns, all of them, in order. */
  lemma ColumnsAreListed(cs: seq<Cluster>, steps: seq<Step>, i: nat, r: nat, table: Id)
    requires Run(cs, steps) && i < |cs| && r in cs[i].replicas && !cs[i].replicas[r].torn
    requires NewColumnsTo(cs[i].log, cs[i].replicas[r].version) && PlacedTo(cs[i].log, cs[i].replicas[r].version)
    ensures ListsColumns(Fold(cs[i].log, cs[i].replicas[r].version).rows, GetColumns(cs[i].replicas[r].snap, table), table)
  {
    hide Run, Inv, WholeAt, Held, TaskOk, Fold, ListsColumns, LogOk, GetColumns, NewColumnsTo, PlacedTo, GuardedTo;
    RunKeeps(cs, steps, i);
    InvFacts(cs[i], r);
    InPlace(cs[i].log, cs[i].replicas[r]);
    TidyIffPlaced(cs[i].log, cs[i].replicas[r].version);
    WholeLists(cs[i].log, cs[i].replicas[r].version, cs[i].replicas[r].snap, table);
  }

  /** Every insert is what the create handler makes for a table that has no column of those numbers,
      a new table in particular. */
  ghost predicate Handled(log: Log, n: nat) {
    Reaches(log, n) && forall v: nat | 1 <= v <= n && log[v].request.InsertColumns? :: HandledAt(Fold(log, v - 1), log[v].request.columns)
  }

  ghost predicate HandledAt(s: State, columns: seq<Row>) {
    |columns| <= MAX_I32 + 1 && exists table: Id :: Enumerated(columns, table) && NoneBelow(s, table, |columns|)
  }

  lemma HandledIsPlaced(log: Log, n: nat)
    requires Handled(log, n)
    ensures PlacedTo(log, n)
  {
    hide Fold, Placed, Enumerated, NoneBelow;
    forall v: nat | 1 <= v <= n && log[v].request.InsertColumns? ensures Placed(Fold(log, v - 1), log[v].request.columns) {
      var s, columns := Fold(log, v - 1), log[v].request.columns;
      assert HandledAt(s, columns);
      var table: Id :| Enumerated(columns, table) && NoneBelow(s, table, |columns|);
      EnumeratedIsPlaced(s, columns, table);
    }
  }

  // ----- dropping columns on two replicas -----

  lemma RemovalsTellApart(a: seq<Id>, b: seq<Id>)
    ensures Removals(Column, a) == Removals(Column, b) <==> a == b
  {
    assert |Removals(Column, a)| == |a| && |Removals(Column, b)| == |b|;
    if Removals(Column, a) == Removals(Column, b) {
      forall i | 0 <= i < |a| ensures a[i] == b[i] { assert Removals(Column, a)[i] == Remove(Column, a[i]) == Remove(Column, b[i]); }
    }
  }

  lemma DropAlike(s: State, t: State, table: Id)
    requires s.rows == t.rows && NoStale(s) && NoStale(t)
    ensures Build(DropColumns(table), [], s) == Build(DropColumns(table), [], t) <==> AlikeUnder(s, t, Column, ChildKey(table, ""))
  {
    hide Removals, IdsUnderPrefix, NoStale, AlikeUnder;
    ListingsAlikeIff(s, t, Column, ChildKey(table, ""));
    RemovalsTellApart(IdsUnderPrefix(s, Column, ChildKey(table, "")), IdsUnderPrefix(t, Column, ChildKey(table, "")));
  }

  lemma WholeAlike(log: Log, v: nat, s: State, t: State, table: Id)
    requires Contiguous(log) && WholeAt(log, v, s) && WholeAt(log, v, t)
    ensures s.rows == t.rows && NoStale(s) && NoStale(t)
    ensures Tidy(log, v) ==> AlikeUnder(s, t, Column, ChildKey(table, ""))
  {
    hide Fold, GuardedTo, IdsUnderPrefix, Complete, Typed, NoStale;
    if Tidy(log, v) {
      SameListings(s, t, COLUMNS, Column, ChildKey(table, ""));
      ListingsAlikeIff(s, t, Column, ChildKey(table, ""));
    }
  }

  /** In every run, two whole replicas at one version answer a drop of a table's columns alike if
      and only if their indexes have the same entries for that table's columns. They do while the
      column keys have stayed unique. */
  lemma DropsAlikeIff(cs: seq<Cluster>, steps: seq<Step>, i: nat, r: nat, r': nat, table: Id)
    requires Run(cs, steps) && i < |cs| && r in cs[i].replicas && r' in cs[i].replicas
    requires !cs[i].replicas[r].torn && !cs[i].replicas[r'].torn && cs[i].replicas[r].version == cs[i].replicas[r'].version
    ensures var s, t := cs[i].replicas[r].snap, cs[i].replicas[r'].snap;
            && (Build(DropColumns(table), [], s) == Build(DropColumns(table), [], t) <==> AlikeUnder(s, t, Column, ChildKey(table, "")))
            && (Tidy(cs[i].log, cs[i].replicas[r].version) ==> AlikeUnder(s, t, Column, ChildKey(table, "")))
  {
    hide Run, Inv, Held, WholeAt, TaskOk, LogOk, GuardedTo, Build, AlikeUnder, NoStale;
    RunKeeps(cs, steps, i);
    InvFacts(cs[i], r);
    InvFacts(cs[i], r');
    InPlace(cs[i].log, cs[i].replicas[r]);
    InPlace(cs[i].log, cs[i].replicas[r']);
    WholeAlike(cs[i].log, cs[i].replicas[r].version, cs[i].replicas[r].snap, cs[i].replicas[r'].snap, table);
    DropAlike(cs[i].replicas[r].snap, cs[i].replicas[r'].snap, table);
  }

  // ----- what the two calls do to a table's columns -----

  predicate ColumnOf(row: Row, table: Id) {
    row.ColumnRow? && row.tableId == table
  }

  /** `insert_columns` adds its columns, each under its id, and touches nothing else. */
  lemma InsertAddsColumns(s: State, columns: seq<Row>, ids: seq<Id>, r: Tag)
    requires NewColumns(s, columns)
    ensures var q := InsertColumns(columns);
            && q.WellFormed() && Build(q, ids, s).Built? && Build(q, ids, s).reply == Unit
            && var rows := AfterAll(s, Build(q, ids, s).actions).rows;
               && (r in s.rows ==> r in rows && rows[r] == s.rows[r])
               && (r in rows && r !in s.rows ==> exists i :: 0 <= i < |columns| && r == Tag(Column, columns[i].id) && rows[r] == columns[i])
               && (forall i | 0 <= i < |columns| :: Tag(Column, columns[i].id) in rows && rows[Tag(Column, columns[i].id)] == columns[i])
  {
    hide AfterAll, ColumnUpserts;
    UpsertsAsColumns(s, columns);
    InsertedRows(s, columns, |columns|, r);
    assert ColumnUpserts(columns)[..|columns|] == ColumnUpserts(columns);
    forall i | 0 <= i < |columns|
      ensures var rows := AfterAll(s, ColumnUpserts(columns)).rows; Tag(Column, columns[i].id) in rows && rows[Tag(Column, columns[i].id)] == columns[i]
    {
      InsertedColumn(s, columns, i);
    }
  }

  /** `delete_columns`, while column keys are unique, removes the table's columns, all of them and
      nothing else. */
  lemma DropRemovesColumns(s: State, table: Id, ids: seq<Id>, r: Tag)
    requires Coherent(s, COLUMNS)
    ensures var q := DropColumns(table);
            && Build(q, ids, s).Built? && Build(q, ids, s).reply == Unit
            && var t := AfterAll(s, Build(q, ids, s).actions);
               && (r in t.rows <==> r in s.rows && !ColumnOf(s.rows[r], table))
               && (r in t.rows ==> t.rows[r] == s.rows[r])
               && Coherent(t, COLUMNS)
  {
    hide AfterAll, Removals, IdsUnderPrefix, Complete, NoStale, ChildKey;
    var prefix := ChildKey(table, "");
    var listed := IdsUnderPrefix(s, Column, prefix);
    AfterRemovals(s, Column, listed, r);
    OnlyRemovals(listed);
    RemovalsReadable(Column, listed);
    NothingToGuard(s, Removals(Column, listed));
    GuardedResult(s, Removals(Column, listed), COLUMNS);
    if r in s.rows && r.kind == Column {
      IdsUnderPrefixAreRows(s, COLUMNS, Column, prefix, r.text);
      assert s.rows[r].Kind() == Column;
      ParentGroup(s.rows[r], table);
    }
    if r in s.rows && s.rows[r].ColumnRow? { assert r.kind == Column; }
  }
}
