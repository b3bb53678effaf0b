/** Range scans over the natural-key index, and what they amount to over the rows. */
module Scan {
  import opened Wrappers
  import opened Order
  import opened Keys
  import opened Model
  import opened Snapshots

  // ----- the iterator chains of the snapshot -----

  /** The index in `BTreeMap` order. */
  function Ordered(s: State): seq<Tag> {
    TextIsInjective();
    Sort(s.index.Keys, Text)
  }

  /** `range(start..)` of an ordered listing. */
  function From(q: seq<Tag>, start: Tag): seq<Tag> {
    if q != [] && Less(Text(q[0]), Text(start)) then From(q[1..], start) else q
  }

  predicate InGroup(k: Tag, kind: EntityKind, prefix: string) {
    k.kind == kind && prefix <= k.text
  }

  /** `take_while(same kind, starts with prefix)`. */
  function TakeGroup(q: seq<Tag>, kind: EntityKind, prefix: string): (r: seq<Tag>)
    ensures forall k | k in r :: k in q && InGroup(k, kind, prefix)
  {
    if q != [] && InGroup(q[0], kind, prefix) then [q[0]] + TakeGroup(q[1..], kind, prefix) else []
  }

  predicate Beyond(after: Option<string>, name: string) {
    after.Some? ==> Less(after.value, name)
  }

  function DropSeen(q: seq<Tag>, prefix: string, after: Option<string>): seq<Tag>
    requires forall k | k in q :: prefix <= k.text
  {
    if q == [] then []
    else if Beyond(after, q[0].text[|prefix|..]) then [q[0]] + DropSeen(q[1..], prefix, after)
    else DropSeen(q[1..], prefix, after)
  }

  function ScanKeys(s: State, kind: EntityKind, prefix: string, after: Option<string>): seq<Tag> {
    var start := prefix + if after.Some? then after.value else "";
    DropSeen(TakeGroup(From(Ordered(s), Tag(kind, start)), kind, prefix), prefix, after)
  }

  /** `filter_map(|(_, id)| self.get(kind, id))`. */
  function RowsOf(s: State, keys: seq<Tag>): seq<Row> {
    if keys == [] then []
    else
      var rest := RowsOf(s, keys[1..]);
      if keys[0] in s.index && Get(s, keys[0].kind, s.index[keys[0]]).Some?
      then [Get(s, keys[0].kind, s.index[keys[0]]).value] + rest else rest
  }

  function Take<T>(q: seq<T>, limit: nat): seq<T> {
    if |q| <= limit then q else q[..limit]
  }

  /** `scan_prefix`; `scan` is the case of the empty prefix. */
  function ScanPrefix(s: State, kind: EntityKind, prefix: string, after: Option<string>, limit: nat): seq<Row> {
    Take(RowsOf(s, ScanKeys(s, kind, prefix, after)), limit)
  }

  function IdsOf(s: State, keys: seq<Tag>): (ids: seq<Id>)
    requires forall k | k in keys :: k in s.index
    ensures |ids| == |keys| && forall i | 0 <= i < |keys| :: ids[i] == s.index[keys[i]]
  {
    seq(|keys|, i requires 0 <= i < |keys| => s.index[keys[i]])
  }

  function GroupListing(s: State, kind: EntityKind, prefix: string): (r: seq<Tag>)
    ensures forall k | k in r :: k in s.index && InGroup(k, kind, prefix)
  {
    FromKeeps(Ordered(s), Tag(kind, prefix));
    TakeGroup(From(Ordered(s), Tag(kind, prefix)), kind, prefix)
  }

  function IdsUnderPrefix(s: State, kind: EntityKind, prefix: string): seq<Id> {
    IdsOf(s, GroupListing(s, kind, prefix))
  }

  // ----- they are the plain filter, sorted -----

  function Group(s: State, kind: EntityKind, prefix: string, after: Option<string>): set<Tag> {
    set k | k in s.index && InGroup(k, kind, prefix) && Beyond(after, k.text[|prefix|..])
  }

  lemma {:induction false} FromKeeps(q: seq<Tag>, start: Tag)
    ensures forall k | k in From(q, start) :: k in q
  {
    if q != [] && Less(Text(q[0]), Text(start)) { FromKeeps(q[1..], start); }
  }

  lemma {:induction false} FromIsFilter(q: seq<Tag>, start: Tag)
    requires Ascending(q, Text)
    ensures Ascending(From(q, start), Text)
    ensures forall k :: k in From(q, start) <==> k in q && AtMost(Text(start), Text(k))
  {
    if q != [] {
      LessTotal(Text(q[0]), Text(start));
      if Less(Text(q[0]), Text(start)) {
        FromIsFilter(q[1..], start);
        LessAsymmetric(Text(q[0]), Text(start));
        assert q == [q[0]] + q[1..];
      } else {
        forall k | k in q ensures AtMost(Text(start), Text(k)) {
          if k != q[0] && Text(start) != Text(q[0]) { LessTransitive(Text(start), Text(q[0]), Text(k)); }
        }
      }
    }
  }

  lemma GroupText(k: Tag, kind: EntityKind, prefix: string)
    ensures InGroup(k, kind, prefix) <==> Text(Tag(kind, prefix)) <= Text(k)
  {
    var p, t := Text(Tag(kind, prefix)), Text(k);
    if p <= t {
      assert t[..|p|] == p;
      assert t[0] == p[0];
      assert t[1..][..|prefix|] == t[..|p|][1..];
    }
    if InGroup(k, kind, prefix) {
      assert t[..|p|] == [t[0]] + k.text[..|prefix|];
    }
  }

  lemma {:induction false} TakeGroupIsFilter(q: seq<Tag>, kind: EntityKind, prefix: string)
    requires Ascending(q, Text)
    requires forall k | k in q :: AtMost(Text(Tag(kind, prefix)), Text(k))
    ensures Ascending(TakeGroup(q, kind, prefix), Text)
    ensures forall k :: k in TakeGroup(q, kind, prefix) <==> k in q && InGroup(k, kind, prefix)
  {
    hide Less, Text, InGroup, AtMost;
    if q != [] {
      assert q == [q[0]] + q[1..];
      if InGroup(q[0], kind, prefix) {
        TakeGroupIsFilter(q[1..], kind, prefix);
      } else {
        forall k | k in q && InGroup(k, kind, prefix) ensures false {
          GroupText(k, kind, prefix);
          GroupText(q[0], kind, prefix);
          PrefixBlock(Text(Tag(kind, prefix)), Text(k), Text(q[0]));
          LessAsymmetric(Text(k), Text(q[0]));
        }
      }
    }
  }

  lemma {:induction false} DropSeenIsFilter(q: seq<Tag>, prefix: string, after: Option<string>)
    requires Ascending(q, Text) && forall k | k in q :: prefix <= k.text
    ensures Ascending(DropSeen(q, prefix, after), Text)
    ensures forall k :: k in DropSeen(q, prefix, after) <==> k in q && Beyond(after, k.text[|prefix|..])
  {
    if q != [] {
      assert q == [q[0]] + q[1..];
      DropSeenIsFilter(q[1..], prefix, after);
    }
  }

  /** Starting the range at `prefix + after` skips nothing the filter would keep. */
  lemma RangeStart(k: Tag, kind: EntityKind, prefix: string, after: Option<string>)
    ensures var start := prefix + if after.Some? then after.value else "";
            && AtMost(Text(Tag(kind, prefix)), Text(Tag(kind, start)))
            && (InGroup(k, kind, prefix) && Beyond(after, k.text[|prefix|..]) ==> AtMost(Text(Tag(kind, start)), Text(k)))
  {
    var rest := if after.Some? then after.value else "";
    var p := Text(Tag(kind, prefix));
    assert Text(Tag(kind, prefix + rest)) == p + rest;
    PrefixAtMost(p, p + rest);
    if InGroup(k, kind, prefix) && Beyond(after, k.text[|prefix|..]) {
      GroupText(k, kind, prefix);
      var name := k.text[|prefix|..];
      assert Text(k) == p + name;
      if after.Some? {
        LessAfterPrefix(p, rest, name);
      } else {
        assert p + rest == p;
        PrefixAtMost(p, Text(k));
      }
    }
  }

  lemma AtMostTransitive(a: string, b: string, c: string)
    requires AtMost(a, b) && AtMost(b, c)
    ensures AtMost(a, c)
  {
    if a != b && b != c { LessTransitive(a, b, c); }
  }

  /** `q` is the ascending enumeration of `s`; there is only one. */
  ghost predicate Lists(q: seq<Tag>, s: set<Tag>) {
    Ascending(q, Text) && forall k :: k in q <==> k in s
  }

  /** The scan stops early and skips ahead, yet yields the keys of the whole index that are
      in the group and beyond the token, in order. */
  lemma ScanIsFilter(s: State, kind: EntityKind, prefix: string, after: Option<string>)
    ensures Lists(ScanKeys(s, kind, prefix, after), Group(s, kind, prefix, after))
  {
    var start := prefix + if after.Some? then after.value else "";
    var all := Ordered(s);
    FromIsFilter(all, Tag(kind, start));
    var ranged := From(all, Tag(kind, start));
    forall k | k in ranged ensures AtMost(Text(Tag(kind, prefix)), Text(k)) {
      RangeStart(k, kind, prefix, after);
      AtMostTransitive(Text(Tag(kind, prefix)), Text(Tag(kind, start)), Text(k));
    }
    TakeGroupIsFilter(ranged, kind, prefix);
    DropSeenIsFilter(TakeGroup(ranged, kind, prefix), prefix, after);
    forall k ensures k in ScanKeys(s, kind, prefix, after) <==> k in Group(s, kind, prefix, after) {
      RangeStart(k, kind, prefix, after);
    }
  }

  lemma GroupListingIsFilter(s: State, kind: EntityKind, prefix: string)
    ensures Lists(GroupListing(s, kind, prefix), Group(s, kind, prefix, None))
  {
    FromIsFilter(Ordered(s), Tag(kind, prefix));
    TakeGroupIsFilter(From(Ordered(s), Tag(kind, prefix)), kind, prefix);
    forall k ensures k in GroupListing(s, kind, prefix) <==> k in Group(s, kind, prefix, None) {
      RangeStart(k, kind, prefix, None);
      assert prefix + "" == prefix;
    }
  }

  /** The ids listed under a prefix are those of exactly the live rows whose natural key
      starts with it, each once. */
  lemma IdsUnderPrefixAreRows(s: State, ks: set<EntityKind>, kind: EntityKind, prefix: string, id: Id)
    requires Coherent(s, ks) && kind in ks
    ensures var ids := IdsUnderPrefix(s, kind, prefix);
            && (id in ids <==> Tag(kind, id) in s.rows && KeyOf(s.rows[Tag(kind, id)]).Some?
                                 && prefix <= KeyOf(s.rows[Tag(kind, id)]).value.text)
            && (forall i, j | 0 <= i < j < |ids| :: ids[i] != ids[j])
  {
    hide GroupListing, Lists, Ascending, Less, Text, InGroup;
    GroupListingIsFilter(s, kind, prefix);
    var keys := GroupListing(s, kind, prefix);
    var group := Group(s, kind, prefix, None);
    var ids := IdsUnderPrefix(s, kind, prefix);
    forall i | 0 <= i < |keys| ensures keys[i] in s.index && KeyAt(s, Tag(kind, ids[i])) == Some(keys[i]) && prefix <= keys[i].text {
      ListedInGroup(s, kind, prefix, i);
    }
    if Tag(kind, id) in s.rows && KeyOf(s.rows[Tag(kind, id)]).Some? && prefix <= KeyOf(s.rows[Tag(kind, id)]).value.text {
      var k := KeyOf(s.rows[Tag(kind, id)]).value;
      InGroupIff(k, kind, prefix);
      var i := ListsMember(keys, group, k);
      assert ids[i] == id;
    }
    forall i, j | 0 <= i < j < |ids| ensures ids[i] != ids[j] {
      ListsAscend(keys, group, i, j);
      LessIrreflexive(Text(keys[i]));
    }
  }

  lemma InGroupIff(k: Tag, kind: EntityKind, prefix: string)
    ensures InGroup(k, kind, prefix) <==> k.kind == kind && prefix <= k.text
  {
  }

  lemma ListedInGroup(s: State, kind: EntityKind, prefix: string, i: nat)
    requires NoStale(s) && i < |GroupListing(s, kind, prefix)|
    ensures var k := GroupListing(s, kind, prefix)[i];
            k in s.index && k.kind == kind && prefix <= k.text && KeyAt(s, Tag(kind, s.index[k])) == Some(k)
  {
    var k := GroupListing(s, kind, prefix)[i];
    assert k in GroupListing(s, kind, prefix);
  }

  lemma ListsAscend(q: seq<Tag>, s: set<Tag>, i: nat, j: nat)
    requires Lists(q, s) && i < j < |q|
    ensures Less(Text(q[i]), Text(q[j]))
  {
  }

  lemma ListsMember(q: seq<Tag>, s: set<Tag>, k: Tag) returns (i: nat)
    requires Lists(q, s) && k in s
    ensures i < |q| && q[i] == k
  {
    i :| i < |q| && q[i] == k;
  }

  lemma SameKeys(s: State, t: State, ks: set<EntityKind>, kind: EntityKind, prefix: string)
    requires s.rows == t.rows && Coherent(s, ks) && Coherent(t, ks) && kind in ks
    ensures GroupListing(s, kind, prefix) == GroupListing(t, kind, prefix)
  {
    hide GroupListing, Less, Text, Coherent;
    assert Group(s, kind, prefix, None) == Group(t, kind, prefix, None) by { CoherentIndexDetermined(s, t, ks); }
    GroupListingIsFilter(s, kind, prefix);
    GroupListingIsFilter(t, kind, prefix);
    SortedUnique(GroupListing(s, kind, prefix), GroupListing(t, kind, prefix), Text);
  }

  /** Listings depend only on the index entries of their kind. */
  lemma SameListings(s: State, t: State, ks: set<EntityKind>, kind: EntityKind, prefix: string)
    requires s.rows == t.rows && Coherent(s, ks) && Coherent(t, ks) && kind in ks
    ensures IdsUnderPrefix(s, kind, prefix) == IdsUnderPrefix(t, kind, prefix)
  {
    hide Coherent, GroupListing;
    SameKeys(s, t, ks, kind, prefix);
    var keys := GroupListing(s, kind, prefix);
    forall i | 0 <= i < |keys| ensures s.index[keys[i]] == t.index[keys[i]] {
      assert keys[i] in keys;
      CoherentIndexDetermined(s, t, ks);
    }
  }

  /** The two indexes have the same entries under the prefix. */
  predicate AlikeUnder(s: State, t: State, kind: EntityKind, prefix: string) {
    (forall k | k in s.index && InGroup(k, kind, prefix) :: k in t.index && t.index[k] == s.index[k])
    && (forall k | k in t.index && InGroup(k, kind, prefix) :: k in s.index)
  }

  lemma AlikeListings(s: State, t: State, kind: EntityKind, prefix: string)
    requires AlikeUnder(s, t, kind, prefix)
    ensures IdsUnderPrefix(s, kind, prefix) == IdsUnderPrefix(t, kind, prefix)
  {
    hide GroupListing, Less, Text, InGroup;
    GroupListingIsFilter(s, kind, prefix);
    GroupListingIsFilter(t, kind, prefix);
    assert Group(s, kind, prefix, None) == Group(t, kind, prefix, None);
    SortedUnique(GroupListing(s, kind, prefix), GroupListing(t, kind, prefix), Text);
    var keys := GroupListing(s, kind, prefix);
    assert forall i | 0 <= i < |keys| :: keys[i] in keys;
  }

  lemma ListedAlike(s: State, t: State, kind: EntityKind, prefix: string, k: Tag)
    requires s.rows == t.rows && NoStale(s) && NoStale(t) && IdsUnderPrefix(s, kind, prefix) == IdsUnderPrefix(t, kind, prefix)
    requires k in s.index && InGroup(k, kind, prefix)
    ensures k in t.index && t.index[k] == s.index[k]
  {
    hide GroupListing, Less, Text;
    GroupListingIsFilter(s, kind, prefix);
    var i := ListsMember(GroupListing(s, kind, prefix), Group(s, kind, prefix, None), k);
    ListedInGroup(s, kind, prefix, i);
    ListedInGroup(t, kind, prefix, i);
    assert IdsUnderPrefix(s, kind, prefix)[i] == IdsUnderPrefix(t, kind, prefix)[i];
  }

  /** Two snapshots with the same rows list the same ids under a prefix if and only if their
      indexes have the same entries there. */
  lemma ListingsAlikeIff(s: State, t: State, kind: EntityKind, prefix: string)
    requires s.rows == t.rows && NoStale(s) && NoStale(t)
    ensures IdsUnderPrefix(s, kind, prefix) == IdsUnderPrefix(t, kind, prefix) <==> AlikeUnder(s, t, kind, prefix)
  {
    hide IdsUnderPrefix, NoStale;
    if AlikeUnder(s, t, kind, prefix) { AlikeListings(s, t, kind, prefix); }
    if IdsUnderPrefix(s, kind, prefix) == IdsUnderPrefix(t, kind, prefix) {
      forall k | k in s.index && InGroup(k, kind, prefix) ensures k in t.index && t.index[k] == s.index[k] { ListedAlike(s, t, kind, prefix, k); }
      forall k | k in t.index && InGroup(k, kind, prefix) ensures k in s.index { ListedAlike(t, s, kind, prefix, k); }
    }
  }

  /** No row is lost on the way from keys to rows. */
  lemma {:induction false} RowsOfKeys(s: State, keys: seq<Tag>)
    requires NoStale(s) && forall k | k in keys :: k in s.index
    ensures |RowsOf(s, keys)| == |keys|
    ensures forall i | 0 <= i < |keys| :: KeyOf(RowsOf(s, keys)[i]) == Some(keys[i])
                                          && Get(s, keys[i].kind, s.index[keys[i]]) == Some(RowsOf(s, keys)[i])
  {
    if keys != [] {
      RowsOfKeys(s, keys[1..]);
      assert KeyAt(s, Tag(keys[0].kind, s.index[keys[0]])) == Some(keys[0]);
    }
  }

  // ----- columns -----

  /** `table::get_columns`. */
  function GetColumns(s: State, table: Id): seq<Row> {
    RowsOf(s, GroupListing(s, Column, ChildKey(table, "")))
  }

  lemma ColumnKey(row: Row, table: Id)
    requires row.Kind() == Column
    ensures row.ColumnRow? && KeyOf(row) == Some(Tag(Column, ChildKey(row.tableId, PadI64(row.ordinal))))
    ensures InGroup(KeyOf(row).value, Column, ChildKey(table, "")) <==> row.tableId == table
  {
    ChildGroup(table, row.tableId, PadI64(row.ordinal));
  }

  lemma ColumnListing(s: State, table: Id)
    requires Coherent(s, {Column})
    ensures var keys, cols := GroupListing(s, Column, ChildKey(table, "")), GetColumns(s, table);
            && |keys| == |cols| && Lists(keys, Group(s, Column, ChildKey(table, ""), None))
            && forall i | 0 <= i < |cols| ::
                 cols[i].ColumnRow? && cols[i].tableId == table && KeyOf(cols[i]) == Some(keys[i])
                 && Get(s, Column, s.index[keys[i]]) == Some(cols[i])
  {
    var keys, cols := GroupListing(s, Column, ChildKey(table, "")), GetColumns(s, table);
    GroupListingIsFilter(s, Column, ChildKey(table, ""));
    RowsOfKeys(s, keys);
    forall i | 0 <= i < |cols| ensures cols[i].ColumnRow? && cols[i].tableId == table && Get(s, Column, s.index[keys[i]]) == Some(cols[i]) {
      assert keys[i] in keys;
      ColumnKey(cols[i], table);
    }
  }

  lemma OrdinalOrder(a: Row, b: Row)
    requires a.ColumnRow? && b.ColumnRow? && a.tableId == b.tableId
    ensures Less(Text(KeyOf(a).value), Text(KeyOf(b).value)) <==> a.ordinal < b.ordinal
  {
    hide Less, PadI64;
    PadI64Ordered(a.ordinal, b.ordinal);
    var p := [Mark(Column)] + (a.tableId + [NUL]);
    assert Text(KeyOf(a).value) == p + PadI64(a.ordinal) && Text(KeyOf(b).value) == p + PadI64(b.ordinal);
    LessAfterPrefix(p, PadI64(a.ordinal), PadI64(b.ordinal));
  }

  /** When the column keys are coherent, a table's columns come back complete and in
      ascending ordinal order. */
  lemma ColumnsInOrdinalOrder(s: State, table: Id)
    requires Coherent(s, {Column})
    ensures var cols := GetColumns(s, table);
            && (forall c :: c in cols <==> c.ColumnRow? && c.tableId == table && exists r :: r in s.rows && s.rows[r] == c)
            && (forall i, j | 0 <= i < j < |cols| :: cols[i].ordinal < cols[j].ordinal)
  {
    hide Coherent, GroupListing, GetColumns, Lists, Group, ChildKey, Ascending;
    var keys, cols := GroupListing(s, Column, ChildKey(table, "")), GetColumns(s, table);
    ColumnListing(s, table);
    assert Lists(keys, Group(s, Column, ChildKey(table, ""), None));
    forall c | c in cols ensures c.ColumnRow? && c.tableId == table && exists r :: r in s.rows && s.rows[r] == c {
      var i :| 0 <= i < |cols| && cols[i] == c;
      assert s.rows[Tag(Column, s.index[keys[i]])] == c;
    }
    forall r | r in s.rows && s.rows[r].ColumnRow? && s.rows[r].tableId == table ensures s.rows[r] in cols {
      ListedColumn(s, table, r);
    }
    forall i, j | 0 <= i < j < |cols| ensures cols[i].ordinal < cols[j].ordinal {
      ListsAscend(keys, Group(s, Column, ChildKey(table, ""), None), i, j);
      OrdinalOrder(cols[i], cols[j]);
    }
  }

  lemma ListedColumn(s: State, table: Id, r: Tag)
    requires Coherent(s, {Column}) && r in s.rows && s.rows[r].ColumnRow? && s.rows[r].tableId == table
    ensures s.rows[r] in GetColumns(s, table)
  {
    hide GroupListing, GetColumns, Lists, ChildKey, Ascending, InGroup, PadI64;
    var keys, cols := GroupListing(s, Column, ChildKey(table, "")), GetColumns(s, table);
    ColumnListing(s, table);
    ColumnKey(s.rows[r], table);
    var k := KeyOf(s.rows[r]).value;
    assert k in s.index && s.index[k] == r.text;
    var i := ListsMember(keys, Group(s, Column, ChildKey(table, ""), None), k);
    assert cols[i] == s.rows[r];
  }
}
