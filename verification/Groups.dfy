/** Whole-group writes, seen from the caller: properties of an entity behave as one map, and
    the policy as one set of rules. */
module Groups {
  import opened Wrappers
  import opened Order
  import opened Model
  import opened Snapshots
  import opened Replay
  import opened Scan
  import opened Repos
  import opened Guards

  // ----- the map of an entity's properties -----

  /** Filling a map from listed ids, as `get_for_entity` does; rows of another type, which
      `get_for_entity` refuses, do not occur. */
  function Collect(s: State, ids: seq<Id>): map<string, string> {
    if ids == [] then map[]
    else
      var rest := Collect(s, ids[..|ids| - 1]);
      var row := Get(s, Property, ids[|ids| - 1]);
      if row.Some? && row.value.PropertyRow? then rest[row.value.key := row.value.value] else rest
  }

  function PropertyMap(s: State, entityId: Id, entityType: string): map<string, string> {
    Collect(s, IdsUnderPrefix(s, Property, PropertyPrefix(entityId, entityType)))
  }

  lemma CollectNext(s: State, ids: seq<Id>, i: nat)
    requires i < |ids|
    ensures var row := Get(s, Property, ids[i]);
            Collect(s, ids[..i + 1]) ==
              if row.Some? && row.value.PropertyRow? then Collect(s, ids[..i])[row.value.key := row.value.value]
              else Collect(s, ids[..i])
  {
    assert ids[..i + 1][..i] == ids[..i];
  }

  lemma PropertyTyped(s: State, id: Id)
    requires Typed(s) && Get(s, Property, id).Some?
    ensures Get(s, Property, id).value.PropertyRow?
  {
    assert s.rows[Tag(Property, id)].Kind() == Property;
  }

  /** Fails only on an index that lists a row of another type. */
  method GetForEntity(s: State, entityId: Id, entityType: string) returns (out: Result<map<string, string>, Error>)
    ensures out.Ok? ==> out.value == PropertyMap(s, entityId, entityType)
    ensures out.Ok? <==> OnlyProperties(s, IdsUnderPrefix(s, Property, PropertyPrefix(entityId, entityType)))
    ensures Typed(s) ==> out.Ok?
  {
    hide Collect, IdsUnderPrefix, PropertyPrefix, Typed, Get;
    var found := map[];
    var ids := IdsUnderPrefix(s, Property, PropertyPrefix(entityId, entityType));
    assert found == Collect(s, ids[..0]) by { NothingCollected(s); }
    for i := 0 to |ids|
      invariant found == Collect(s, ids[..i]) && OnlyProperties(s, ids[..i])
    {
      CollectNext(s, ids, i);
      var row := Get(s, Property, ids[i]);
      if row.Some? {
        if Typed(s) { PropertyTyped(s, ids[i]); }
        if !row.value.PropertyRow? { return Err(Internal); }
        found := found[row.value.key := row.value.value];
      }
    }
    assert ids[..|ids|] == ids;
    out := Ok(found);
  }

  /** None of the rows listed is of another type. */
  predicate OnlyProperties(s: State, ids: seq<Id>) {
    forall i | 0 <= i < |ids| && Get(s, Property, ids[i]).Some? :: Get(s, Property, ids[i]).value.PropertyRow?
  }

  lemma NothingCollected(s: State)
    ensures Collect(s, []) == map[]
  {
  }

  predicate IsProperty(row: Row, entityId: Id, entityType: string, key: string, value: string) {
    row.PropertyRow? && row.entityId == entityId && row.entityType == entityType && row.key == key && row.value == value
  }

  predicate HasProperty(rows: map<Tag, Row>, entityId: Id, entityType: string, key: string, value: string) {
    exists r :: r in rows && IsProperty(rows[r], entityId, entityType, key, value)
  }

  lemma {:induction false} CollectSource(s: State, ids: seq<Id>, key: string) returns (i: nat)
    requires key in Collect(s, ids)
    ensures i < |ids| && Get(s, Property, ids[i]).Some? && Get(s, Property, ids[i]).value.PropertyRow?
    ensures Get(s, Property, ids[i]).value.key == key && Get(s, Property, ids[i]).value.value == Collect(s, ids)[key]
  {
    var n := |ids| - 1;
    var row := Get(s, Property, ids[n]);
    if row.Some? && row.value.PropertyRow? && row.value.key == key {
      i := n;
    } else {
      i := CollectSource(s, ids[..n], key);
    }
  }

  lemma {:induction false} CollectKeeps(s: State, ids: seq<Id>, i: nat)
    requires i < |ids| && Get(s, Property, ids[i]).Some? && Get(s, Property, ids[i]).value.PropertyRow?
    ensures Get(s, Property, ids[i]).value.key in Collect(s, ids)
  {
    if i < |ids| - 1 { CollectKeeps(s, ids[..|ids| - 1], i); }
  }

  lemma PropertyKeyOf(row: Row)
    requires row.PropertyRow?
    ensures KeyOf(row) == Some(Tag(Property, PropertyPrefix(row.entityId, row.entityType) + row.key))
  {
  }

  /** On a trusted snapshot the map holds exactly the live rows of the group. */
  lemma MapIsGroup(s: State, entityId: Id, entityType: string, key: string, value: string)
    requires Trusted(s) && NulFree(entityType)
    ensures var m := PropertyMap(s, entityId, entityType);
            key in m && m[key] == value <==> HasProperty(s.rows, entityId, entityType, key, value)
  {
    hide IdsUnderPrefix, PropertyPrefix, NaturalKey, KeyOf, Collect, Coherent, NulFree;
    var ids := IdsUnderPrefix(s, Property, PropertyPrefix(entityId, entityType));
    var m := PropertyMap(s, entityId, entityType);
    if key in m {
      var i := CollectSource(s, ids, key);
      GroupMember(s, entityId, entityType, ids[i]);
    }
    if HasProperty(s.rows, entityId, entityType, key, value) {
      var r :| r in s.rows && IsProperty(s.rows[r], entityId, entityType, key, value);
      TypedAt(s, r);
      GroupMember(s, entityId, entityType, r.text);
      var i :| 0 <= i < |ids| && ids[i] == r.text;
      CollectKeeps(s, ids, i);
      var j := CollectSource(s, ids, key);
      GroupMember(s, entityId, entityType, ids[j]);
      SameProperty(s, r, Tag(Property, ids[j]));
    }
  }

  lemma TypedAt(s: State, r: Tag)
    requires Trusted(s) && r in s.rows && s.rows[r].PropertyRow?
    ensures r.kind == Property && |r.text| == 36 && r == Tag(Property, r.text)
  {
    hide NoStale, Complete, FaithfulRows;
  }

  lemma GroupMember(s: State, entityId: Id, entityType: string, id: Id)
    requires Trusted(s) && NulFree(entityType)
    ensures id in IdsUnderPrefix(s, Property, PropertyPrefix(entityId, entityType)) <==>
            Tag(Property, id) in s.rows && s.rows[Tag(Property, id)].PropertyRow?
            && s.rows[Tag(Property, id)].entityId == entityId && s.rows[Tag(Property, id)].entityType == entityType
  {
    hide IdsUnderPrefix, PropertyPrefix, NoStale, Complete;
    IdsUnderPrefixAreRows(s, GUARDED, Property, PropertyPrefix(entityId, entityType), id);
    if Tag(Property, id) in s.rows {
      assert s.rows[Tag(Property, id)].Kind() == Property;
      PropertyGroup(s.rows[Tag(Property, id)], entityId, entityType);
    }
  }

  lemma SameProperty(s: State, q: Tag, r: Tag)
    requires Trusted(s) && q in s.rows && r in s.rows && s.rows[q].PropertyRow? && s.rows[r].PropertyRow?
    requires s.rows[q].entityId == s.rows[r].entityId && s.rows[q].entityType == s.rows[r].entityType && s.rows[q].key == s.rows[r].key
    ensures q == r
  {
    CoherentHasUniqueKeys(s, GUARDED);
    PropertyKeyOf(s.rows[q]);
    PropertyKeyOf(s.rows[r]);
    assert q.kind == s.rows[q].Kind();
  }

  /** Two trusted snapshots with the same members of a group give the same map. */
  lemma SameMap(s: State, entityId: Id, entityType: string, m: map<string, string>)
    requires Trusted(s) && NulFree(entityType)
    requires forall key, value :: key in m && m[key] == value <==> HasProperty(s.rows, entityId, entityType, key, value)
    ensures PropertyMap(s, entityId, entityType) == m
  {
    hide Trusted, PropertyMap, HasProperty, NulFree;
    var n := PropertyMap(s, entityId, entityType);
    forall key | key in m ensures key in n && n[key] == m[key] { MapIsGroup(s, entityId, entityType, key, m[key]); }
    forall key | key in n ensures key in m { MapIsGroup(s, entityId, entityType, key, n[key]); }
  }

  // ----- what the writes do to it -----

  /** Ids that a call may draw: pairwise different, and of no property row yet. */
  predicate Unused(s: State, kind: EntityKind, ids: seq<Id>) {
    && (forall i, j | 0 <= i < j < |ids| :: ids[i] != ids[j])
    && (forall i | 0 <= i < |ids| :: Tag(kind, ids[i]) !in s.rows)
  }

  predicate DistinctUpserts(p: seq<Action>) {
    && (forall i | 0 <= i < |p| :: p[i].Upsert?)
    && (forall i, j | 0 <= i < j < |p| :: p[i].Ref() != p[j].Ref())
  }

  lemma {:induction false} UpsertsLand(s: State, p: seq<Action>, i: nat)
    requires DistinctUpserts(p) && i < |p|
    ensures p[i].Ref() in AfterAll(s, p).rows && AfterAll(s, p).rows[p[i].Ref()] == p[i].row
  {
    var n := |p| - 1;
    if i < n {
      UpsertsLand(s, p[..n], i);
      assert p[n].Ref() != p[i].Ref();
    }
  }

  /** Among the rows after a replacement, those of another group are the old ones and those
      of the group are the new ones. */
  lemma ReplacedRows(s: State, stale: seq<Id>, added: seq<Action>, r: Tag)
    requires DistinctUpserts(added) && forall i | 0 <= i < |added| :: added[i].Ref() !in s.rows
    ensures var t := AfterAll(s, Removals(Property, stale) + added);
            && (Touches(added, r) ==> exists i :: 0 <= i < |added| && added[i].Ref() == r && r in t.rows && t.rows[r] == added[i].row)
            && (!Touches(added, r) ==> (r in t.rows <==> r in s.rows && !(r.kind == Property && r.text in stale)))
            && (!Touches(added, r) && r in t.rows ==> t.rows[r] == s.rows[r])
  {
    hide AfterAll, Removals;
    AfterAllConcat(s, Removals(Property, stale), added);
    AfterRemovals(s, Property, stale, r);
    var between := AfterAll(s, Removals(Property, stale));
    if Touches(added, r) {
      var i :| 0 <= i < |added| && added[i].Ref() == r;
      UpsertsLand(between, added, i);
    } else {
      UntouchedKept(between, added, r);
    }
  }

  lemma UpsertsAreDistinct(s: State, entityId: Id, entityType: string, names: seq<string>, properties: map<string, string>, ids: seq<Id>)
    requires |ids| >= |names| && Unused(s, Property, ids) && forall k | k in names :: k in properties
    ensures var added := PropertyUpserts(entityId, entityType, names, properties, ids);
            DistinctUpserts(added) && forall i | 0 <= i < |added| :: added[i].Ref() !in s.rows
  {
  }

  lemma ReplacedGroup(s: State, entityId: Id, entityType: string, properties: map<string, string>, ids: seq<Id>,
                      entityId': Id, entityType': string, key: string, value: string)
    requires Trusted(s) && NulFree(entityType) && |ids| >= |properties| && Unused(s, Property, ids)
    ensures var t := AfterAll(s, Build(OnProperty(ReplaceProperties(entityId, entityType, properties)), ids, s).actions);
            HasProperty(t.rows, entityId', entityType', key, value) <==>
            if entityId' == entityId && entityType' == entityType then key in properties && properties[key] == value
            else HasProperty(s.rows, entityId', entityType', key, value)
  {
    hide Trusted, IdsUnderPrefix, PropertyPrefix, AfterAll, Removals, PropertyUpserts, Touches, NulFree, Unused;
    var stale := IdsUnderPrefix(s, Property, PropertyPrefix(entityId, entityType));
    var names := SortedNames(properties.Keys);
    var added := PropertyUpserts(entityId, entityType, names, properties, ids);
    var t := AfterAll(s, Removals(Property, stale) + added);
    UpsertsAreDistinct(s, entityId, entityType, names, properties, ids);
    var same := entityId' == entityId && entityType' == entityType;
    if HasProperty(t.rows, entityId', entityType', key, value) {
      var r :| r in t.rows && IsProperty(t.rows[r], entityId', entityType', key, value);
      ReplacedRows(s, stale, added, r);
      if Touches(added, r) {
        var i :| 0 <= i < |added| && added[i].Ref() == r && t.rows[r] == added[i].row;
        AddedRow(entityId, entityType, names, properties, ids, i);
      } else if same {
        TypedAt(s, r);
        GroupMember(s, entityId, entityType, r.text);
      }
    }
    if same && key in properties && properties[key] == value {
      var i :| 0 <= i < |names| && names[i] == key;
      AddedRow(entityId, entityType, names, properties, ids, i);
      TouchedAt(added, i);
      ReplacedRows(s, stale, added, added[i].Ref());
      var j :| 0 <= j < |added| && added[j].Ref() == added[i].Ref() && t.rows[added[i].Ref()] == added[j].row;
      assert i == j by { DistinctAt(added, i, j); }
    }
    if !same && HasProperty(s.rows, entityId', entityType', key, value) {
      var r :| r in s.rows && IsProperty(s.rows[r], entityId', entityType', key, value);
      TypedAt(s, r);
      GroupMember(s, entityId, entityType, r.text);
      ReplacedRows(s, stale, added, r);
      assert r in t.rows;
    }
  }

  lemma DistinctAt(p: seq<Action>, i: nat, j: nat)
    requires DistinctUpserts(p) && i < |p| && j < |p| && p[i].Ref() == p[j].Ref()
    ensures i == j
  {
  }

  lemma TouchedAt(p: seq<Action>, i: nat)
    requires i < |p|
    ensures Touches(p, p[i].Ref())
  {
  }

  lemma AddedRow(entityId: Id, entityType: string, names: seq<string>, properties: map<string, string>, ids: seq<Id>, i: nat)
    requires |ids| >= |names| && forall k | k in names :: k in properties
    requires i < |names| || i < |PropertyUpserts(entityId, entityType, names, properties, ids)|
    ensures var added := PropertyUpserts(entityId, entityType, names, properties, ids);
            && i < |added| == |names| && added[i].Upsert? && names[i] in properties
            && added[i].row == PropertyRow(ids[i], entityId, entityType, names[i], properties[names[i]])
  {
  }

  predicate OtherGroup(entityId: Id, entityType: string, entityId': Id, entityType': string) {
    NulFree(entityType') && (entityId' != entityId || entityType' != entityType)
  }

  /** `property::replace` is assignment to the entity's map, and to no other map. */
  lemma ReplaceIsAssignment(s: State, entityId: Id, entityType: string, properties: map<string, string>, ids: seq<Id>)
    requires Trusted(s) && NulFree(entityType) && |ids| >= |properties| && Unused(s, Property, ids)
    ensures var t := AfterAll(s, Build(OnProperty(ReplaceProperties(entityId, entityType, properties)), ids, s).actions);
            && PropertyMap(t, entityId, entityType) == properties
            && forall e, ty | OtherGroup(entityId, entityType, e, ty) :: PropertyMap(t, e, ty) == PropertyMap(s, e, ty)
  {
    hide Trusted, PropertyMap, AfterAll, HasProperty, NulFree, Unused, OnProperties;
    var q := OnProperty(ReplaceProperties(entityId, entityType, properties));
    ReplaceAnswers(s, entityId, entityType, properties, ids);
    var t := AfterAll(s, Build(q, ids, s).actions);
    TrustedAfterBuild(q, ids, s);
    forall key, value
      ensures key in properties && properties[key] == value <==> HasProperty(t.rows, entityId, entityType, key, value)
    {
      ReplacedGroup(s, entityId, entityType, properties, ids, entityId, entityType, key, value);
    }
    SameMap(t, entityId, entityType, properties);
    forall e, ty | OtherGroup(entityId, entityType, e, ty) ensures PropertyMap(t, e, ty) == PropertyMap(s, e, ty) {
      forall key, value
        ensures key in PropertyMap(s, e, ty) && PropertyMap(s, e, ty)[key] == value <==> HasProperty(t.rows, e, ty, key, value)
      {
        ReplacedGroup(s, entityId, entityType, properties, ids, e, ty, key, value);
        MapIsGroup(s, e, ty, key, value);
      }
      SameMap(t, e, ty, PropertyMap(s, e, ty));
    }
  }

  lemma ReplaceAnswers(s: State, entityId: Id, entityType: string, properties: map<string, string>, ids: seq<Id>)
    requires NulFree(entityType) && |ids| >= |properties|
    ensures Build(OnProperty(ReplaceProperties(entityId, entityType, properties)), ids, s).Built?
  {
  }

  /** `property::delete_for_entity` is replacement by the empty map. */
  lemma DeleteAllIsClearing(s: State, entityId: Id, entityType: string, ids: seq<Id>)
    requires Trusted(s) && NulFree(entityType)
    ensures var b := Build(OnProperty(DeleteProperties(entityId, entityType)), ids, s);
            b.Built? && var t := AfterAll(s, b.actions);
            && PropertyMap(t, entityId, entityType) == map[]
            && forall e, ty | OtherGroup(entityId, entityType, e, ty) :: PropertyMap(t, e, ty) == PropertyMap(s, e, ty)
  {
    hide Trusted, PropertyMap, IdsUnderPrefix, PropertyPrefix, NulFree, AfterAll, OtherGroup;
    ReplaceIsAssignment(s, entityId, entityType, map[], []);
    var none: map<string, string> := map[];
    assert SortedNames(none.Keys) == [];
    assert Build(OnProperty(DeleteProperties(entityId, entityType)), ids, s).actions
        == Build(OnProperty(ReplaceProperties(entityId, entityType, map[])), [], s).actions;
  }

  lemma OneUpsertGroup(s: State, id: Id, row: Row, entityId: Id, entityType: string, key: string, value: string)
    requires Trusted(s) && row.PropertyRow?
    requires Tag(Property, id) !in s.rows || IsSlot(s, id, row)
    requires forall r | r in s.rows && IsSlotOf(s.rows[r], row) :: r == Tag(Property, id)
    ensures HasProperty(After(s, Upsert(Property, id, row)).rows, entityId, entityType, key, value) <==>
            if row.entityId == entityId && row.entityType == entityType && row.key == key then row.value == value
            else HasProperty(s.rows, entityId, entityType, key, value)
  {
    hide Trusted;
    var t := After(s, Upsert(Property, id, row));
    var ref := Tag(Property, id);
    assert t.rows == s.rows[ref := row];
    if row.entityId == entityId && row.entityType == entityType && row.key == key {
      assert row.value == value ==> IsProperty(t.rows[ref], entityId, entityType, key, value);
    } else if HasProperty(s.rows, entityId, entityType, key, value) {
      var r :| r in s.rows && IsProperty(s.rows[r], entityId, entityType, key, value);
      assert IsProperty(t.rows[r], entityId, entityType, key, value);
    }
  }

  /** Two property rows for the same entity, type and key. */
  predicate IsSlotOf(a: Row, b: Row) {
    a.PropertyRow? && b.PropertyRow? && a.entityId == b.entityId && a.entityType == b.entityType && a.key == b.key
  }

  predicate IsSlot(s: State, id: Id, row: Row) {
    Tag(Property, id) in s.rows && IsSlotOf(s.rows[Tag(Property, id)], row)
  }

  /** A lookup by the composite key finds the property of exactly that entity, type and key. */
  lemma PropertyLookup(s: State, entityId: Id, entityType: string, key: string)
    requires Trusted(s) && NulFree(entityType)
    ensures var found := GetByNaturalKey(s, Property, PropertyPrefix(entityId, entityType) + key);
            && (found.Some? ==> found.value.PropertyRow? && IsSlot(s, found.value.id, PropertyRow(found.value.id, entityId, entityType, key, "")))
            && (found.None? ==> forall r | r in s.rows :: !IsSlotOf(s.rows[r], PropertyRow(entityId, entityId, entityType, key, "")))
  {
    hide PropertyPrefix, NulFree, KeyOf, NaturalKey, Trusted;
    var natural := PropertyPrefix(entityId, entityType) + key;
    var found := GetByNaturalKey(s, Property, natural);
    if found.Some? {
      LookupOwner(s, Property, natural);
      FoundProperty(s, found.value, entityId, entityType, key);
    } else {
      LookupFree(s, Property, natural);
      forall r | r in s.rows ensures !IsSlotOf(s.rows[r], PropertyRow(entityId, entityId, entityType, key, "")) {
        if s.rows[r].PropertyRow? { IndexedProperty(s, r); }
      }
    }
  }

  lemma IndexedProperty(s: State, r: Tag)
    requires Trusted(s) && r in s.rows && s.rows[r].PropertyRow?
    ensures Tag(Property, PropertyPrefix(s.rows[r].entityId, s.rows[r].entityType) + s.rows[r].key) in s.index
  {
    hide NoStale, FaithfulRows;
    TypedAt(s, r);
    PropertyKeyOf(s.rows[r]);
  }

  lemma FoundProperty(s: State, row: Row, entityId: Id, entityType: string, key: string)
    requires Trusted(s) && NulFree(entityType) && row.Kind() == Property
    requires NaturalKey(row) == Some(PropertyPrefix(entityId, entityType) + key)
    requires GetByNaturalKey(s, Property, PropertyPrefix(entityId, entityType) + key) == Some(row)
    requires row.CasbinRow? || row.id == s.index[Tag(Property, PropertyPrefix(entityId, entityType) + key)]
    ensures row.PropertyRow? && row.entityId == entityId && row.entityType == entityType && row.key == key
    ensures Get(s, Property, row.id) == Some(row)
  {
    var prefix := PropertyPrefix(entityId, entityType);
    assert row.PropertyRow?;
    assert prefix <= prefix + key;
    assert NulFree(row.entityType) by { assert Faithful(row.id, row); }
    PropertyGroup(row, entityId, entityType);
    assert (prefix + key)[|prefix|..] == key && (prefix + row.key)[|prefix|..] == row.key;
  }

  /** `property::set` is a map update. */
  lemma SetIsUpdate(s: State, entityId: Id, entityType: string, key: string, value: string, ids: seq<Id>)
    requires Trusted(s) && NulFree(entityType) && |ids| >= 1 && Unused(s, Property, ids)
    ensures var b := Build(OnProperty(SetProperty(entityId, entityType, key, value)), ids, s);
            b.Built? && var t := AfterAll(s, b.actions);
            && PropertyMap(t, entityId, entityType) == PropertyMap(s, entityId, entityType)[key := value]
            && forall e, ty | OtherGroup(entityId, entityType, e, ty) :: PropertyMap(t, e, ty) == PropertyMap(s, e, ty)
  {
    hide Trusted, PropertyMap, HasProperty, NulFree, PropertyPrefix, GetByNaturalKey;
    PropertyLookup(s, entityId, entityType, key);
    var q := OnProperty(SetProperty(entityId, entityType, key, value));
    var natural := PropertyPrefix(entityId, entityType) + key;
    var found := GetByNaturalKey(s, Property, natural);
    var id := if found.Some? then found.value.id else ids[0];
    var row := PropertyRow(id, entityId, entityType, key, value);
    var b := Build(q, ids, s);
    assert b.actions == [Upsert(Property, id, row)];
    var t := AfterAll(s, b.actions);
    AfterOne(s, Upsert(Property, id, row));
    TrustedAfterBuild(q, ids, s);
    forall r | r in s.rows && IsSlotOf(s.rows[r], row) ensures r == Tag(Property, id) {
      if found.Some? { SameProperty(s, r, Tag(Property, id)); }
    }
    forall e, ty | NulFree(ty)
      ensures PropertyMap(t, e, ty) == if e == entityId && ty == entityType then PropertyMap(s, e, ty)[key := value] else PropertyMap(s, e, ty)
    {
      var m := if e == entityId && ty == entityType then PropertyMap(s, e, ty)[key := value] else PropertyMap(s, e, ty);
      forall k, v ensures k in m && m[k] == v <==> HasProperty(t.rows, e, ty, k, v) {
        OneUpsertGroup(s, id, row, e, ty, k, v);
        MapIsGroup(s, e, ty, k, v);
      }
      SameMap(t, e, ty, m);
    }
  }

  /** `property::delete_key` takes one key out; an absent key changes nothing. */
  lemma DeleteIsRemoval(s: State, entityId: Id, entityType: string, key: string, ids: seq<Id>)
    requires Trusted(s) && NulFree(entityType)
    ensures var b := Build(OnProperty(DeleteProperty(entityId, entityType, key)), ids, s);
            b.Built? && var t := AfterAll(s, b.actions);
            && (b.actions == [] <==> key !in PropertyMap(s, entityId, entityType))
            && PropertyMap(t, entityId, entityType) == PropertyMap(s, entityId, entityType) - {key}
            && forall e, ty | OtherGroup(entityId, entityType, e, ty) :: PropertyMap(t, e, ty) == PropertyMap(s, e, ty)
  {
    hide Trusted, PropertyMap, NulFree, PropertyPrefix, GetByNaturalKey;
    PropertyLookup(s, entityId, entityType, key);
    var q := OnProperty(DeleteProperty(entityId, entityType, key));
    var found := GetByNaturalKey(s, Property, PropertyPrefix(entityId, entityType) + key);
    var b := Build(q, ids, s);
    if found.None? {
      forall v ensures !HasProperty(s.rows, entityId, entityType, key, v) {}
      if key in PropertyMap(s, entityId, entityType) {
        MapIsGroup(s, entityId, entityType, key, PropertyMap(s, entityId, entityType)[key]);
      }
      assert PropertyMap(s, entityId, entityType) == PropertyMap(s, entityId, entityType) - {key};
    } else {
      var ref := Tag(Property, found.value.id);
      var a := Remove(Property, found.value.id);
      assert b.actions == [a];
      var t := AfterAll(s, b.actions);
      AfterOne(s, a);
      assert t.rows == s.rows - {ref};
      TrustedAfterBuild(q, ids, s);
      var old' := s.rows[ref];
      assert IsProperty(old', entityId, entityType, key, old'.value);
      MapIsGroup(s, entityId, entityType, key, old'.value);
      forall e, ty, k, v | NulFree(ty)
        ensures HasProperty(t.rows, e, ty, k, v) <==>
                HasProperty(s.rows, e, ty, k, v) && !(e == entityId && ty == entityType && k == key)
      {
        RemovedProperty(s, ref, entityId, entityType, key, e, ty, k, v);
      }
      forall e, ty | NulFree(ty)
        ensures PropertyMap(t, e, ty) == if e == entityId && ty == entityType then PropertyMap(s, e, ty) - {key} else PropertyMap(s, e, ty)
      {
        var m := if e == entityId && ty == entityType then PropertyMap(s, e, ty) - {key} else PropertyMap(s, e, ty);
        forall k, v ensures k in m && m[k] == v <==> HasProperty(t.rows, e, ty, k, v) { MapIsGroup(s, e, ty, k, v); }
        SameMap(t, e, ty, m);
      }
    }
  }

  lemma RemovedProperty(s: State, ref: Tag, entityId: Id, entityType: string, key: string, e: Id, ty: string, k: string, v: string)
    requires Trusted(s) && ref in s.rows && IsSlotOf(s.rows[ref], PropertyRow(entityId, entityId, entityType, key, ""))
    ensures HasProperty(s.rows - {ref}, e, ty, k, v) <==>
            HasProperty(s.rows, e, ty, k, v) && !(e == entityId && ty == entityType && k == key)
  {
    hide Trusted;
    var rows := s.rows - {ref};
    if HasProperty(rows, e, ty, k, v) {
      var r :| r in rows && IsProperty(rows[r], e, ty, k, v);
      assert IsProperty(s.rows[r], e, ty, k, v);
      if e == entityId && ty == entityType && k == key { SameProperty(s, r, ref); }
    }
    if HasProperty(s.rows, e, ty, k, v) && !(e == entityId && ty == entityType && k == key) {
      var r :| r in s.rows && IsProperty(s.rows[r], e, ty, k, v);
      assert IsProperty(rows[r], e, ty, k, v);
    }
  }

  // ----- the loop of `replace` -----

  /** Removals first, then one upsert per entry in key order. */
  method Replace(s: State, entityId: Id, entityType: string, properties: map<string, string>, ids: seq<Id>)
      returns (actions: seq<Action>)
    requires NulFree(entityType) && |ids| >= |properties|
    ensures Build(OnProperty(ReplaceProperties(entityId, entityType, properties)), ids, s) == Built(actions, Unit)
  {
    hide IdsUnderPrefix, PropertyPrefix, SortedNames;
    var stale := Removals(Property, IdsUnderPrefix(s, Property, PropertyPrefix(entityId, entityType)));
    var entries := SortedNames(properties.Keys);
    actions := stale;
    for i := 0 to |entries|
      invariant |actions| == |stale| + i && actions[..|stale|] == stale
      invariant forall j | 0 <= j < i :: actions[|stale| + j] == PropertyUpserts(entityId, entityType, entries, properties, ids)[j]
    {
      assert entries[i] in entries;
      var row := PropertyRow(ids[i], entityId, entityType, entries[i], properties[entries[i]]);
      actions := actions + [Upsert(Property, row.id, row)];
    }
    assert actions == stale + PropertyUpserts(entityId, entityType, entries, properties, ids);
  }
}
