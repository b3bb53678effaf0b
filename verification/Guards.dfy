/** Every repository closure checks what it writes: on a coherent snapshot each action it
    returns takes a key that is free or its own. */
module Guards {
  import opened Wrappers
  import opened Order
  import opened Model
  import opened Snapshots
  import opened Scan
  import opened Repos

  /** The kinds whose keys the repositories defend. Column inserts check nothing, and users
      are looked up by a column that is not their key. */
  const GUARDED: set<EntityKind> := set k: EntityKind | k != Column && k != User

  /** A row repeats the id it is filed under, and its entity type is free of NUL. */
  predicate Faithful(id: string, row: Row) {
    && (row.CasbinRow? || row.id == id)
    && (row.PropertyRow? ==> NulFree(row.entityType))
  }

  predicate FaithfulRows(rows: map<Tag, Row>) {
    forall r | r in rows :: Faithful(r.text, rows[r])
  }

  predicate FaithfulActions(p: seq<Action>) {
    forall a | a in p && a.Upsert? :: Faithful(a.id, a.row)
  }

  lemma {:induction false} FaithfulAfter(s: State, p: seq<Action>)
    requires FaithfulRows(s.rows) && FaithfulActions(p)
    ensures FaithfulRows(AfterAll(s, p).rows)
  {
    if p != [] {
      assert forall a | a in p[..|p| - 1] :: a in p;
      FaithfulAfter(s, p[..|p| - 1]);
      assert p[|p| - 1] in p;
    }
  }

  /** What a snapshot has to be for the closures to see it right. */
  predicate Trusted(s: State) {
    Coherent(s, GUARDED) && FaithfulRows(s.rows)
  }

  /** The answer's actions pass the guard one by one and are well-formed rows. */
  predicate Careful(s: State, b: Built) {
    b.Built? ==> Guarded(s, b.actions, GUARDED) && FaithfulActions(b.actions)
  }

  lemma NoneCareful(s: State, reply: Reply)
    ensures Careful(s, Built([], reply))
  {
  }

  lemma OneCareful(s: State, a: Action, reply: Reply)
    requires a.Readable() && Guard(s, a, GUARDED) && (a.Upsert? ==> Faithful(a.id, a.row))
    ensures Careful(s, Built([a], reply))
  {
    assert [a][..0] == [];
  }

  lemma RemovalsGuarded(s: State, kind: EntityKind, ids: seq<Id>)
    ensures Guarded(s, Removals(kind, ids), GUARDED) && FaithfulActions(Removals(kind, ids))
  {
  }

  /** Removing a list of ids removes those rows and no others. */
  lemma {:induction false} AfterRemovals(s: State, kind: EntityKind, ids: seq<Id>, r: Tag)
    ensures var t := AfterAll(s, Removals(kind, ids));
            && (r in t.rows <==> r in s.rows && !(r.kind == kind && r.text in ids))
            && (r in t.rows ==> t.rows[r] == s.rows[r])
  {
    if ids != [] {
      var n := |ids| - 1;
      AfterRemovals(s, kind, ids[..n], r);
      assert Removals(kind, ids)[..n] == Removals(kind, ids[..n]);
      assert ids == ids[..n] + [ids[n]];
    }
  }

  /** Upserts that bring pairwise different keys, none of which the rows before them carry,
      pass the guard one after the other, whatever their ids. */
  lemma FreshKeysGuarded(s: State, p: seq<Action>, ks: set<EntityKind> := GUARDED)
    requires Coherent(s, ks)
    requires forall i | 0 <= i < |p| :: p[i].Upsert? && p[i].Readable() && KeyOf(p[i].row).Some?
    requires forall i, j | 0 <= i < j < |p| :: KeyOf(p[i].row) != KeyOf(p[j].row)
    requires forall i, r | 0 <= i < |p| && r in s.rows :: KeyOf(s.rows[r]) != KeyOf(p[i].row)
    ensures Guarded(s, p, ks)
  {
    forall i | 0 <= i < |p| ensures Guard(AfterAll(s, p[..i]), p[i], ks) {
      var t := AfterAll(s, p[..i]);
      assert AllReadable(p[..i]) by {
        assert forall a | a in p[..i] :: a in p;
      }
      AfterAllSound(s, p[..i]);
      var k := KeyOf(p[i].row).value;
      if k in t.index {
        var r := Tag(k.kind, t.index[k]);
        assert KeyAt(t, r) == Some(k);
        var j := RowSource(s, p[..i], r);
      }
    }
  }

  lemma {:induction false} RowSource(s: State, p: seq<Action>, r: Tag) returns (j: int)
    requires r in AfterAll(s, p).rows
    ensures if j < 0 then r in s.rows && AfterAll(s, p).rows[r] == s.rows[r]
            else j < |p| && p[j].Upsert? && AfterAll(s, p).rows[r] == p[j].row
  {
    if p == [] {
      j := -1;
    } else if p[|p| - 1].Ref() == r {
      j := |p| - 1;
    } else {
      j := RowSource(s, p[..|p| - 1], r);
    }
  }

  // ----- what a lookup on a trusted snapshot tells -----

  lemma LookupFree(s: State, kind: EntityKind, key: string)
    requires Trusted(s) && GetByNaturalKey(s, kind, key).None?
    ensures Tag(kind, key) !in s.index
  {
  }

  lemma LookupOwner(s: State, kind: EntityKind, key: string)
    requires Trusted(s) && GetByNaturalKey(s, kind, key).Some?
    ensures var row := GetByNaturalKey(s, kind, key).value;
            && row.Kind() == kind && NaturalKey(row) == Some(key) && Tag(kind, key) in s.index
            && (row.CasbinRow? || row.id == s.index[Tag(kind, key)])
  {
    assert KeyAt(s, Tag(kind, s.index[Tag(kind, key)])) == Some(Tag(kind, key));
  }

  lemma RowOwner(s: State, kind: EntityKind, id: Id)
    requires Trusted(s) && Get(s, kind, id).Some?
    ensures var row := Get(s, kind, id).value;
            && row.Kind() == kind && (row.CasbinRow? || row.id == id)
            && (kind in GUARDED && KeyOf(row).Some? ==> KeyOf(row).value in s.index && s.index[KeyOf(row).value] == id)
  {
  }

  // ----- one lemma per repository module -----

  lemma CatalogsGuarded(call: CatalogCall, s: State)
    requires Trusted(s)
    ensures Careful(s, OnCatalogs(call, s))
  {
    hide Guarded, Trusted, GetByNaturalKey;
    var b := OnCatalogs(call, s);
    if b.Built? {
      if call.CreateCatalog? { LookupFree(s, Catalog, call.name); } else { LookupOwner(s, Catalog, call.name); }
      if call.UpdateCatalog? && call.newName.Some? && call.newName.value != call.name {
        LookupFree(s, Catalog, call.newName.value);
      }
      OneCareful(s, b.actions[0], b.reply);
    }
  }

  lemma SchemasGuarded(call: SchemaCall, s: State)
    requires Trusted(s)
    ensures Careful(s, OnSchemas(call, s))
  {
    hide Guarded, Trusted, GetByNaturalKey, Get, ChildKey;
    var b := OnSchemas(call, s);
    if b.Built? {
      match call {
        case CreateSchema(_, catalogId, name, _) => LookupFree(s, Schema, ChildKey(catalogId, name));
        case UpdateSchema(id, newName, _) =>
          RowOwner(s, Schema, id);
          var row := Get(s, Schema, id).value;
          if newName.Some? && newName.value != row.name { LookupFree(s, Schema, ChildKey(row.catalogId, newName.value)); }
        case DropSchema(_) =>
      }
      OneCareful(s, b.actions[0], b.reply);
    }
  }

  lemma TablesGuarded(call: TableCall, s: State)
    requires Trusted(s)
    ensures Careful(s, OnTables(call, s))
  {
    hide Guarded, Trusted, GetByNaturalKey, Get, ChildKey;
    NoneCareful(s, Unit);
    var b := OnTables(call, s);
    if b.Built? && b.actions != [] {
      match call {
        case CreateTable(_, schemaId, name, _) => LookupFree(s, Table, ChildKey(schemaId, name));
        case RenameTable(id, target) =>
          RowOwner(s, Table, id);
          var row := Get(s, Table, id).value;
          if target != row.name { LookupFree(s, Table, ChildKey(row.schemaId, target)); }
        case PatchTable(id, _) => RowOwner(s, Table, id);
        case DropTable(_) =>
      }
      OneCareful(s, b.actions[0], b.reply);
    }
  }

  /** Rows that survive the removal of a property group are outside it. */
  lemma GroupCleared(s: State, entityId: Id, entityType: string)
    requires Coherent(s, GUARDED)
    ensures var prefix := PropertyPrefix(entityId, entityType);
            var t := AfterAll(s, Removals(Property, IdsUnderPrefix(s, Property, prefix)));
            forall r | r in t.rows && r.kind == Property && KeyOf(t.rows[r]).Some? :: !(prefix <= KeyOf(t.rows[r]).value.text)
  {
    var prefix := PropertyPrefix(entityId, entityType);
    var ids := IdsUnderPrefix(s, Property, prefix);
    var t := AfterAll(s, Removals(Property, ids));
    forall r | r in t.rows && r.kind == Property && KeyOf(t.rows[r]).Some? ensures !(prefix <= KeyOf(t.rows[r]).value.text) {
      AfterRemovals(s, Property, ids, r);
      IdsUnderPrefixAreRows(s, GUARDED, Property, prefix, r.text);
    }
  }

  lemma PropertyUpsertsGuarded(s: State, entityId: Id, entityType: string, names: seq<string>, properties: map<string, string>, ids: seq<Id>)
    requires Coherent(s, GUARDED) && NulFree(entityType)
    requires |ids| >= |names| && Ascending(names, Plain) && forall k | k in names :: k in properties
    requires var prefix := PropertyPrefix(entityId, entityType);
             forall r | r in s.rows && r.kind == Property && KeyOf(s.rows[r]).Some? :: !(prefix <= KeyOf(s.rows[r]).value.text)
    ensures Guarded(s, PropertyUpserts(entityId, entityType, names, properties, ids), GUARDED)
    ensures FaithfulActions(PropertyUpserts(entityId, entityType, names, properties, ids))
  {
    var prefix := PropertyPrefix(entityId, entityType);
    var p := PropertyUpserts(entityId, entityType, names, properties, ids);
    forall i, j | 0 <= i < j < |p| ensures KeyOf(p[i].row) != KeyOf(p[j].row) {
      assert Less(Plain(names[i]), Plain(names[j]));
      LessIrreflexive(names[i]);
      assert (prefix + names[i])[|prefix|..] == names[i] && (prefix + names[j])[|prefix|..] == names[j];
    }
    forall i, r | 0 <= i < |p| && r in s.rows ensures KeyOf(s.rows[r]) != KeyOf(p[i].row) {
      assert KeyOf(p[i].row) == Some(Tag(Property, prefix + names[i]));
      assert prefix <= prefix + names[i];
    }
    FreshKeysGuarded(s, p);
  }

  lemma ReplacementGuarded(s: State, entityId: Id, entityType: string, properties: map<string, string>, ids: seq<Id>)
    requires Trusted(s) && NulFree(entityType) && |ids| >= |properties|
    ensures var stale := Removals(Property, IdsUnderPrefix(s, Property, PropertyPrefix(entityId, entityType)));
            var added := PropertyUpserts(entityId, entityType, SortedNames(properties.Keys), properties, ids);
            Guarded(s, stale + added, GUARDED) && FaithfulActions(stale + added)
  {
    hide Guarded, Coherent, FaithfulRows, AfterAll, Removals, PropertyUpserts, IdsUnderPrefix;
    var ids' := IdsUnderPrefix(s, Property, PropertyPrefix(entityId, entityType));
    var names := SortedNames(properties.Keys);
    var stale, added := Removals(Property, ids'), PropertyUpserts(entityId, entityType, names, properties, ids);
    RemovalsGuarded(s, Property, ids');
    GuardedResult(s, stale, GUARDED);
    GroupCleared(s, entityId, entityType);
    PropertyUpsertsGuarded(AfterAll(s, stale), entityId, entityType, names, properties, ids);
    GuardedConcat(s, stale, added, GUARDED);
  }

  lemma SetPropertyGuarded(s: State, entityId: Id, entityType: string, key: string, value: string, ids: seq<Id>)
    requires Trusted(s) && NulFree(entityType) && |ids| >= 1
    ensures Careful(s, OnProperties(SetProperty(entityId, entityType, key, value), ids, s))
  {
    hide Guarded, Trusted, GetByNaturalKey, PropertyPrefix, PropertyDemand, NulFree;
    var natural := PropertyPrefix(entityId, entityType) + key;
    var current := GetByNaturalKey(s, Property, natural);
    if current.Some? { LookupOwner(s, Property, natural); } else { LookupFree(s, Property, natural); }
    if current.None? || current.value.PropertyRow? {
      var id := if current.Some? then current.value.id else ids[0];
      OneCareful(s, Upsert(Property, id, PropertyRow(id, entityId, entityType, key, value)), Unit);
    }
  }

  lemma PropertiesGuarded(call: PropertyCall, ids: seq<Id>, s: State)
    requires Trusted(s) && NulFree(call.entityType) && |ids| >= PropertyDemand(call)
    ensures Careful(s, OnProperties(call, ids, s))
  {
    hide Guarded, Trusted, IdsUnderPrefix, PropertyUpserts, Removals, SortedNames, PropertyPrefix, GetByNaturalKey;
    match call
    case ReplaceProperties(entityId, entityType, properties) => ReplacementGuarded(s, entityId, entityType, properties, ids);
    case DeleteProperties(entityId, entityType) =>
      RemovalsGuarded(s, Property, IdsUnderPrefix(s, Property, PropertyPrefix(entityId, entityType)));
    case SetProperty(entityId, entityType, key, value) => SetPropertyGuarded(s, entityId, entityType, key, value, ids);
    case DeleteProperty(entityId, entityType, key) =>
      NoneCareful(s, Unit);
      var b := OnProperties(call, ids, s);
      if b.Built? && b.actions != [] { OneCareful(s, b.actions[0], b.reply); }
  }

  lemma {:induction false} UnseenAreRules(rules: seq<Rule>, seen: set<string>)
    ensures forall q | q in Unseen(rules, seen) :: RuleKey(q) !in seen && q in rules
  {
    hide RuleKey;
    if rules != [] {
      assert forall q | q in rules[1..] :: q in rules;
      if RuleKey(rules[0]) in seen {
        UnseenAreRules(rules[1..], seen);
      } else {
        UnseenAreRules(rules[1..], seen + {RuleKey(rules[0])});
      }
    }
  }

  predicate DistinctKeys(rules: seq<Rule>) {
    forall i, j | 0 <= i < j < |rules| :: RuleKey(rules[i]) != RuleKey(rules[j])
  }

  lemma DistinctKeysCons(q: Rule, rest: seq<Rule>)
    requires DistinctKeys(rest) && forall r | r in rest :: RuleKey(r) != RuleKey(q)
    ensures DistinctKeys([q] + rest)
  {
    var all := [q] + rest;
    forall i, j | 0 <= i < j < |all| ensures RuleKey(all[i]) != RuleKey(all[j]) {
      assert all[j] == rest[j - 1];
      if i > 0 { assert all[i] == rest[i - 1]; } else { assert rest[j - 1] in rest; }
    }
  }

  lemma {:induction false} UnseenDistinct(rules: seq<Rule>, seen: set<string>)
    ensures DistinctKeys(Unseen(rules, seen))
  {
    hide DistinctKeys, RuleKey;
    if rules == [] {
      NoRulesDistinct();
    } else if RuleKey(rules[0]) in seen {
      UnseenDistinct(rules[1..], seen);
    } else {
      UnseenDistinct(rules[1..], seen + {RuleKey(rules[0])});
      UnseenAreRules(rules[1..], seen + {RuleKey(rules[0])});
      DistinctKeysCons(rules[0], Unseen(rules[1..], seen + {RuleKey(rules[0])}));
    }
  }

  lemma NoRulesDistinct()
    ensures DistinctKeys([])
  {
  }

  /** Every rule given is kept, or one with the same key is. */
  lemma {:induction false} UnseenCovers(rules: seq<Rule>, seen: set<string>, q: Rule)
    requires q in rules && RuleKey(q) !in seen
    ensures exists u :: u in Unseen(rules, seen) && RuleKey(u) == RuleKey(q)
  {
    hide RuleKey;
    var first := RuleKey(rules[0]);
    if first in seen {
      UnseenCovers(rules[1..], seen, q);
    } else if first == RuleKey(q) {
      assert rules[0] == Unseen(rules, seen)[0];
    } else {
      UnseenCovers(rules[1..], seen + {first}, q);
      var u :| u in Unseen(rules[1..], seen + {first}) && RuleKey(u) == RuleKey(q);
      assert u in Unseen(rules, seen);
    }
  }

  lemma RuleUpsertsGuarded(s: State, rules: seq<Rule>, ids: seq<Id>)
    requires Coherent(s, GUARDED) && |ids| >= |rules|
    requires forall r | r in s.rows :: r.kind != CasbinRule
    requires DistinctKeys(rules)
    ensures Guarded(s, RuleUpserts(rules, ids), GUARDED) && FaithfulActions(RuleUpserts(rules, ids))
  {
    hide Guarded, RuleKey, AfterAll;
    var p := RuleUpserts(rules, ids);
    forall i, r | 0 <= i < |p| && r in s.rows ensures KeyOf(s.rows[r]) != KeyOf(p[i].row) {
      assert s.rows[r].Kind() == r.kind;
    }
    FreshKeysGuarded(s, p);
  }

  lemma TrustedIsTyped(s: State)
    requires Coherent(s, GUARDED)
    ensures Typed(s)
  {
  }

  lemma RulesCleared(s: State)
    requires Typed(s)
    ensures forall r | r in AfterAll(s, Removals(CasbinRule, IdsByKind(s, CasbinRule))).rows :: r.kind != CasbinRule
  {
    var ids := IdsByKind(s, CasbinRule);
    forall r | r in AfterAll(s, Removals(CasbinRule, ids)).rows ensures r.kind != CasbinRule {
      AfterRemovals(s, CasbinRule, ids, r);
    }
  }

  lemma RuleReplacementGuarded(s: State, rules: seq<Rule>, ids: seq<Id>)
    requires Trusted(s) && |ids| >= |rules|
    ensures var all := Removals(CasbinRule, IdsByKind(s, CasbinRule)) + RuleUpserts(Unseen(rules, {}), ids);
            Guarded(s, all, GUARDED) && FaithfulActions(all)
  {
    hide Guarded, Coherent, FaithfulRows, AfterAll, Removals, RuleUpserts, Unseen, RuleKey, IdsByKind;
    var stale := Removals(CasbinRule, IdsByKind(s, CasbinRule));
    RemovalsGuarded(s, CasbinRule, IdsByKind(s, CasbinRule));
    GuardedResult(s, stale, GUARDED);
    RulesCleared(s) by { TrustedIsTyped(s); }
    UnseenDistinct(rules, {});
    RuleUpsertsGuarded(AfterAll(s, stale), Unseen(rules, {}), ids);
    GuardedConcat(s, stale, RuleUpserts(Unseen(rules, {}), ids), GUARDED);
  }

  lemma AddRuleGuarded(s: State, rule: Rule, id: Id)
    requires Trusted(s) && GetByNaturalKey(s, CasbinRule, RuleKey(rule)).None?
    ensures Careful(s, Built([Upsert(CasbinRule, id, CasbinRow(rule))], Flag(true)))
  {
    LookupFree(s, CasbinRule, RuleKey(rule));
    OneCareful(s, Upsert(CasbinRule, id, CasbinRow(rule)), Flag(true));
  }

  lemma RulesGuarded(call: RuleCall, ids: seq<Id>, s: State)
    requires Trusted(s) && |ids| >= RuleDemand(call)
    ensures Careful(s, OnRules(call, ids, s))
  {
    hide Guarded, Coherent, FaithfulRows, Removals, RuleUpserts, IdsByKind, Unseen, FoundIds;
    match call
    case AddRule(rule) =>
      NoneCareful(s, Flag(false));
      if GetByNaturalKey(s, CasbinRule, RuleKey(rule)).None? { AddRuleGuarded(s, rule, ids[0]); }
    case RemoveRule(rule) =>
      var id := IdByNaturalKey(s, CasbinRule, RuleKey(rule));
      NoneCareful(s, Flag(false));
      if id.Some? { OneCareful(s, Remove(CasbinRule, id.value), Flag(true)); }
    case RemoveRules(rules) => RemovalsGuarded(s, CasbinRule, FoundIds(s, rules));
    case ReplaceRules(rules) => RuleReplacementGuarded(s, rules, ids);
    case ClearRules => RemovalsGuarded(s, CasbinRule, IdsByKind(s, CasbinRule));
  }

  lemma MetastoreGuarded(name: string, id: Id, s: State)
    requires Trusted(s)
    ensures Careful(s, OnMetastore(name, id, s))
  {
    hide Trusted, Guarded, IdsByKind;
    if OnMetastore(name, id, s).Built? { NoneCareful(s, OnMetastore(name, id, s).reply); }
    OneCareful(s, Upsert(Metastore, id, MetastoreRow(id, name)), Found(MetastoreRow(id, name)));
  }

  lemma ColumnsGuarded(columns: seq<Row>, s: State)
    requires forall c | c in columns :: c.ColumnRow?
    ensures Guarded(s, ColumnUpserts(columns), GUARDED) && FaithfulActions(ColumnUpserts(columns))
  {
    var p := ColumnUpserts(columns);
    forall i | 0 <= i < |p| ensures p[i].kind == Column && p[i].Readable() && Faithful(p[i].id, p[i].row) {
      assert columns[i] in columns;
    }
  }

  /** On every trusted snapshot, every closure's actions pass the guard one by one. */
  lemma BuildGuarded(q: Request, ids: seq<Id>, s: State)
    requires Trusted(s) && q.WellFormed() && |ids| >= q.Demand()
    ensures Careful(s, Build(q, ids, s))
  {
    match q
    case OnCatalog(call) => CatalogsGuarded(call, s);
    case OnSchema(call) => SchemasGuarded(call, s);
    case OnTable(call) => TablesGuarded(call, s);
    case OnProperty(call) => PropertiesGuarded(call, ids, s);
    case OnRule(call) => RulesGuarded(call, ids, s);
    case InitMetastore(name) => MetastoreGuarded(name, ids[0], s);
    case InsertColumns(columns) => ColumnsGuarded(columns, s);
    case DropColumns(table) => RemovalsGuarded(s, Column, IdsUnderPrefix(s, Column, ChildKey(table, "")));
  }

  lemma TrustedAfterBuild(q: Request, ids: seq<Id>, s: State)
    requires Trusted(s) && q.WellFormed() && |ids| >= q.Demand() && Build(q, ids, s).Built?
    ensures Trusted(AfterAll(s, Build(q, ids, s).actions))
  {
    BuildGuarded(q, ids, s);
    GuardedResult(s, Build(q, ids, s).actions, GUARDED);
    FaithfulAfter(s, Build(q, ids, s).actions);
  }

  // ----- a closure's answer depends on the rows alone -----

  lemma {:induction false} SameFoundIds(s: State, t: State, rules: seq<Rule>)
    requires forall key :: IdByNaturalKey(s, CasbinRule, key) == IdByNaturalKey(t, CasbinRule, key)
    ensures FoundIds(s, rules) == FoundIds(t, rules)
  {
    if rules != [] { SameFoundIds(s, t, rules[1..]); }
  }

  lemma SameLookups(s: State, t: State, kind: EntityKind, key: string)
    requires s.rows == t.rows && Coherent(s, GUARDED) && Coherent(t, GUARDED) && kind in GUARDED
    ensures IdByNaturalKey(s, kind, key) == IdByNaturalKey(t, kind, key)
  {
    CoherentIndexDetermined(s, t, GUARDED);
  }

  lemma SamePropertyAnswer(call: PropertyCall, ids: seq<Id>, s: State, t: State)
    requires s.rows == t.rows && Coherent(s, GUARDED) && Coherent(t, GUARDED) && |ids| >= PropertyDemand(call)
    ensures OnProperties(call, ids, s) == OnProperties(call, ids, t)
  {
    hide Coherent, IdsUnderPrefix, Removals, PropertyUpserts, SortedNames;
    match call
    case SetProperty(entityId, entityType, key, _) => SameLookups(s, t, Property, PropertyPrefix(entityId, entityType) + key);
    case DeleteProperty(entityId, entityType, key) => SameLookups(s, t, Property, PropertyPrefix(entityId, entityType) + key);
    case ReplaceProperties(entityId, entityType, _) => SameListings(s, t, GUARDED, Property, PropertyPrefix(entityId, entityType));
    case DeleteProperties(entityId, entityType) => SameListings(s, t, GUARDED, Property, PropertyPrefix(entityId, entityType));
  }

  lemma SameCatalogAnswer(call: CatalogCall, s: State, t: State)
    requires s.rows == t.rows && Coherent(s, GUARDED) && Coherent(t, GUARDED)
    ensures OnCatalogs(call, s) == OnCatalogs(call, t)
  {
    hide Coherent;
    forall key ensures IdByNaturalKey(s, Catalog, key) == IdByNaturalKey(t, Catalog, key) { SameLookups(s, t, Catalog, key); }
  }

  lemma SameSchemaAnswer(call: SchemaCall, s: State, t: State)
    requires s.rows == t.rows && Coherent(s, GUARDED) && Coherent(t, GUARDED)
    ensures OnSchemas(call, s) == OnSchemas(call, t)
  {
    hide Coherent;
    forall key ensures IdByNaturalKey(s, Schema, key) == IdByNaturalKey(t, Schema, key) { SameLookups(s, t, Schema, key); }
  }

  lemma SameTableAnswer(call: TableCall, s: State, t: State)
    requires s.rows == t.rows && Coherent(s, GUARDED) && Coherent(t, GUARDED)
    ensures OnTables(call, s) == OnTables(call, t)
  {
    hide Coherent;
    forall key ensures IdByNaturalKey(s, Table, key) == IdByNaturalKey(t, Table, key) { SameLookups(s, t, Table, key); }
  }

  lemma SameRuleAnswer(call: RuleCall, ids: seq<Id>, s: State, t: State)
    requires s.rows == t.rows && Coherent(s, GUARDED) && Coherent(t, GUARDED) && |ids| >= RuleDemand(call)
    ensures OnRules(call, ids, s) == OnRules(call, ids, t)
  {
    hide Coherent;
    forall key ensures IdByNaturalKey(s, CasbinRule, key) == IdByNaturalKey(t, CasbinRule, key) { SameLookups(s, t, CasbinRule, key); }
    if call.RemoveRules? { SameFoundIds(s, t, call.rules); }
    assert RefsOfKind(s, CasbinRule) == RefsOfKind(t, CasbinRule);
  }

  /** What dropping columns answers depends on the column index as well, which nothing defends:
      it takes a coherent one on both sides. */
  lemma BuildDependsOnRows(q: Request, ids: seq<Id>, s: State, t: State)
    requires s.rows == t.rows && Coherent(s, GUARDED) && Coherent(t, GUARDED)
    requires q.WellFormed() && |ids| >= q.Demand()
    requires q.DropColumns? ==> Coherent(s, {Column}) && Coherent(t, {Column})
    ensures Build(q, ids, s) == Build(q, ids, t)
  {
    hide Coherent, IdsUnderPrefix;
    match q
    case OnCatalog(call) => SameCatalogAnswer(call, s, t);
    case OnSchema(call) => SameSchemaAnswer(call, s, t);
    case OnTable(call) => SameTableAnswer(call, s, t);
    case OnProperty(call) => SamePropertyAnswer(call, ids, s, t);
    case OnRule(call) => SameRuleAnswer(call, ids, s, t);
    case InitMetastore(name) => assert RefsOfKind(s, Metastore) == RefsOfKind(t, Metastore);
    case InsertColumns(columns) =>
    case DropColumns(table) => SameListings(s, t, {Column}, Column, ChildKey(table, ""));
  }
}
