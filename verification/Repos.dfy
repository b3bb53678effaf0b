/** The closures the repository functions hand to `commit`: each looks at a snapshot and
    answers with actions and a reply, or refuses. They are where uniqueness is checked. */
module Repos {
  import opened Wrappers
  import opened Order
  import opened Model
  import opened Snapshots
  import opened Scan

  datatype Error =
    | CatalogAlreadyExists | CatalogNotFound | SchemaAlreadyExists | SchemaNotFound
    | TableAlreadyExists | TableNotFound | Internal

  datatype Reply = Unit | Flag(value: bool) | Found(row: Row)

  datatype Built = Refused(error: Error) | Built(actions: seq<Action>, reply: Reply)

  // Calls of the repository functions, one datatype per repository module. `payload` stands
  // for the columns that take no part in keys; an update without one leaves them alone.

  datatype CatalogCall =
    | CreateCatalog(id: Id, name: string, payload: string)
    | UpdateCatalog(name: string, newName: Option<string>, update: Option<string>)
    | DropCatalog(name: string)

  datatype SchemaCall =
    | CreateSchema(id: Id, catalogId: Id, name: string, payload: string)
    | UpdateSchema(id: Id, newName: Option<string>, update: Option<string>)
    | DropSchema(id: Id)

  datatype TableCall =
    | CreateTable(id: Id, schemaId: Id, name: string, payload: string)
    | RenameTable(id: Id, target: string)
    | PatchTable(id: Id, update: Option<string>)
    | DropTable(id: Id)

  datatype PropertyCall =
    | ReplaceProperties(entityId: Id, entityType: string, properties: map<string, string>)
    | DeleteProperties(entityId: Id, entityType: string)
    | SetProperty(entityId: Id, entityType: string, key: string, value: string)
    | DeleteProperty(entityId: Id, entityType: string, key: string)

  datatype RuleCall =
    | AddRule(rule: Rule)
    | RemoveRule(rule: Rule)
    | RemoveRules(rules: seq<Rule>)
    | ReplaceRules(rules: seq<Rule>)
    | ClearRules

  datatype Request =
    | OnCatalog(catalog: CatalogCall)
    | OnSchema(schema: SchemaCall)
    | OnTable(table: TableCall)
    | OnProperty(property: PropertyCall)
    | OnRule(rule: RuleCall)
    | InitMetastore(name: string)
    | InsertColumns(columns: seq<Row>)
    | DropColumns(owner: Id)
  {
    /** Entity types are literals of the program, and columns are column rows. */
    predicate WellFormed() {
      match this
      case OnProperty(call) => NulFree(call.entityType)
      case InsertColumns(columns) => forall c | c in columns :: c.ColumnRow?
      case _ => true
    }

    /** How many fresh ids the closure may draw. */
    function Demand(): nat {
      match this
      case OnProperty(call) => PropertyDemand(call)
      case OnRule(call) => RuleDemand(call)
      case InitMetastore(_) => 1
      case _ => 0
    }
  }

  function PropertyDemand(call: PropertyCall): nat {
    match call
    case ReplaceProperties(_, _, properties) => |properties|
    case SetProperty(_, _, _, _) => 1
    case _ => 0
  }

  function RuleDemand(call: RuleCall): nat {
    match call
    case AddRule(_) => 1
    case ReplaceRules(rules) => |rules|
    case _ => 0
  }

  // ----- pieces of the closures -----

  function Removals(kind: EntityKind, ids: seq<Id>): seq<Action> {
    seq(|ids|, i requires 0 <= i < |ids| => Remove(kind, ids[i]))
  }

  function SortedNames(names: set<string>): (q: seq<string>)
    ensures |q| == |names| && forall k :: k in q <==> k in names
    ensures Ascending(q, Plain)
  {
    PlainIsInjective();
    Sort(names, Plain)
  }

  function PropertyUpserts(entityId: Id, entityType: string, names: seq<string>, properties: map<string, string>, ids: seq<Id>): seq<Action>
    requires |ids| >= |names| && forall k | k in names :: k in properties
  {
    seq(|names|, i requires 0 <= i < |names| =>
      Upsert(Property, ids[i], PropertyRow(ids[i], entityId, entityType, names[i], properties[names[i]])))
  }

  /** `rules` without the ones whose key was seen before. */
  function Unseen(rules: seq<Rule>, seen: set<string>): (r: seq<Rule>)
    ensures |r| <= |rules|
  {
    if rules == [] then []
    else if RuleKey(rules[0]) in seen then Unseen(rules[1..], seen)
    else [rules[0]] + Unseen(rules[1..], seen + {RuleKey(rules[0])})
  }

  function RuleUpserts(rules: seq<Rule>, ids: seq<Id>): seq<Action>
    requires |ids| >= |rules|
  {
    seq(|rules|, i requires 0 <= i < |rules| => Upsert(CasbinRule, ids[i], CasbinRow(rules[i])))
  }

  function ColumnUpserts(columns: seq<Row>): seq<Action>
    requires forall c | c in columns :: c.ColumnRow?
  {
    seq(|columns|, i requires 0 <= i < |columns| => Upsert(Column, columns[i].id, columns[i]))
  }

  function RefsOfKind(s: State, kind: EntityKind): set<Tag> {
    set r | r in s.rows && r.kind == kind && |r.text| == 36
  }

  /** `iter_by_id`, and the order in which `iter` yields the rows of a kind that never has
      more than one. */
  function IdsByKind(s: State, kind: EntityKind): (ids: seq<Id>)
    ensures forall id: Id :: id in ids <==> Tag(kind, id) in s.rows
  {
    TextIsInjective();
    var refs := Sort(RefsOfKind(s, kind), Text);
    assert forall i | 0 <= i < |refs| :: refs[i] in refs;
    var ids: seq<Id> := seq(|refs|, i requires 0 <= i < |refs| => refs[i].text);
    assert forall id: Id :: Tag(kind, id) in s.rows ==> Tag(kind, id) in refs;
    assert forall i | 0 <= i < |refs| :: refs[i] == Tag(kind, ids[i]);
    ids
  }

  function FoundIds(s: State, rules: seq<Rule>): seq<Id> {
    if rules == [] then []
    else
      var rest := FoundIds(s, rules[1..]);
      match IdByNaturalKey(s, CasbinRule, RuleKey(rules[0]))
      case Some(id) => [id] + rest
      case None => rest
  }

  /** `COALESCE(new, current)`. */
  function Coalesce(current: string, update: Option<string>): string {
    if update.Some? then update.value else current
  }

  // ----- the closures -----

  function OnCatalogs(call: CatalogCall, s: State): Built {
    match call
    case CreateCatalog(id, name, payload) =>
      if GetByNaturalKey(s, Catalog, name).Some? then Refused(CatalogAlreadyExists)
      else
        var row := CatalogRow(id, name, payload);
        Built([Upsert(Catalog, id, row)], Found(row))

    case UpdateCatalog(name, newName, update) =>
      var current := GetByNaturalKey(s, Catalog, name);
      if current.None? then Refused(CatalogNotFound)
      else if !current.value.CatalogRow? then Refused(Internal)
      else if newName.Some? && newName.value != name && GetByNaturalKey(s, Catalog, newName.value).Some?
      then Refused(CatalogAlreadyExists)
      else
        var row := CatalogRow(current.value.id, Coalesce(current.value.name, newName), Coalesce(current.value.payload, update));
        Built([Upsert(Catalog, row.id, row)], Found(row))

    case DropCatalog(name) =>
      var current := GetByNaturalKey(s, Catalog, name);
      if current.None? then Refused(CatalogNotFound)
      else if !current.value.CatalogRow? then Refused(Internal)
      else Built([Remove(Catalog, current.value.id)], Unit)
  }

  function OnSchemas(call: SchemaCall, s: State): Built {
    match call
    case CreateSchema(id, catalogId, name, payload) =>
      if GetByNaturalKey(s, Schema, ChildKey(catalogId, name)).Some? then Refused(SchemaAlreadyExists)
      else
        var row := SchemaRow(id, catalogId, name, payload);
        Built([Upsert(Schema, id, row)], Found(row))

    case UpdateSchema(id, newName, update) =>
      var current := Get(s, Schema, id);
      if current.None? then Refused(SchemaNotFound)
      else if !current.value.SchemaRow? then Refused(Internal)
      else if newName.Some? && newName.value != current.value.name
              && GetByNaturalKey(s, Schema, ChildKey(current.value.catalogId, newName.value)).Some?
      then Refused(SchemaAlreadyExists)
      else
        var row := SchemaRow(current.value.id, current.value.catalogId, Coalesce(current.value.name, newName),
                             Coalesce(current.value.payload, update));
        Built([Upsert(Schema, id, row)], Found(row))

    case DropSchema(id) =>
      if Get(s, Schema, id).None? then Refused(SchemaNotFound) else Built([Remove(Schema, id)], Unit)
  }

  function OnTables(call: TableCall, s: State): Built {
    match call
    case CreateTable(id, schemaId, name, payload) =>
      if GetByNaturalKey(s, Table, ChildKey(schemaId, name)).Some? then Refused(TableAlreadyExists)
      else
        var row := TableRow(id, schemaId, name, payload);
        Built([Upsert(Table, id, row)], Found(row))

    case RenameTable(id, target) =>
      var current := Get(s, Table, id);
      if current.None? then Built([], Unit)
      else if !current.value.TableRow? then Refused(Internal)
      else if target != current.value.name
              && GetByNaturalKey(s, Table, ChildKey(current.value.schemaId, target)).Some?
      then Refused(TableAlreadyExists)
      else Built([Upsert(Table, id, TableRow(current.value.id, current.value.schemaId, target, current.value.payload))], Unit)

    case PatchTable(id, update) =>
      var current := Get(s, Table, id);
      if current.None? then Built([], Unit)
      else if !current.value.TableRow? then Refused(Internal)
      else
        var row := TableRow(current.value.id, current.value.schemaId, current.value.name, Coalesce(current.value.payload, update));
        Built([Upsert(Table, id, row)], Unit)

    case DropTable(id) =>
      if Get(s, Table, id).None? then Refused(TableNotFound) else Built([Remove(Table, id)], Unit)
  }

  function OnProperties(call: PropertyCall, ids: seq<Id>, s: State): Built
    requires |ids| >= PropertyDemand(call)
  {
    match call
    case ReplaceProperties(entityId, entityType, properties) =>
      var stale := IdsUnderPrefix(s, Property, PropertyPrefix(entityId, entityType));
      var names := SortedNames(properties.Keys);
      Built(Removals(Property, stale) + PropertyUpserts(entityId, entityType, names, properties, ids), Unit)

    case DeleteProperties(entityId, entityType) =>
      Built(Removals(Property, IdsUnderPrefix(s, Property, PropertyPrefix(entityId, entityType))), Unit)

    case SetProperty(entityId, entityType, key, value) =>
      var current := GetByNaturalKey(s, Property, PropertyPrefix(entityId, entityType) + key);
      if current.Some? && !current.value.PropertyRow? then Refused(Internal)
      else
        var id := if current.Some? then current.value.id else ids[0];
        Built([Upsert(Property, id, PropertyRow(id, entityId, entityType, key, value))], Unit)

    case DeleteProperty(entityId, entityType, key) =>
      var current := GetByNaturalKey(s, Property, PropertyPrefix(entityId, entityType) + key);
      if current.None? then Built([], Unit)
      else if !current.value.PropertyRow? then Refused(Internal)
      else Built([Remove(Property, current.value.id)], Unit)
  }

  function OnRules(call: RuleCall, ids: seq<Id>, s: State): Built
    requires |ids| >= RuleDemand(call)
  {
    match call
    case AddRule(rule) =>
      if GetByNaturalKey(s, CasbinRule, RuleKey(rule)).Some? then Built([], Flag(false))
      else Built([Upsert(CasbinRule, ids[0], CasbinRow(rule))], Flag(true))

    case RemoveRule(rule) =>
      var id := IdByNaturalKey(s, CasbinRule, RuleKey(rule));
      if id.None? then Built([], Flag(false)) else Built([Remove(CasbinRule, id.value)], Flag(true))

    case RemoveRules(rules) =>
      var actions := Removals(CasbinRule, FoundIds(s, rules));
      Built(actions, Flag(actions != []))

    case ReplaceRules(rules) =>
      Built(Removals(CasbinRule, IdsByKind(s, CasbinRule)) + RuleUpserts(Unseen(rules, {}), ids), Unit)

    case ClearRules => Built(Removals(CasbinRule, IdsByKind(s, CasbinRule)), Unit)
  }

  function OnMetastore(name: string, id: Id, s: State): Built {
    var existing := IdsByKind(s, Metastore);
    if existing != [] then
      assert existing[0] in existing;
      var row := s.rows[Tag(Metastore, existing[0])];
      if !row.MetastoreRow? then Refused(Internal) else Built([], Found(row))
    else
      var row := MetastoreRow(id, name);
      Built([Upsert(Metastore, id, row)], Found(row))
  }

  function Build(q: Request, ids: seq<Id>, s: State): Built
    requires q.WellFormed() && |ids| >= q.Demand()
  {
    match q
    case OnCatalog(call) => OnCatalogs(call, s)
    case OnSchema(call) => OnSchemas(call, s)
    case OnTable(call) => OnTables(call, s)
    case OnProperty(call) => OnProperties(call, ids, s)
    case OnRule(call) => OnRules(call, ids, s)
    case InitMetastore(name) => OnMetastore(name, ids[0], s)
    case InsertColumns(columns) => Built(ColumnUpserts(columns), Unit)
    case DropColumns(table) => Built(Removals(Column, IdsUnderPrefix(s, Column, ChildKey(table, ""))), Unit)
  }

  /** The closure answers with something to write. */
  predicate BuildsCommit(q: Request, ids: seq<Id>, s: State) {
    q.WellFormed() && |ids| >= q.Demand() && Build(q, ids, s).Built? && Build(q, ids, s).actions != []
  }

  /** The loop of `insert_columns`. */
  method InsertColumns(s: State, columns: seq<Row>) returns (actions: seq<Action>)
    requires forall c | c in columns :: c.ColumnRow?
    ensures Build(Request.InsertColumns(columns), [], s) == Built(actions, Unit)
  {
    actions := [];
    for i := 0 to |columns|
      invariant |actions| == i
      invariant forall j | 0 <= j < i :: actions[j] == ColumnUpserts(columns)[j]
    {
      assert columns[i] in columns;
      actions := actions + [Upsert(Column, columns[i].id, columns[i])];
    }
    assert actions == ColumnUpserts(columns);
  }

  // ----- what the closures write is of the kind they say -----

  lemma RemovalsReadable(kind: EntityKind, ids: seq<Id>)
    ensures AllReadable(Removals(kind, ids))
  {
  }

  lemma PropertyUpsertsReadable(entityId: Id, entityType: string, names: seq<string>, properties: map<string, string>, ids: seq<Id>)
    requires |ids| >= |names| && forall k | k in names :: k in properties
    ensures AllReadable(PropertyUpserts(entityId, entityType, names, properties, ids))
  {
  }

  lemma RuleUpsertsReadable(rules: seq<Rule>, ids: seq<Id>)
    requires |ids| >= |rules|
    ensures AllReadable(RuleUpserts(rules, ids))
  {
  }

  lemma ColumnUpsertsReadable(columns: seq<Row>)
    requires forall c | c in columns :: c.ColumnRow?
    ensures AllReadable(ColumnUpserts(columns))
  {
    assert forall i | 0 <= i < |columns| :: columns[i] in columns;
  }

  lemma PropertiesReadable(call: PropertyCall, ids: seq<Id>, s: State)
    requires |ids| >= PropertyDemand(call) && OnProperties(call, ids, s).Built?
    ensures AllReadable(OnProperties(call, ids, s).actions)
  {
    hide Removals, PropertyUpserts, IdsUnderPrefix, SortedNames, PropertyPrefix, GetByNaturalKey;
    match call
    case ReplaceProperties(entityId, entityType, properties) =>
      RemovalsReadable(Property, IdsUnderPrefix(s, Property, PropertyPrefix(entityId, entityType)));
      PropertyUpsertsReadable(entityId, entityType, SortedNames(properties.Keys), properties, ids);
    case DeleteProperties(entityId, entityType) =>
      RemovalsReadable(Property, IdsUnderPrefix(s, Property, PropertyPrefix(entityId, entityType)));
    case _ =>
  }

  lemma RulesReadable(call: RuleCall, ids: seq<Id>, s: State)
    requires |ids| >= RuleDemand(call) && OnRules(call, ids, s).Built?
    ensures AllReadable(OnRules(call, ids, s).actions)
  {
    hide Removals, RuleUpserts, IdsByKind, Unseen, FoundIds, GetByNaturalKey, IdByNaturalKey;
    match call
    case RemoveRules(rules) => RemovalsReadable(CasbinRule, FoundIds(s, rules));
    case ReplaceRules(rules) =>
      RemovalsReadable(CasbinRule, IdsByKind(s, CasbinRule));
      RuleUpsertsReadable(Unseen(rules, {}), ids);
    case ClearRules => RemovalsReadable(CasbinRule, IdsByKind(s, CasbinRule));
    case _ =>
  }

  /** No closure writes a row that `apply` would refuse, on any snapshot. */
  lemma BuildReadable(q: Request, ids: seq<Id>, s: State)
    requires q.WellFormed() && |ids| >= q.Demand() && Build(q, ids, s).Built?
    ensures AllReadable(Build(q, ids, s).actions)
  {
    hide OnProperties, OnRules, ColumnUpserts, IdsByKind, Removals, IdsUnderPrefix;
    match q
    case OnProperty(call) => PropertiesReadable(call, ids, s);
    case OnRule(call) => RulesReadable(call, ids, s);
    case InsertColumns(columns) => ColumnUpsertsReadable(columns);
    case DropColumns(table) => RemovalsReadable(Column, IdsUnderPrefix(s, Column, ChildKey(table, "")));
    case _ =>
  }

  predicate OfKind(p: seq<Action>, kind: EntityKind) {
    forall a | a in p :: a.kind == kind
  }

  lemma RemovalsOfKind(kind: EntityKind, ids: seq<Id>)
    ensures OfKind(Removals(kind, ids), kind)
  {
  }

  lemma RuleUpsertsOfKind(rules: seq<Rule>, ids: seq<Id>)
    requires |ids| >= |rules|
    ensures OfKind(RuleUpserts(rules, ids), CasbinRule)
  {
  }

  lemma PropertyUpsertsOfKind(entityId: Id, entityType: string, names: seq<string>, properties: map<string, string>, ids: seq<Id>)
    requires |ids| >= |names| && forall k | k in names :: k in properties
    ensures OfKind(PropertyUpserts(entityId, entityType, names, properties, ids), Property)
  {
  }

  lemma PropertyActions(call: PropertyCall, ids: seq<Id>, s: State)
    requires |ids| >= PropertyDemand(call) && OnProperties(call, ids, s).Built?
    ensures OfKind(OnProperties(call, ids, s).actions, Property)
  {
    hide Removals, PropertyUpserts, IdsUnderPrefix, SortedNames, PropertyPrefix, GetByNaturalKey;
    match call
    case ReplaceProperties(entityId, entityType, properties) =>
      RemovalsOfKind(Property, IdsUnderPrefix(s, Property, PropertyPrefix(entityId, entityType)));
      PropertyUpsertsOfKind(entityId, entityType, SortedNames(properties.Keys), properties, ids);
    case DeleteProperties(entityId, entityType) =>
      RemovalsOfKind(Property, IdsUnderPrefix(s, Property, PropertyPrefix(entityId, entityType)));
    case _ =>
  }

  lemma RuleActions(call: RuleCall, ids: seq<Id>, s: State)
    requires |ids| >= RuleDemand(call) && OnRules(call, ids, s).Built?
    ensures OfKind(OnRules(call, ids, s).actions, CasbinRule)
  {
    hide Removals, RuleUpserts, IdsByKind, Unseen, FoundIds, GetByNaturalKey;
    match call
    case RemoveRules(rules) => RemovalsOfKind(CasbinRule, FoundIds(s, rules));
    case ReplaceRules(rules) =>
      RemovalsOfKind(CasbinRule, IdsByKind(s, CasbinRule));
      RuleUpsertsOfKind(Unseen(rules, {}), ids);
    case ClearRules => RemovalsOfKind(CasbinRule, IdsByKind(s, CasbinRule));
    case _ =>
  }
}
