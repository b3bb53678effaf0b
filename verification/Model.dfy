/** Rows, actions and natural keys: what a commit says and what a snapshot holds. */
module Model {
  import opened Order
  import opened Keys
  import opened Wrappers

  // ----- kinds and identities -----

  datatype EntityKind =
    | Metastore | Catalog | Schema | Table | Column | Volume | Function | FunctionParameter
    | RegisteredModel | ModelVersion | StagingTable | User | Credential | ExternalLocation
    | Property | CasbinRule

  /** The canonical hyphenated text of a UUID. All ids have one length, and ordering the
      texts orders the ids. */
  type Id = s: string | |s| == 36 witness seq(36, _ => '0')

  /** The declaration order of the kinds, as one character. */
  function Mark(kind: EntityKind): char {
    match kind
    case Metastore => 'a' case Catalog => 'b' case Schema => 'c' case Table => 'd'
    case Column => 'e' case Volume => 'f' case Function => 'g' case FunctionParameter => 'h'
    case RegisteredModel => 'i' case ModelVersion => 'j' case StagingTable => 'k' case User => 'l'
    case Credential => 'm' case ExternalLocation => 'n' case Property => 'o' case CasbinRule => 'p'
  }

  /** A kind paired with a string: a row's identity (kind, id), or an entry of the
      natural-key index (kind, composite key). */
  datatype Tag = Tag(kind: EntityKind, text: string)

  /** Pairs compare by kind, then by string; so do these renderings. */
  function Text(t: Tag): string {
    [Mark(t.kind)] + t.text
  }

  lemma TextIsInjective()
    ensures Ranked(Text)
  {
    forall a: Tag, b: Tag | Text(a) == Text(b) ensures a == b {
      assert Text(a)[0] == Mark(a.kind) && Text(b)[0] == Mark(b.kind);
      assert a.text == Text(a)[1..] && b.text == Text(b)[1..];
    }
  }

  // ----- rows -----

  /** The seven policy columns: ptype, v0, ..., v5. */
  type Rule = q: seq<string> | |q| == 7 witness ["", "", "", "", "", "", ""]

  datatype Row =
    | MetastoreRow(id: Id, name: string)
    | CatalogRow(id: Id, name: string, payload: string)
    | SchemaRow(id: Id, catalogId: Id, name: string, payload: string)
    | TableRow(id: Id, schemaId: Id, name: string, payload: string)
    | ColumnRow(id: Id, tableId: Id, ordinal: I64, payload: string)
    | VolumeRow(id: Id, schemaId: Id, name: string, payload: string)
    | FunctionRow(id: Id, schemaId: Id, name: string, payload: string)
    | FunctionParameterRow(id: Id, payload: string)
    | RegisteredModelRow(id: Id, schemaId: Id, name: string, payload: string)
    | ModelVersionRow(id: Id, payload: string)
    | StagingTableRow(id: Id, payload: string)
    | UserRow(id: Id, name: string, payload: string)
    | CredentialRow(id: Id, name: string, payload: string)
    | ExternalLocationRow(id: Id, name: string, payload: string)
    | PropertyRow(id: Id, entityId: Id, entityType: string, key: string, value: string)
    | CasbinRow(rule: Rule)
  {
    function Kind(): EntityKind {
      match this
      case MetastoreRow(_, _) => EntityKind.Metastore
      case CatalogRow(_, _, _) => EntityKind.Catalog
      case SchemaRow(_, _, _, _) => EntityKind.Schema
      case TableRow(_, _, _, _) => EntityKind.Table
      case ColumnRow(_, _, _, _) => EntityKind.Column
      case VolumeRow(_, _, _, _) => EntityKind.Volume
      case FunctionRow(_, _, _, _) => EntityKind.Function
      case FunctionParameterRow(_, _) => EntityKind.FunctionParameter
      case RegisteredModelRow(_, _, _, _) => EntityKind.RegisteredModel
      case ModelVersionRow(_, _) => EntityKind.ModelVersion
      case StagingTableRow(_, _) => EntityKind.StagingTable
      case UserRow(_, _, _) => EntityKind.User
      case CredentialRow(_, _, _) => EntityKind.Credential
      case ExternalLocationRow(_, _, _) => EntityKind.ExternalLocation
      case PropertyRow(_, _, _, _, _) => EntityKind.Property
      case CasbinRow(_) => EntityKind.CasbinRule
    }
  }

  // ----- natural keys -----

  const NUL: char := '\0'

  function Join(parts: seq<string>): string {
    if |parts| == 0 then ""
    else if |parts| == 1 then parts[0]
    else parts[0] + [NUL] + Join(parts[1..])
  }

  function ChildKey(parent: Id, name: string): string {
    parent + [NUL] + name
  }

  function PropertyPrefix(entityId: Id, entityType: string): string {
    entityId + [NUL] + entityType + [NUL]
  }

  function RuleKey(rule: Rule): string {
    Join(rule)
  }

  /** The SQL UNIQUE tuple, rendered; None for the kinds that have none. */
  function NaturalKey(row: Row): Option<string> {
    match row
    case CatalogRow(_, name, _) => Some(name)
    case SchemaRow(_, catalogId, name, _) => Some(ChildKey(catalogId, name))
    case TableRow(_, schemaId, name, _) => Some(ChildKey(schemaId, name))
    case VolumeRow(_, schemaId, name, _) => Some(ChildKey(schemaId, name))
    case FunctionRow(_, schemaId, name, _) => Some(ChildKey(schemaId, name))
    case RegisteredModelRow(_, schemaId, name, _) => Some(ChildKey(schemaId, name))
    case ColumnRow(_, tableId, ordinal, _) => Some(ChildKey(tableId, PadI64(ordinal)))
    case PropertyRow(_, entityId, entityType, key, _) => Some(PropertyPrefix(entityId, entityType) + key)
    case UserRow(_, name, _) => Some(name)
    case CredentialRow(_, name, _) => Some(name)
    case ExternalLocationRow(_, name, _) => Some(name)
    case CasbinRow(rule) => Some(RuleKey(rule))
    case MetastoreRow(_, _) => None
    case FunctionParameterRow(_, _) => None
    case ModelVersionRow(_, _) => None
    case StagingTableRow(_, _) => None
  }

  predicate NulFree(s: string) {
    NUL !in s
  }

  lemma {:induction false} NulFreeSplit(a: string, x: string, b: string, y: string)
    requires NulFree(a) && NulFree(b)
    requires a + [NUL] + x == b + [NUL] + y
    ensures a == b && x == y
  {
    var s := a + [NUL] + x;
    assert s[|a|] == NUL && s[|b|] == NUL;
    assert forall i | 0 <= i < |a| :: s[i] == a[i] && a[i] in a;
    assert forall i | 0 <= i < |b| :: s[i] == b[i] && b[i] in b;
    assert s[..|a|] == a && s[|a| + 1..] == x;
    assert s[..|b|] == b && s[|b| + 1..] == y;
  }

  /** Policy keys identify rules as long as every column but the last is free of NUL. */
  lemma {:induction false} JoinIsInjective(q: seq<string>, r: seq<string>)
    requires |q| == |r| > 0
    requires forall i | 0 <= i < |q| - 1 :: NulFree(q[i]) && NulFree(r[i])
    requires Join(q) == Join(r)
    ensures q == r
  {
    if |q| > 1 {
      assert Join(q) == q[0] + [NUL] + Join(q[1..]) && Join(r) == r[0] + [NUL] + Join(r[1..]);
      NulFreeSplit(q[0], Join(q[1..]), r[0], Join(r[1..]));
      JoinIsInjective(q[1..], r[1..]);
      assert q == [q[0]] + q[1..] && r == [r[0]] + r[1..];
    }
  }

  /** The type `short` and its NUL begin `long` and its NUL, and `key` is what is left of them
      and then `rest`. */
  predicate Straddles(short: string, key: string, long: string, rest: string) {
    short + [NUL] <= long + [NUL] && key == (long + [NUL])[|short| + 1..] + rest
  }

  /** When two properties of an entity share a key: never by accident among types free of NUL. */
  lemma PropertyKeysCollide(entityId: Id, ty: string, key: string, ty': string, key': string)
    ensures PropertyPrefix(entityId, ty) + key == PropertyPrefix(entityId, ty') + key'
            <==> Straddles(ty, key, ty', key') || Straddles(ty', key', ty, key)
    ensures NulFree(ty) && NulFree(ty') ==>
              (PropertyPrefix(entityId, ty) + key == PropertyPrefix(entityId, ty') + key' <==> ty == ty' && key == key')
  {
    hide NulFree;
    var p, p' := ty + [NUL], ty' + [NUL];
    assert PropertyPrefix(entityId, ty) + key == entityId + [NUL] + (p + key);
    assert PropertyPrefix(entityId, ty') + key' == entityId + [NUL] + (p' + key');
    ChildTail(entityId, p + key, p' + key');
    if p + key == p' + key' {
      if |p| <= |p'| { SplitPrefix(p, key, p', key'); } else { SplitPrefix(p', key', p, key); }
      if NulFree(ty) && NulFree(ty') {
        assert p + key == ty + [NUL] + key && p' + key' == ty' + [NUL] + key';
        NulFreeSplit(ty, key, ty', key');
      }
    }
  }

  lemma ChildTail(parent: Id, a: string, b: string)
    ensures parent + [NUL] + a == parent + [NUL] + b <==> a == b
  {
    var p := parent + [NUL];
    assert (p + a)[37..] == a && (p + b)[37..] == b;
  }

  lemma SplitPrefix(p: string, x: string, q: string, y: string)
    requires p + x == q + y && |p| <= |q|
    ensures p <= q && x == q[|p|..] + y
  {
    assert p == (p + x)[..|p|] == (q + y)[..|p|] == q[..|p|];
    assert x == (p + x)[|p|..] == (q + y)[|p|..] == q[|p|..] + y;
  }

  /** Without one, a property row is listed under a group exactly when it belongs to it. */
  lemma PropertyGroup(row: Row, entityId: Id, entityType: string)
    requires row.PropertyRow? && NulFree(row.entityType) && NulFree(entityType)
    ensures PropertyPrefix(entityId, entityType) <= NaturalKey(row).value
            <==> row.entityId == entityId && row.entityType == entityType
  {
    var p, k := PropertyPrefix(entityId, entityType), NaturalKey(row).value;
    assert k == row.entityId + [NUL] + row.entityType + [NUL] + row.key;
    assert k[..36] == row.entityId && k[36..] == [NUL] + (row.entityType + [NUL] + row.key);
    assert p[..36] == entityId && p[36..] == [NUL] + (entityType + [NUL]);
    if p <= k {
      var rest := k[|p|..];
      assert k == p + rest;
      assert k[..36] == p[..36];
      assert k[37..] == entityType + [NUL] + rest && k[37..] == row.entityType + [NUL] + row.key;
      NulFreeSplit(entityType, rest, row.entityType, row.key);
    }
  }

  lemma ChildGroup(parent: Id, other: Id, name: string)
    ensures ChildKey(parent, "") <= ChildKey(other, name) <==> parent == other
    ensures parent == other ==> ChildKey(other, name)[|ChildKey(parent, "")|..] == name
  {
    assert ChildKey(other, name)[..36] == other && ChildKey(parent, "")[..36] == parent;
    if ChildKey(parent, "") <= ChildKey(other, name) {
      assert ChildKey(other, name)[..37][..36] == ChildKey(parent, "")[..36];
    }
  }

  // ----- the columns a natural key stands for -----

  /** The UNIQUE columns of a row's table. */
  datatype Unique =
    | Named(name: string)
    | Under(parent: Id, name: string)
    | At(table: Id, ordinal: I64)
    | PropertyOf(entityId: Id, entityType: string, key: string)
    | Policy(rule: Rule)

  function UniqueColumns(row: Row): Option<Unique> {
    match row
    case CatalogRow(_, name, _) => Some(Named(name))
    case UserRow(_, name, _) => Some(Named(name))
    case CredentialRow(_, name, _) => Some(Named(name))
    case ExternalLocationRow(_, name, _) => Some(Named(name))
    case SchemaRow(_, catalogId, name, _) => Some(Under(catalogId, name))
    case TableRow(_, schemaId, name, _) => Some(Under(schemaId, name))
    case VolumeRow(_, schemaId, name, _) => Some(Under(schemaId, name))
    case FunctionRow(_, schemaId, name, _) => Some(Under(schemaId, name))
    case RegisteredModelRow(_, schemaId, name, _) => Some(Under(schemaId, name))
    case ColumnRow(_, tableId, ordinal, _) => Some(At(tableId, ordinal))
    case PropertyRow(_, entityId, entityType, key, _) => Some(PropertyOf(entityId, entityType, key))
    case CasbinRow(rule) => Some(Policy(rule))
    case _ => None
  }

  /** The separator cannot occur where it would mislead. */
  predicate Separable(row: Row) {
    && (row.PropertyRow? ==> NulFree(row.entityType))
    && (row.CasbinRow? ==> forall i | 0 <= i < 6 :: NulFree(row.rule[i]))
  }

  lemma ChildKeysTellApart(parent: Id, name: string, parent': Id, name': string)
    ensures ChildKey(parent, name) == ChildKey(parent', name') <==> parent == parent' && name == name'
  {
    ChildGroup(parent, parent', name');
    ChildGroup(parent, parent, name);
    assert ChildKey(parent, "") <= ChildKey(parent, name);
  }

  /** Two rows of one kind share a natural key if and only if they agree in the UNIQUE columns of
      their table, and a row has one exactly when there are such columns. */
  lemma NaturalKeysAreUniqueColumns(a: Row, b: Row)
    requires a.Kind() == b.Kind() && Separable(a) && Separable(b)
    ensures NaturalKey(a).Some? <==> UniqueColumns(a).Some?
    ensures NaturalKey(a) == NaturalKey(b) <==> UniqueColumns(a) == UniqueColumns(b)
  {
    hide PadI64, NulFree, Join, ChildKey;
    match a
    case SchemaRow(_, parent, name, _) => ChildKeysTellApart(parent, name, b.catalogId, b.name);
    case TableRow(_, parent, name, _) => ChildKeysTellApart(parent, name, b.schemaId, b.name);
    case VolumeRow(_, parent, name, _) => ChildKeysTellApart(parent, name, b.schemaId, b.name);
    case FunctionRow(_, parent, name, _) => ChildKeysTellApart(parent, name, b.schemaId, b.name);
    case RegisteredModelRow(_, parent, name, _) => ChildKeysTellApart(parent, name, b.schemaId, b.name);
    case ColumnRow(_, table, ordinal, _) =>
      ChildKeysTellApart(table, PadI64(ordinal), b.tableId, PadI64(b.ordinal));
      PadsTellApart(ordinal, b.ordinal);
    case PropertyRow(_, entityId, entityType, key, _) => PropertiesTellApart(a, b);
    case CasbinRow(rule) => if RuleKey(rule) == RuleKey(b.rule) { JoinIsInjective(rule, b.rule); }
    case _ =>
  }

  lemma PadsTellApart(v: I64, w: I64)
    ensures PadI64(v) == PadI64(w) <==> v == w
  {
    hide PadI64;
    PadI64Ordered(v, w);
  }

  lemma PropertiesTellApart(a: Row, b: Row)
    requires a.PropertyRow? && b.PropertyRow? && NulFree(a.entityType) && NulFree(b.entityType)
    ensures NaturalKey(a) == NaturalKey(b) <==> a.entityId == b.entityId && a.entityType == b.entityType && a.key == b.key
  {
    var k, l := NaturalKey(a).value, NaturalKey(b).value;
    assert k == a.entityId + [NUL] + a.entityType + [NUL] + a.key && l == b.entityId + [NUL] + b.entityType + [NUL] + b.key;
    assert k[..36] == a.entityId && l[..36] == b.entityId;
    if k == l { PropertyKeysCollide(a.entityId, a.entityType, a.key, b.entityType, b.key); }
  }

  /** The rows under a parent are those whose key starts with the parent's prefix. */
  lemma ParentGroup(row: Row, parent: Id)
    requires row.SchemaRow? || row.TableRow? || row.VolumeRow? || row.FunctionRow? || row.RegisteredModelRow? || row.ColumnRow?
    ensures ChildKey(parent, "") <= NaturalKey(row).value <==>
              match UniqueColumns(row)
              case Some(Under(p, _)) => p == parent
              case Some(At(p, _)) => p == parent
              case _ => false
  {
    hide PadI64;
    match row
    case SchemaRow(_, p, name, _) => ChildGroup(parent, p, name);
    case TableRow(_, p, name, _) => ChildGroup(parent, p, name);
    case VolumeRow(_, p, name, _) => ChildGroup(parent, p, name);
    case FunctionRow(_, p, name, _) => ChildGroup(parent, p, name);
    case RegisteredModelRow(_, p, name, _) => ChildGroup(parent, p, name);
    case ColumnRow(_, p, ordinal, _) => ChildGroup(parent, p, PadI64(ordinal));
  }

  // ----- actions -----

  const MAX_COMMIT_ATTEMPTS: nat := 8

  datatype Action =
    | Upsert(kind: EntityKind, id: Id, row: Row)
    | Remove(kind: EntityKind, id: Id)
  {
    function Ref(): Tag { Tag(kind, id) }

    /** `row::from_body` accepts the body: it is a row of the declared kind. */
    predicate Readable() { Upsert? ==> row.Kind() == kind }
  }

  /** The rows one build of the program can decode. Another build may write others. */
  type Known = Row -> bool

  /** `row::from_body` accepts the action's body. */
  predicate Accepts(known: Known, a: Action) {
    a.Readable() && (a.Upsert? ==> known(a.row))
  }

  function KeyOf(row: Row): Option<Tag> {
    match NaturalKey(row)
    case Some(key) => Some(Tag(row.Kind(), key))
    case None => None
  }
}
