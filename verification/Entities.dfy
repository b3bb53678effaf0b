/** What catalogs, schemas and tables look like by name before and after each call. */
module Entities {
  import opened Wrappers
  import opened Order
  import opened Model
  import opened Snapshots
  import opened Repos
  import opened Guards

  function Lookup(s: State, kind: EntityKind, key: string): Option<Row> {
    GetByNaturalKey(s, kind, key)
  }

  /** No lookup but these gives another answer. */
  ghost predicate OnlyAt(s: State, t: State, kind: EntityKind, keys: set<string>) {
    forall other: EntityKind, key | other in GUARDED && !(other == kind && key in keys) :: Lookup(t, other, key) == Lookup(s, other, key)
  }

  lemma UpsertLookup(s: State, a: Action, other: EntityKind, key: string)
    requires Coherent(s, GUARDED) && a.Upsert? && a.Readable() && Guard(s, a, GUARDED) && a.kind in GUARDED && KeyOf(a.row).Some?
    ensures Lookup(After(s, a), other, key) ==
            if KeyOf(a.row) == Some(Tag(other, key)) then Some(a.row)
            else if KeyAt(s, a.Ref()) == Some(Tag(other, key)) then None
            else Lookup(s, other, key)
  {
    hide Complete, Typed;
    var k := Tag(other, key);
    if k in s.index { assert KeyAt(s, Tag(other, s.index[k])) == Some(k); }
  }

  lemma RemoveLookup(s: State, a: Action, other: EntityKind, key: string)
    requires Coherent(s, GUARDED) && a.Remove?
    ensures Lookup(After(s, a), other, key) ==
            if KeyAt(s, a.Ref()) == Some(Tag(other, key)) then None else Lookup(s, other, key)
  {
    hide Complete, Typed;
    var k := Tag(other, key);
    if k in s.index { assert KeyAt(s, Tag(other, s.index[k])) == Some(k); }
  }

  /** Both, for every key at once. */
  lemma OneActionLookups(s: State, a: Action)
    requires Trusted(s) && a.Readable() && Guard(s, a, GUARDED) && a.kind in GUARDED && (a.Upsert? ==> KeyOf(a.row).Some?)
    ensures var t := AfterAll(s, [a]); forall other: EntityKind, key ::
              Lookup(t, other, key) ==
              if a.Upsert? && KeyOf(a.row) == Some(Tag(other, key)) then Some(a.row)
              else if KeyAt(s, a.Ref()) == Some(Tag(other, key)) then None
              else Lookup(s, other, key)
  {
    hide Guard, KeyOf, Coherent, FaithfulRows, KeyAt, Lookup, After, AfterAll;
    AfterOne(s, a);
    forall other: EntityKind, key
      ensures Lookup(After(s, a), other, key) ==
              if a.Upsert? && KeyOf(a.row) == Some(Tag(other, key)) then Some(a.row)
              else if KeyAt(s, a.Ref()) == Some(Tag(other, key)) then None
              else Lookup(s, other, key)
    {
      if a.Upsert? { UpsertLookup(s, a, other, key); } else { RemoveLookup(s, a, other, key); }
    }
  }

  /** A row found by its key is the one filed under its id. */
  lemma FoundRow(s: State, kind: EntityKind, key: string)
    requires Trusted(s) && Lookup(s, kind, key).Some? && kind != CasbinRule
    ensures var row := Lookup(s, kind, key).value;
            && row.Kind() == kind && !row.CasbinRow? && KeyOf(row) == Some(Tag(kind, key)) && KeyAt(s, Tag(kind, row.id)) == Some(Tag(kind, key))
  {
    hide FaithfulRows, NaturalKey, Complete;
    LookupOwner(s, kind, key);
    assert KeyAt(s, Tag(kind, s.index[Tag(kind, key)])) == Some(Tag(kind, key));
  }

  lemma HeldRow(s: State, kind: EntityKind, id: Id)
    requires Trusted(s) && Get(s, kind, id).Some? && KeyOf(Get(s, kind, id).value).Some? && kind in GUARDED
    ensures var row := Get(s, kind, id).value; var k := KeyOf(row).value;
            && row.Kind() == kind && k.kind == kind && KeyAt(s, Tag(kind, id)) == Some(k) && Lookup(s, kind, k.text) == Some(row)
            && (row.CasbinRow? || row.id == id)
  {
    hide FaithfulRows, NaturalKey, NoStale;
    RowOwner(s, kind, id);
  }

  // ----- what a call can do to the names of a kind -----

  ghost predicate Adds(s: State, b: Built, kind: EntityKind, key: string, row: Row) {
    b.Built? && b.reply == Found(row) &&
    var t := AfterAll(s, b.actions);
    Lookup(t, kind, key) == Some(row) && OnlyAt(s, t, kind, {key})
  }

  ghost predicate Moves(s: State, b: Built, kind: EntityKind, was: string, key: string, row: Row, reply: Reply) {
    b.Built? && b.reply == reply &&
    var t := AfterAll(s, b.actions);
    && Lookup(t, kind, key) == Some(row) && (key != was ==> Lookup(t, kind, was) == None)
    && OnlyAt(s, t, kind, {was, key})
  }

  ghost predicate Drops(s: State, b: Built, kind: EntityKind, key: string) {
    b.Built? && b.reply == Unit &&
    var t := AfterAll(s, b.actions);
    Lookup(t, kind, key) == None && OnlyAt(s, t, kind, {key})
  }

  lemma AddsOne(s: State, kind: EntityKind, id: Id, row: Row, key: string)
    requires Trusted(s) && kind in GUARDED && row.Kind() == kind && KeyOf(row) == Some(Tag(kind, key))
    requires Lookup(s, kind, key) == None && Tag(kind, id) !in s.rows
    ensures Adds(s, Built([Upsert(kind, id, row)], Found(row)), kind, key, row)
  {
    hide KeyOf, Coherent, FaithfulRows, GetByNaturalKey, AfterAll;
    LookupFree(s, kind, key);
    OneActionLookups(s, Upsert(kind, id, row));
  }

  lemma MovesOne(s: State, kind: EntityKind, id: Id, row: Row, was: string, key: string, reply: Reply)
    requires Trusted(s) && kind in GUARDED && row.Kind() == kind && KeyOf(row) == Some(Tag(kind, key))
    requires KeyAt(s, Tag(kind, id)) == Some(Tag(kind, was)) && (key != was ==> Lookup(s, kind, key) == None)
    ensures Moves(s, Built([Upsert(kind, id, row)], reply), kind, was, key, row, reply)
  {
    hide KeyOf, Coherent, FaithfulRows, GetByNaturalKey, AfterAll;
    if key != was { LookupFree(s, kind, key); } else { OwnKey(s, kind, id, key); }
    OneActionLookups(s, Upsert(kind, id, row));
  }

  lemma OwnKey(s: State, kind: EntityKind, id: Id, key: string)
    requires Trusted(s) && kind in GUARDED && KeyAt(s, Tag(kind, id)) == Some(Tag(kind, key))
    ensures Tag(kind, key) in s.index && s.index[Tag(kind, key)] == id
  {
    hide FaithfulRows, NoStale;
  }

  lemma DropsOne(s: State, kind: EntityKind, id: Id, key: string)
    requires Trusted(s) && kind in GUARDED && KeyAt(s, Tag(kind, id)) == Some(Tag(kind, key))
    ensures Drops(s, Built([Remove(kind, id)], Unit), kind, key)
  {
    hide KeyOf, Coherent, FaithfulRows, GetByNaturalKey, AfterAll;
    OneActionLookups(s, Remove(kind, id));
  }

  // ----- catalogs -----

  /** A name that is taken refuses; a free one comes to name the new row, and nothing else
      changes. The same reading applies below. */
  lemma CreateCatalogAdds(s: State, id: Id, name: string, payload: string)
    requires Trusted(s) && Tag(Catalog, id) !in s.rows
    ensures var b := OnCatalogs(CreateCatalog(id, name, payload), s);
            if Lookup(s, Catalog, name).Some? then b == Refused(CatalogAlreadyExists)
            else Adds(s, b, Catalog, name, CatalogRow(id, name, payload))
  {
    hide Trusted, GetByNaturalKey, Adds;
    if Lookup(s, Catalog, name).None? { AddsOne(s, Catalog, id, CatalogRow(id, name, payload), name); }
  }

  lemma CatalogFound(s: State, name: string)
    requires Trusted(s) && Lookup(s, Catalog, name).Some?
    ensures var row := Lookup(s, Catalog, name).value;
            row.CatalogRow? && row.name == name && KeyAt(s, Tag(Catalog, row.id)) == Some(Tag(Catalog, name))
  {
    hide Trusted, GetByNaturalKey, KeyAt;
    FoundRow(s, Catalog, name);
  }

  lemma UpdateCatalogMoves(s: State, name: string, newName: Option<string>, update: Option<string>)
    requires Trusted(s)
    ensures var b := OnCatalogs(UpdateCatalog(name, newName, update), s);
            var target := Coalesce(name, newName);
            if Lookup(s, Catalog, name).None? then b == Refused(CatalogNotFound)
            else if target != name && Lookup(s, Catalog, target).Some? then b == Refused(CatalogAlreadyExists)
            else
              var was := Lookup(s, Catalog, name).value;
              was.CatalogRow? &&
              var row := CatalogRow(was.id, target, Coalesce(was.payload, update));
              Moves(s, b, Catalog, name, target, row, Found(row))
  {
    hide Trusted, GetByNaturalKey, Moves, KeyAt;
    if Lookup(s, Catalog, name).Some? {
      CatalogFound(s, name);
      var was := Lookup(s, Catalog, name).value;
      var target := Coalesce(name, newName);
      if target == name || Lookup(s, Catalog, target).None? {
        var row := CatalogRow(was.id, target, Coalesce(was.payload, update));
        MovesOne(s, Catalog, was.id, row, name, target, Found(row));
      }
    }
  }

  lemma DropCatalogDrops(s: State, name: string)
    requires Trusted(s)
    ensures var b := OnCatalogs(DropCatalog(name), s);
            if Lookup(s, Catalog, name).None? then b == Refused(CatalogNotFound) else Drops(s, b, Catalog, name)
  {
    hide Trusted, GetByNaturalKey, Drops, KeyAt;
    if Lookup(s, Catalog, name).Some? {
      CatalogFound(s, name);
      DropsOne(s, Catalog, Lookup(s, Catalog, name).value.id, name);
    }
  }

  // ----- schemas -----

  lemma CreateSchemaAdds(s: State, id: Id, catalogId: Id, name: string, payload: string)
    requires Trusted(s) && Tag(Schema, id) !in s.rows
    ensures var b := OnSchemas(CreateSchema(id, catalogId, name, payload), s);
            if Lookup(s, Schema, ChildKey(catalogId, name)).Some? then b == Refused(SchemaAlreadyExists)
            else Adds(s, b, Schema, ChildKey(catalogId, name), SchemaRow(id, catalogId, name, payload))
  {
    hide Trusted, GetByNaturalKey, Adds, ChildKey;
    if Lookup(s, Schema, ChildKey(catalogId, name)).None? {
      AddsOne(s, Schema, id, SchemaRow(id, catalogId, name, payload), ChildKey(catalogId, name));
    }
  }

  lemma SchemaHeld(s: State, id: Id)
    requires Trusted(s) && Get(s, Schema, id).Some?
    ensures var row := Get(s, Schema, id).value;
            && row.SchemaRow? && row.id == id && KeyAt(s, Tag(Schema, id)) == Some(Tag(Schema, ChildKey(row.catalogId, row.name)))
            && Lookup(s, Schema, ChildKey(row.catalogId, row.name)) == Some(row)
  {
    hide Trusted, GetByNaturalKey, KeyAt, ChildKey;
    RowOwner(s, Schema, id);
    HeldRow(s, Schema, id);
  }

  /** The composite keys move within the parent the row already has. */
  lemma UpdateSchemaMoves(s: State, id: Id, newName: Option<string>, update: Option<string>)
    requires Trusted(s)
    ensures var b := OnSchemas(UpdateSchema(id, newName, update), s);
            if Get(s, Schema, id).None? then b == Refused(SchemaNotFound)
            else
              var was := Get(s, Schema, id).value;
              was.SchemaRow? &&
              var row := SchemaRow(id, was.catalogId, Coalesce(was.name, newName), Coalesce(was.payload, update));
              if row.name != was.name && Lookup(s, Schema, ChildKey(was.catalogId, row.name)).Some? then b == Refused(SchemaAlreadyExists)
              else Moves(s, b, Schema, ChildKey(was.catalogId, was.name), ChildKey(was.catalogId, row.name), row, Found(row))
  {
    hide Trusted, GetByNaturalKey, Moves, KeyAt, ChildKey;
    if Get(s, Schema, id).Some? {
      SchemaHeld(s, id);
      var was := Get(s, Schema, id).value;
      var row := SchemaRow(id, was.catalogId, Coalesce(was.name, newName), Coalesce(was.payload, update));
      if row.name == was.name || Lookup(s, Schema, ChildKey(was.catalogId, row.name)).None? {
        MovesOne(s, Schema, id, row, ChildKey(was.catalogId, was.name), ChildKey(was.catalogId, row.name), Found(row));
      }
    }
  }

  lemma DropSchemaDrops(s: State, id: Id)
    requires Trusted(s)
    ensures var b := OnSchemas(DropSchema(id), s);
            if Get(s, Schema, id).None? then b == Refused(SchemaNotFound)
            else
              var was := Get(s, Schema, id).value;
              was.SchemaRow? && Drops(s, b, Schema, ChildKey(was.catalogId, was.name))
  {
    hide Trusted, GetByNaturalKey, Drops, KeyAt, ChildKey;
    if Get(s, Schema, id).Some? {
      SchemaHeld(s, id);
      var was := Get(s, Schema, id).value;
      DropsOne(s, Schema, id, ChildKey(was.catalogId, was.name));
    }
  }

  // ----- tables -----

  lemma TableHeld(s: State, id: Id)
    requires Trusted(s) && Get(s, Table, id).Some?
    ensures var row := Get(s, Table, id).value;
            && row.TableRow? && row.id == id && KeyAt(s, Tag(Table, id)) == Some(Tag(Table, ChildKey(row.schemaId, row.name)))
            && Lookup(s, Table, ChildKey(row.schemaId, row.name)) == Some(row)
  {
    hide Trusted, GetByNaturalKey, KeyAt, ChildKey;
    RowOwner(s, Table, id);
    HeldRow(s, Table, id);
  }

  /** A table is added exactly when its id is free. An id that is taken, which two creates at one
      staging location draw, moves the table that has it to the new name with the new row. */
  lemma CreateTableAdds(s: State, id: Id, schemaId: Id, name: string, payload: string)
    requires Trusted(s)
    ensures var b, key, row := OnTables(CreateTable(id, schemaId, name, payload), s), ChildKey(schemaId, name), TableRow(id, schemaId, name, payload);
            if Lookup(s, Table, key).Some? then b == Refused(TableAlreadyExists)
            else
              && (Adds(s, b, Table, key, row) <==> Get(s, Table, id).None?)
              && (Get(s, Table, id).Some? ==>
                    var was := Get(s, Table, id).value;
                    was.TableRow? && ChildKey(was.schemaId, was.name) != key && Moves(s, b, Table, ChildKey(was.schemaId, was.name), key, row, Found(row)))
  {
    hide Trusted, GetByNaturalKey, Moves, KeyAt, ChildKey;
    var key, row := ChildKey(schemaId, name), TableRow(id, schemaId, name, payload);
    if Lookup(s, Table, key).None? {
      if Get(s, Table, id).Some? {
        TableHeld(s, id);
        var was := Get(s, Table, id).value;
        MovesOne(s, Table, id, row, ChildKey(was.schemaId, was.name), key, Found(row));
        MovedIsNotAdded(s, Built([Upsert(Table, id, row)], Found(row)), ChildKey(was.schemaId, was.name), key, row);
      } else {
        AddsOne(s, Table, id, row, key);
      }
    }
  }

  /** The old name is gone, which adding would have left alone. */
  lemma MovedIsNotAdded(s: State, b: Built, was: string, key: string, row: Row)
    requires Lookup(s, Table, was).Some? && key != was && Moves(s, b, Table, was, key, row, Found(row))
    ensures !Adds(s, b, Table, key, row)
  {
    hide GetByNaturalKey, AfterAll;
  }

  /** Renaming a table that is not there succeeds and writes nothing. */
  lemma RenameTableMoves(s: State, id: Id, target: string)
    requires Trusted(s)
    ensures var b := OnTables(RenameTable(id, target), s);
            if Get(s, Table, id).None? then b == Built([], Unit)
            else
              var was := Get(s, Table, id).value;
              was.TableRow? &&
              if target != was.name && Lookup(s, Table, ChildKey(was.schemaId, target)).Some? then b == Refused(TableAlreadyExists)
              else Moves(s, b, Table, ChildKey(was.schemaId, was.name), ChildKey(was.schemaId, target),
                         TableRow(id, was.schemaId, target, was.payload), Unit)
  {
    hide Trusted, GetByNaturalKey, Moves, KeyAt, ChildKey;
    if Get(s, Table, id).Some? {
      TableHeld(s, id);
      var was := Get(s, Table, id).value;
      if target == was.name || Lookup(s, Table, ChildKey(was.schemaId, target)).None? {
        MovesOne(s, Table, id, TableRow(id, was.schemaId, target, was.payload),
                 ChildKey(was.schemaId, was.name), ChildKey(was.schemaId, target), Unit);
      }
    }
  }

  lemma PatchTableStays(s: State, id: Id, update: Option<string>)
    requires Trusted(s)
    ensures var b := OnTables(PatchTable(id, update), s);
            if Get(s, Table, id).None? then b == Built([], Unit)
            else
              var was := Get(s, Table, id).value;
              was.TableRow? &&
              Moves(s, b, Table, ChildKey(was.schemaId, was.name), ChildKey(was.schemaId, was.name),
                    TableRow(id, was.schemaId, was.name, Coalesce(was.payload, update)), Unit)
  {
    hide Trusted, GetByNaturalKey, Moves, KeyAt, ChildKey;
    if Get(s, Table, id).Some? {
      TableHeld(s, id);
      var was := Get(s, Table, id).value;
      MovesOne(s, Table, id, TableRow(id, was.schemaId, was.name, Coalesce(was.payload, update)),
               ChildKey(was.schemaId, was.name), ChildKey(was.schemaId, was.name), Unit);
    }
  }

  lemma DropTableDrops(s: State, id: Id)
    requires Trusted(s)
    ensures var b := OnTables(DropTable(id), s);
            if Get(s, Table, id).None? then b == Refused(TableNotFound)
            else
              var was := Get(s, Table, id).value;
              was.TableRow? && Drops(s, b, Table, ChildKey(was.schemaId, was.name))
  {
    hide Trusted, GetByNaturalKey, Drops, KeyAt, ChildKey;
    if Get(s, Table, id).Some? {
      TableHeld(s, id);
      var was := Get(s, Table, id).value;
      DropsOne(s, Table, id, ChildKey(was.schemaId, was.name));
    }
  }
}
