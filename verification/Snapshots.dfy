/** The materialised state: typed rows, and the natural-key index that has to stay their
    exact inverse. */
module Snapshots {
  import opened Wrappers
  import opened Order
  import opened Model

  /** `index` is the `BTreeMap<(EntityKind, String), Uuid>`, `rows` the per-kind row maps. */
  datatype State = State(rows: map<Tag, Row>, index: map<Tag, Id>)

  const EMPTY := State(map[], map[])

  // ----- one action -----

  function Forget(index: map<Tag, Id>, key: Option<Tag>): map<Tag, Id> {
    if key.Some? then index - {key.value} else index
  }

  function Record(index: map<Tag, Id>, key: Option<Tag>, id: Id): map<Tag, Id> {
    if key.Some? then index[key.value := id] else index
  }

  function KeyAt(s: State, ref: Tag): Option<Tag> {
    if ref in s.rows then KeyOf(s.rows[ref]) else None
  }

  /** What `Snapshot::apply` leaves behind when it accepts the action. */
  function After(s: State, a: Action): State {
    var index := Forget(s.index, KeyAt(s, a.Ref()));
    match a
    case Upsert(kind, id, row) => State(s.rows[a.Ref() := row], Record(index, KeyOf(row), id))
    case Remove(kind, id) => State(s.rows - {a.Ref()}, index)
  }

  function AfterAll(s: State, p: seq<Action>): State {
    if p == [] then s else After(AfterAll(s, p[..|p| - 1]), p[|p| - 1])
  }

  lemma AfterOne(s: State, a: Action)
    ensures AfterAll(s, [a]) == After(s, a)
  {
    assert [a][..0] == [];
  }

  lemma AfterPrefix(s: State, p: seq<Action>, i: nat)
    requires i < |p|
    ensures AfterAll(s, p[..i + 1]) == After(AfterAll(s, p[..i]), p[i])
  {
    assert p[..i + 1][..i] == p[..i];
  }

  lemma {:induction false} AfterAllConcat(s: State, p: seq<Action>, q: seq<Action>)
    ensures AfterAll(s, p + q) == AfterAll(AfterAll(s, p), q)
  {
    if q == [] {
      assert p + q == p;
    } else {
      AfterAllConcat(s, p, q[..|q| - 1]);
      assert (p + q)[..|p + q| - 1] == p + q[..|q| - 1];
    }
  }

  // ----- index coherence -----

  /** Every row is filed under its own kind and under an id. */
  predicate Typed(s: State) {
    forall r | r in s.rows :: s.rows[r].Kind() == r.kind && |r.text| == 36
  }

  /** No index entry dangles or keeps a name its row has given up. */
  predicate NoStale(s: State) {
    forall k | k in s.index :: KeyAt(s, Tag(k.kind, s.index[k])) == Some(k)
  }

  /** Every row of these kinds that has a natural key is found under it. */
  predicate Complete(s: State, ks: set<EntityKind>) {
    forall r | r in s.rows && r.kind in ks && KeyOf(s.rows[r]).Some? ::
      var k := KeyOf(s.rows[r]).value; k in s.index && s.index[k] == r.text
  }

  predicate Sound(s: State) {
    Typed(s) && NoStale(s)
  }

  /** On these kinds the index is exactly the inverse of the natural keys of the rows. */
  predicate Coherent(s: State, ks: set<EntityKind>) {
    Sound(s) && Complete(s, ks)
  }

  predicate UniqueKeys(rows: map<Tag, Row>, ks: set<EntityKind>) {
    forall q, r | q in rows && r in rows && q.kind in ks && KeyOf(rows[q]).Some? ::
      KeyOf(rows[q]) == KeyOf(rows[r]) ==> q == r
  }

  /** The check a careful writer makes: the key it is about to take is free or its own. */
  predicate Guard(s: State, a: Action, ks: set<EntityKind>) {
    a.Upsert? && a.kind in ks && KeyOf(a.row).Some? ==>
      var k := KeyOf(a.row).value; k in s.index ==> s.index[k] == a.id
  }

  /** Stale entries never arise, whatever is applied. */
  lemma ApplySound(s: State, a: Action)
    requires Sound(s) && a.Readable()
    ensures Sound(After(s, a))
  {
    var t := After(s, a);
    forall k | k in t.index ensures KeyAt(t, Tag(k.kind, t.index[k])) == Some(k) {
      if !(a.Upsert? && KeyOf(a.row) == Some(k)) {
        assert k in s.index && t.index[k] == s.index[k];
        assert KeyAt(s, Tag(k.kind, s.index[k])) == Some(k);
      }
    }
  }

  /** Missing entries arise exactly when an upsert takes a key that another row holds. */
  lemma ApplyKeepsCoherence(s: State, a: Action, ks: set<EntityKind>)
    requires Coherent(s, ks) && a.Readable()
    ensures Coherent(After(s, a), ks) <==> Guard(s, a, ks)
  {
    ApplySound(s, a);
    var t := After(s, a);
    if Guard(s, a, ks) {
      forall r | r in t.rows && r.kind in ks && KeyOf(t.rows[r]).Some?
        ensures var k := KeyOf(t.rows[r]).value; k in t.index && t.index[k] == r.text
      {
        if r != a.Ref() {
          var k := KeyOf(s.rows[r]).value;
          assert s.index[k] == r.text && k.kind == r.kind;
          assert KeyAt(s, a.Ref()) != Some(k);
        }
      }
    } else {
      var k := KeyOf(a.row).value;
      var owner := Tag(k.kind, s.index[k]);
      assert KeyAt(s, owner) == Some(k);
      assert owner in t.rows && KeyOf(t.rows[owner]) == Some(k) && t.index[k] == a.id;
    }
  }

  lemma CoherentHasUniqueKeys(s: State, ks: set<EntityKind>)
    requires Coherent(s, ks)
    ensures UniqueKeys(s.rows, ks)
  {
    forall q, r | q in s.rows && r in s.rows && q.kind in ks && KeyOf(s.rows[q]).Some? && KeyOf(s.rows[q]) == KeyOf(s.rows[r])
      ensures q == r
    {
      assert q.kind == KeyOf(s.rows[q]).value.kind == r.kind;
    }
  }

  /** A coherent index is a function of the rows. */
  lemma CoherentIndexDetermined(s: State, t: State, ks: set<EntityKind>)
    requires s.rows == t.rows && Coherent(s, ks) && Coherent(t, ks)
    ensures forall k: Tag | k.kind in ks :: k in s.index <==> k in t.index
    ensures forall k: Tag | k.kind in ks && k in s.index :: k in t.index && s.index[k] == t.index[k]
  {
    forall k: Tag | k.kind in ks && k in s.index ensures k in t.index && s.index[k] == t.index[k] {
      assert KeyAt(s, Tag(k.kind, s.index[k])) == Some(k);
    }
    forall k: Tag | k.kind in ks && k in t.index ensures k in s.index {
      assert KeyAt(t, Tag(k.kind, t.index[k])) == Some(k);
    }
  }

  /** Every action of the sequence is readable and passes the guard where it is applied. */
  predicate Guarded(s: State, p: seq<Action>, ks: set<EntityKind>) {
    forall i | 0 <= i < |p| :: p[i].Readable() && Guard(AfterAll(s, p[..i]), p[i], ks)
  }

  predicate AllReadable(p: seq<Action>) {
    forall a | a in p :: a.Readable()
  }

  predicate AcceptsAll(known: Known, p: seq<Action>) {
    forall a | a in p :: Accepts(known, a)
  }

  /** How many actions `apply` accepts before the first it refuses. */
  function Accepted(known: Known, p: seq<Action>): (n: nat)
    ensures n <= |p| && forall i | 0 <= i < n :: Accepts(known, p[i])
    ensures n < |p| ==> !Accepts(known, p[n])
  {
    if p == [] || !Accepts(known, p[0]) then 0 else 1 + Accepted(known, p[1..])
  }

  /** What `apply`, called action by action, leaves of a commit. */
  function ApplyUpTo(known: Known, s: State, p: seq<Action>): State {
    AfterAll(s, p[..Accepted(known, p)])
  }

  lemma AcceptedIs(known: Known, p: seq<Action>, n: nat)
    requires n < |p| && !Accepts(known, p[n]) && forall i | 0 <= i < n :: Accepts(known, p[i])
    ensures Accepted(known, p) == n && !AcceptsAll(known, p)
  {
    var m := Accepted(known, p);
    assert p[n] in p;
  }

  lemma AppliesAll(known: Known, s: State, p: seq<Action>)
    requires AcceptsAll(known, p)
    ensures ApplyUpTo(known, s, p) == AfterAll(s, p)
  {
    AllAccepted(known, p);
    assert p[..|p|] == p;
  }

  lemma AllAccepted(known: Known, p: seq<Action>)
    ensures Accepted(known, p) == |p| <==> AcceptsAll(known, p)
    ensures AcceptsAll(known, p) ==> AllReadable(p)
  {
    var n := Accepted(known, p);
    if n < |p| {
      assert p[n] in p;
    }
  }

  lemma {:induction false} AfterAllSound(s: State, p: seq<Action>)
    requires Sound(s) && AllReadable(p)
    ensures Sound(AfterAll(s, p))
  {
    if p != [] {
      AfterAllSound(s, p[..|p| - 1]);
      ApplySound(AfterAll(s, p[..|p| - 1]), p[|p| - 1]);
    }
  }

  lemma {:induction false} GuardedKeepsCoherence(s: State, p: seq<Action>, i: nat, ks: set<EntityKind>)
    requires Coherent(s, ks) && Guarded(s, p, ks) && i <= |p|
    ensures Coherent(AfterAll(s, p[..i]), ks)
  {
    if i > 0 {
      GuardedKeepsCoherence(s, p, i - 1, ks);
      ApplyKeepsCoherence(AfterAll(s, p[..i - 1]), p[i - 1], ks);
      AfterPrefix(s, p, i - 1);
    }
  }

  lemma GuardedResult(s: State, p: seq<Action>, ks: set<EntityKind>)
    requires Coherent(s, ks) && Guarded(s, p, ks)
    ensures Coherent(AfterAll(s, p), ks)
  {
    GuardedKeepsCoherence(s, p, |p|, ks);
    assert p[..|p|] == p;
  }

  lemma GuardedAt(s: State, p: seq<Action>, i: nat, ks: set<EntityKind>)
    requires Guarded(s, p, ks) && i < |p|
    ensures p[i].Readable() && Guard(AfterAll(s, p[..i]), p[i], ks)
  {
  }

  lemma GuardedConcatAt(s: State, p: seq<Action>, q: seq<Action>, i: nat, ks: set<EntityKind>)
    requires Guarded(s, p, ks) && Guarded(AfterAll(s, p), q, ks) && i < |p + q|
    ensures (p + q)[i].Readable() && Guard(AfterAll(s, (p + q)[..i]), (p + q)[i], ks)
  {
    hide Guard, AfterAll, Guarded;
    var all := p + q;
    if i < |p| {
      assert all[..i] == p[..i];
      GuardedAt(s, p, i, ks);
    } else {
      assert all[..i] == p + q[..i - |p|];
      AfterAllConcat(s, p, q[..i - |p|]);
      GuardedAt(AfterAll(s, p), q, i - |p|, ks);
    }
  }

  lemma GuardedConcat(s: State, p: seq<Action>, q: seq<Action>, ks: set<EntityKind>)
    requires Guarded(s, p, ks) && Guarded(AfterAll(s, p), q, ks)
    ensures Guarded(s, p + q, ks)
  {
    hide Guard, AfterAll;
    forall i | 0 <= i < |p + q| ensures (p + q)[i].Readable() && Guard(AfterAll(s, (p + q)[..i]), (p + q)[i], ks) {
      GuardedConcatAt(s, p, q, i, ks);
    }
  }

  /** Rows evolve without looking at the index. */
  lemma {:induction false} RowsIgnoreIndex(s: State, t: State, p: seq<Action>)
    requires s.rows == t.rows
    ensures AfterAll(s, p).rows == AfterAll(t, p).rows
  {
    if p != [] { RowsIgnoreIndex(s, t, p[..|p| - 1]); }
  }

  // ----- lookups -----

  function Get(s: State, kind: EntityKind, id: Id): Option<Row> {
    if Tag(kind, id) in s.rows then Some(s.rows[Tag(kind, id)]) else None
  }

  function IdByNaturalKey(s: State, kind: EntityKind, key: string): Option<Id> {
    if Tag(kind, key) in s.index then Some(s.index[Tag(kind, key)]) else None
  }

  function GetByNaturalKey(s: State, kind: EntityKind, key: string): Option<Row> {
    match IdByNaturalKey(s, kind, key)
    case None => None
    case Some(id) => Get(s, kind, id)
  }

  /** Looking a key up finds a row exactly when some live row carries the key, and then
      that row: no old name resolves, no live name is lost. */
  lemma LookupIsSearch(s: State, ks: set<EntityKind>, kind: EntityKind, key: string, ref: Tag)
    requires Coherent(s, ks) && kind in ks
    ensures GetByNaturalKey(s, kind, key).Some? <==>
            exists r :: r in s.rows && r.kind == kind && NaturalKey(s.rows[r]) == Some(key)
    ensures ref in s.rows && ref.kind == kind && NaturalKey(s.rows[ref]) == Some(key) ==>
              IdByNaturalKey(s, kind, key) == Some(ref.text) && GetByNaturalKey(s, kind, key) == Some(s.rows[ref])
  {
    hide NaturalKey;
  }

  // ----- the object the store updates -----

  class Snapshot {
    var entities: map<Tag, Row>
    var byNaturalKey: map<Tag, Id>
    /** What this build can decode. */
    const known: Known

    function Contents(): State reads this { State(entities, byNaturalKey) }

    constructor (known: Known)
      ensures Contents() == EMPTY && this.known == known
    {
      this.known := known;
      entities, byNaturalKey := map[], map[];
    }

    method Become(s: State)
      modifies this
      ensures Contents() == s
    {
      entities, byNaturalKey := s.rows, s.index;
    }

    /** Apply one action; refuse, changing nothing, a body that is not a row of the declared
        kind to this build. */
    method Apply(act: Action) returns (ok: bool)
      modifies this
      ensures ok == Accepts(known, act)
      ensures Contents() == if ok then After(old(Contents()), act) else old(Contents())
    {
      match act
      case Upsert(kind, id, row) =>
        if row.Kind() != kind || !known(row) { return false; }
        if act.Ref() in entities {
          var prev := entities[act.Ref()];
          var stale := NaturalKey(prev);
          if stale.Some? { byNaturalKey := byNaturalKey - {Tag(prev.Kind(), stale.value)}; }
        }
        var key := NaturalKey(row);
        if key.Some? { byNaturalKey := byNaturalKey[Tag(kind, key.value) := id]; }
        entities := entities[act.Ref() := row];
        ok := true;
      case Remove(kind, id) =>
        if act.Ref() in entities {
          var prev := entities[act.Ref()];
          entities := entities - {act.Ref()};
          var key := NaturalKey(prev);
          if key.Some? { byNaturalKey := byNaturalKey - {Tag(prev.Kind(), key.value)}; }
        }
        ok := true;
    }
  }
}
