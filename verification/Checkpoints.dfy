/** A checkpoint is the state and not its history: the rows as upserts in (kind, id) order,
    from which reading rebuilds the natural-key index. */
module Checkpoints {
  import opened Wrappers
  import opened Order
  import opened Model
  import opened Snapshots
  import opened Replay

  function Refs(rows: map<Tag, Row>): (refs: seq<Tag>)
    ensures forall r :: r in refs <==> r in rows
    ensures Ascending(refs, Text)
  {
    TextIsInjective();
    Sort(rows.Keys, Text)
  }

  ghost predicate Listing(rows: map<Tag, Row>, refs: seq<Tag>) {
    forall r | r in refs :: r in rows && |r.text| == 36
  }

  /** One upsert line per row listed. */
  function Lines(rows: map<Tag, Row>, refs: seq<Tag>): (p: seq<Action>)
    requires Listing(rows, refs)
    ensures |p| == |refs|
  {
    if refs == [] then []
    else
      var last := refs[|refs| - 1];
      Lines(rows, refs[..|refs| - 1]) + [Upsert(last.kind, last.text, rows[last])]
  }

  /** The lines `encode_checkpoint` writes. */
  function Dump(s: State): seq<Action>
    requires Typed(s)
  {
    Lines(s.rows, Refs(s.rows))
  }

  lemma {:induction false} LinesByRow(rows: map<Tag, Row>, refs: seq<Tag>, i: nat)
    requires Listing(rows, refs) && i < |refs|
    ensures Lines(rows, refs)[i] == Upsert(refs[i].kind, refs[i].text, rows[refs[i]])
  {
    var n := |refs| - 1;
    if i < n { LinesByRow(rows, refs[..n], i); }
  }

  /** A checkpoint is one upsert for every live row, each as it is, in the place the row has
      by (kind, id); and no other line. */
  lemma DumpIs(s: State, i: nat)
    requires Typed(s)
    ensures |Dump(s)| == |Refs(s.rows)|
    ensures i < |Dump(s)| ==>
              var r := Refs(s.rows)[i]; r in s.rows && |r.text| == 36 && Dump(s)[i] == Upsert(r.kind, r.text, s.rows[r])
  {
    hide Less, Text, Lines;
    if i < |Refs(s.rows)| { LinesByRow(s.rows, Refs(s.rows), i); }
  }

  /** `decode_checkpoint` applies the lines to an empty snapshot. */
  function Load(p: seq<Action>): State {
    AfterAll(EMPTY, p)
  }

  /** Hash maps hand out their keys in any order; sorting them first makes the lines a
      function of the rows alone. */
  lemma DumpIgnoresIterationOrder(s: State, refs: seq<Tag>)
    requires Typed(s) && Ascending(refs, Text) && forall r :: r in refs <==> r in s.rows
    ensures Lines(s.rows, refs) == Dump(s)
  {
    SortedUnique(refs, Refs(s.rows), Text);
  }

  lemma {:induction false} LinesReadable(rows: map<Tag, Row>, refs: seq<Tag>)
    requires Listing(rows, refs) && forall r | r in rows :: rows[r].Kind() == r.kind
    ensures AllReadable(Lines(rows, refs))
  {
    if refs != [] { LinesReadable(rows, refs[..|refs| - 1]); }
  }

  lemma {:induction false} LoadedRow(rows: map<Tag, Row>, refs: seq<Tag>, r: Tag)
    requires Listing(rows, refs)
    ensures var t := AfterAll(EMPTY, Lines(rows, refs));
            (r in t.rows <==> r in refs) && (r in t.rows ==> t.rows[r] == rows[r])
  {
    if refs != [] {
      var n := |refs| - 1;
      LoadedRow(rows, refs[..n], r);
      assert Lines(rows, refs)[..n] == Lines(rows, refs[..n]);
      assert refs == refs[..n] + [refs[n]];
    }
  }

  predicate Distinct(refs: seq<Tag>) {
    forall i, j | 0 <= i < j < |refs| :: refs[i] != refs[j]
  }

  lemma AscendingDistinct(refs: seq<Tag>)
    requires Ascending(refs, Text)
    ensures Distinct(refs)
  {
    forall i, j | 0 <= i < j < |refs| ensures refs[i] != refs[j] { LessIrreflexive(Text(refs[i])); }
  }

  lemma EmptySound()
    ensures Sound(EMPTY)
  {
  }

  lemma LoadRestoresRows(s: State)
    requires Typed(s)
    ensures Load(Dump(s)).rows == s.rows && Sound(Load(Dump(s)))
  {
    hide AfterAll, Lines, Sound, AllReadable, Text, Ascending;
    var refs := Refs(s.rows);
    forall r: Tag
      ensures r in AfterAll(EMPTY, Lines(s.rows, refs)).rows <==> r in s.rows
      ensures r in s.rows ==> AfterAll(EMPTY, Lines(s.rows, refs)).rows[r] == s.rows[r]
    {
      LoadedRow(s.rows, refs, r);
    }
    LinesReadable(s.rows, refs);
    EmptySound();
    AfterAllSound(EMPTY, Dump(s));
  }

  lemma LoadIndexesSoleOwner(s: State, r: Tag)
    requires Typed(s) && r in s.rows && KeyOf(s.rows[r]).Some?
    requires forall q | q in s.rows && q != r :: KeyOf(s.rows[q]) != KeyOf(s.rows[r])
    ensures var k := KeyOf(s.rows[r]).value; k in Load(Dump(s)).index && Load(Dump(s)).index[k] == r.text
  {
    hide Load, Dump, KeyOf, AtMost;
    var k := KeyOf(s.rows[r]).value;
    LoadedKey(s, k);
    assert Carries(s.rows, r, k);
  }

  /** Reading back what was written gives every row, and an index that is coherent on a set
      of kinds exactly when the rows of those kinds have unique keys. */
  lemma RebuiltIndex(s: State, ks: set<EntityKind>)
    requires Typed(s)
    ensures Load(Dump(s)).rows == s.rows
    ensures Coherent(Load(Dump(s)), ks) <==> UniqueKeys(s.rows, ks)
  {
    LoadRestoresRows(s);
    var t := Load(Dump(s));
    if Coherent(t, ks) {
      CoherentHasUniqueKeys(t, ks);
    }
    if UniqueKeys(s.rows, ks) {
      forall r | r in t.rows && r.kind in ks && KeyOf(t.rows[r]).Some?
        ensures var k := KeyOf(t.rows[r]).value; k in t.index && t.index[k] == r.text
      {
        LoadIndexesSoleOwner(s, r);
      }
    }
  }

  predicate Carries(rows: map<Tag, Row>, r: Tag, k: Tag) {
    r in rows && KeyOf(rows[r]) == Some(k)
  }

  /** Of the rows listed, `r` is the last that carries `k`. */
  predicate LastHolder(rows: map<Tag, Row>, refs: seq<Tag>, r: Tag, k: Tag) {
    r in refs && Carries(rows, r, k) && forall q | q in refs && Carries(rows, q, k) :: AtMost(Text(q), Text(r))
  }

  /** Reading a checkpoint files every key under the last row that carries it, unique or not. */
  lemma {:induction false} LoadedIndex(rows: map<Tag, Row>, refs: seq<Tag>, k: Tag)
    requires Listing(rows, refs) && Ascending(refs, Text) && forall r | r in rows :: rows[r].Kind() == r.kind
    ensures var t := AfterAll(EMPTY, Lines(rows, refs));
            && (k in t.index <==> exists r :: r in refs && Carries(rows, r, k))
            && (k in t.index ==> LastHolder(rows, refs, Tag(k.kind, t.index[k]), k))
  {
    hide Less, Text;
    if refs != [] {
      var n := |refs| - 1;
      var last := refs[n];
      assert refs == refs[..n] + [last];
      LoadedIndex(rows, refs[..n], k);
      LoadedRow(rows, refs[..n], last);
      AscendingDistinct(refs);
      assert Lines(rows, refs)[..n] == Lines(rows, refs[..n]);
      forall q | q in refs ensures AtMost(Text(q), Text(last)) {
        var i :| 0 <= i < |refs| && refs[i] == q;
      }
      assert Carries(rows, last, k) ==> last == Tag(k.kind, last.text);
    }
  }

  /** Every key carried by a row is indexed, and to the last row that carries it. */
  predicate IndexedToLast(s: State) {
    forall r | r in s.rows && KeyOf(s.rows[r]).Some? ::
      var k := KeyOf(s.rows[r]).value; k in s.index && AtMost(Text(r), Text(Tag(k.kind, s.index[k])))
  }

  lemma LoadedKey(s: State, k: Tag)
    requires Typed(s)
    ensures var t := Load(Dump(s));
            && (k in t.index <==> exists r :: Carries(s.rows, r, k))
            && (k in t.index ==> var last := Tag(k.kind, t.index[k]);
                  Carries(s.rows, last, k) && forall q | Carries(s.rows, q, k) :: AtMost(Text(q), Text(last)))
  {
    hide Less, Text, Lines, AfterAll, KeyOf, AtMost;
    LoadedIndex(s.rows, Refs(s.rows), k);
    forall r | Carries(s.rows, r, k) ensures r in Refs(s.rows) {}
  }

  lemma LastIsKept(s: State, k: Tag)
    requires Sound(s) && IndexedToLast(s)
    ensures var t := Load(Dump(s)); (k in s.index <==> k in t.index) && (k in s.index ==> s.index[k] == t.index[k])
  {
    hide Less, Text, Load, Dump, KeyOf, AtMost;
    LoadedKey(s, k);
    if k in s.index {
      assert KeyAt(s, Tag(k.kind, s.index[k])) == Some(k);
      assert Carries(s.rows, Tag(k.kind, s.index[k]), k);
      SameHolder(Tag(k.kind, s.index[k]), Tag(k.kind, Load(Dump(s)).index[k]));
    }
  }

  lemma KeptIsLast(s: State, r: Tag)
    requires Sound(s) && Load(Dump(s)) == s && r in s.rows && KeyOf(s.rows[r]).Some?
    ensures var k := KeyOf(s.rows[r]).value; k in s.index && AtMost(Text(r), Text(Tag(k.kind, s.index[k])))
  {
    hide Less, Text, Load, Dump, KeyOf, AtMost;
    LoadedKey(s, KeyOf(s.rows[r]).value);
    assert Carries(s.rows, r, KeyOf(s.rows[r]).value);
  }

  /** Writing a checkpoint and reading it back is the identity exactly when the index had
      every key at its last holder; the rows and a second checkpoint come out the same in any
      case. */
  lemma RoundTrip(s: State)
    requires Sound(s)
    ensures Load(Dump(s)) == s <==> IndexedToLast(s)
    ensures Load(Dump(s)).rows == s.rows && Dump(Load(Dump(s))) == Dump(s)
  {
    hide Less, Text, Lines, AfterAll, KeyOf, Load, NoStale;
    LoadRestoresRows(s);
    var t := Load(Dump(s));
    if IndexedToLast(s) {
      forall k ensures (k in s.index <==> k in t.index) && (k in s.index ==> s.index[k] == t.index[k]) { LastIsKept(s, k); }
      assert s.index == t.index;
    }
    if t == s {
      forall r | r in s.rows && KeyOf(s.rows[r]).Some?
        ensures var k := KeyOf(s.rows[r]).value; k in s.index && AtMost(Text(r), Text(Tag(k.kind, s.index[k])))
      {
        KeptIsLast(s, r);
      }
    }
  }

  lemma SameHolder(q: Tag, r: Tag)
    requires AtMost(Text(q), Text(r)) && AtMost(Text(r), Text(q))
    ensures q == r
  {
    TextIsInjective();
    if Text(q) != Text(r) { LessAsymmetric(Text(q), Text(r)); }
  }

  /** A checkpoint taken of a half-replayed snapshot is as good as that snapshot. */
  lemma ReloadedIsSmeared(s: State, p: seq<Action>, m: State, ks: set<EntityKind>)
    requires Coherent(s, ks) && Guarded(s, p, ks) && Smeared(s, p, m, ks)
    ensures Smeared(s, p, Load(Dump(m)), ks)
  {
    LoadRestoresRows(m);
    forall r | r in s.rows && !Touches(p, r) && r.kind in ks && KeyOf(s.rows[r]).Some?
      ensures var k := KeyOf(s.rows[r]).value; k in Load(Dump(m)).index && Load(Dump(m)).index[k] == r.text
    {
      assert r in m.rows && m.rows[r] == s.rows[r];
      forall q | q in m.rows && q != r ensures KeyOf(m.rows[q]) != KeyOf(m.rows[r]) {
        SmearedOwner(s, p, m, r, q, ks);
      }
      LoadIndexesSoleOwner(m, r);
    }
  }
}
