/** Replaying a commit over a snapshot that already holds some of it.

    `catch_up` applies a commit action by action and stops at the first one it cannot read,
    leaving the snapshot at the old version with a prefix of the commit applied. The next
    `catch_up` applies the whole commit again on top. */
module Replay {
  import opened Wrappers
  import opened Model
  import opened Snapshots

  predicate Touches(p: seq<Action>, ref: Tag) {
    exists i :: 0 <= i < |p| && p[i].Ref() == ref
  }

  /** `m` is what any number of interrupted applications of `p`, starting at `s`, can leave:
      each row is as it was or as some action of `p` made it, and keys of rows that `p`
      leaves alone are still indexed. */
  ghost predicate Smeared(s: State, p: seq<Action>, m: State, ks: set<EntityKind>) {
    && Sound(m)
    && (forall r | !Touches(p, r) :: (r in m.rows <==> r in s.rows) && (r in s.rows ==> m.rows[r] == s.rows[r]))
    && (forall r | r in m.rows && Touches(p, r) ::
          (r in s.rows && m.rows[r] == s.rows[r]) || Upsert(r.kind, r.text, m.rows[r]) in p)
    && (forall r | r in s.rows && !Touches(p, r) && r.kind in ks && KeyOf(s.rows[r]).Some? ::
          var k := KeyOf(s.rows[r]).value; k in m.index && m.index[k] == r.text)
  }

  lemma PrefixUntouched(p: seq<Action>, i: nat, ref: Tag)
    requires i <= |p| && !Touches(p, ref)
    ensures !Touches(p[..i], ref)
  {
    assert forall j | 0 <= j < i :: p[..i][j] == p[j];
  }

  lemma CoherentIsSmeared(s: State, p: seq<Action>, m: State, ks: set<EntityKind>)
    requires m.rows == s.rows && Coherent(m, ks)
    ensures Smeared(s, p, m, ks)
  {
  }

  /** The row an action of a guarded sequence writes is there right after it. */
  lemma WrittenAt(s: State, p: seq<Action>, i: nat)
    requires i < |p|
    ensures p[i].Upsert? ==> p[i].Ref() in AfterAll(s, p[..i + 1]).rows && AfterAll(s, p[..i + 1]).rows[p[i].Ref()] == p[i].row
  {
    AfterPrefix(s, p, i);
  }

  lemma {:induction false} UntouchedKept(s: State, p: seq<Action>, ref: Tag)
    requires !Touches(p, ref)
    ensures ref in AfterAll(s, p).rows <==> ref in s.rows
    ensures ref in s.rows ==> AfterAll(s, p).rows[ref] == s.rows[ref]
  {
    if p != [] {
      assert p[|p| - 1].Ref() != ref;
      PrefixUntouched(p, |p| - 1, ref);
      UntouchedKept(s, p[..|p| - 1], ref);
    }
  }

  /** No action of a guarded sequence takes the key of a row the sequence leaves alone. */
  lemma UntouchedKeyStaysFree(s: State, p: seq<Action>, ref: Tag, i: nat, ks: set<EntityKind>)
    requires Coherent(s, ks) && Guarded(s, p, ks) && i < |p|
    requires ref in s.rows && !Touches(p, ref) && ref.kind in ks && KeyOf(s.rows[ref]).Some?
    ensures p[i].Upsert? ==> KeyOf(p[i].row) != KeyOf(s.rows[ref])
  {
    if p[i].Upsert? {
      PrefixUntouched(p, i + 1, ref);
      UntouchedKept(s, p[..i + 1], ref);
      WrittenAt(s, p, i);
      GuardedKeepsCoherence(s, p, i + 1, ks);
      CoherentHasUniqueKeys(AfterAll(s, p[..i + 1]), ks);
      assert p[i].Ref() != ref;
    }
  }

  lemma SmearedStepRows(s: State, p: seq<Action>, m: State, i: nat, ks: set<EntityKind>)
    requires Smeared(s, p, m, ks) && i < |p|
    ensures var t := After(m, p[i]);
            && (forall r | !Touches(p, r) :: (r in t.rows <==> r in s.rows) && (r in s.rows ==> t.rows[r] == s.rows[r]))
            && (forall r | r in t.rows && Touches(p, r) ::
                  (r in s.rows && t.rows[r] == s.rows[r]) || Upsert(r.kind, r.text, t.rows[r]) in p)
  {
    hide KeyOf, Sound;
    var a := p[i];
    assert Touches(p, a.Ref());
    assert a.Upsert? ==> a == Upsert(a.kind, a.id, a.row) && a in p;
  }

  /** Interrupted applications stay in the class, in whatever order actions are repeated. */
  lemma SmearedStep(s: State, p: seq<Action>, m: State, i: nat, ks: set<EntityKind>)
    requires Coherent(s, ks) && Guarded(s, p, ks) && Smeared(s, p, m, ks) && i < |p|
    ensures Smeared(s, p, After(m, p[i]), ks)
  {
    hide Coherent, Guarded, KeyOf, After, Sound, Touches;
    var t := After(m, p[i]);
    ApplySound(m, p[i]) by { GuardedIsReadable(s, p, i, ks); }
    SmearedStepRows(s, p, m, i, ks);
    forall r | r in s.rows && !Touches(p, r) && r.kind in ks && KeyOf(s.rows[r]).Some?
      ensures var k := KeyOf(s.rows[r]).value; k in t.index && t.index[k] == r.text
    {
      SmearedStepIndex(s, p, m, i, r, ks);
    }
  }

  lemma SmearedStepIndex(s: State, p: seq<Action>, m: State, i: nat, r: Tag, ks: set<EntityKind>)
    requires Coherent(s, ks) && Guarded(s, p, ks) && Smeared(s, p, m, ks) && i < |p|
    requires r in s.rows && !Touches(p, r) && r.kind in ks && KeyOf(s.rows[r]).Some?
    ensures var k := KeyOf(s.rows[r]).value; k in After(m, p[i]).index && After(m, p[i]).index[k] == r.text
  {
    hide Coherent, Guarded;
    UntouchedKeyStaysFree(s, p, r, i, ks);
    SmearedOwner(s, p, m, r, p[i].Ref(), ks);
  }

  lemma GuardedIsReadable(s: State, p: seq<Action>, i: nat, ks: set<EntityKind>)
    requires Guarded(s, p, ks) && i < |p|
    ensures p[i].Readable()
  {
  }

  /** A row the sequence leaves alone is the only one holding its key. */
  lemma SmearedOwner(s: State, p: seq<Action>, m: State, ref: Tag, other: Tag, ks: set<EntityKind>)
    requires Coherent(s, ks) && Guarded(s, p, ks) && Smeared(s, p, m, ks)
    requires ref in s.rows && !Touches(p, ref) && ref.kind in ks && KeyOf(s.rows[ref]).Some?
    requires other != ref
    ensures KeyAt(m, other) != KeyOf(s.rows[ref])
  {
    if KeyAt(m, other) == KeyOf(s.rows[ref]) {
      CoherentHasUniqueKeys(s, ks);
      var i :| 0 <= i < |p| && p[i] == Upsert(other.kind, other.text, m.rows[other]);
      UntouchedKeyStaysFree(s, p, ref, i, ks);
    }
  }

  lemma {:induction false} SmearedPrefix(s: State, p: seq<Action>, m: State, i: nat, ks: set<EntityKind>)
    requires Coherent(s, ks) && Guarded(s, p, ks) && Smeared(s, p, m, ks) && i <= |p|
    ensures Smeared(s, p, AfterAll(m, p[..i]), ks)
  {
    if i > 0 {
      SmearedPrefix(s, p, m, i - 1, ks);
      SmearedStep(s, p, AfterAll(m, p[..i - 1]), i - 1, ks);
      AfterPrefix(m, p, i - 1);
    }
  }

  // ----- a complete replay repairs whatever was left -----

  /** Part way through the replay, rows already rewritten agree with the first application. */
  lemma {:induction false} ReplayedRows(s: State, p: seq<Action>, m: State, i: nat, ref: Tag)
    requires i <= |p|
    requires forall r | !Touches(p, r) :: (r in m.rows <==> r in s.rows) && (r in s.rows ==> m.rows[r] == s.rows[r])
    ensures var x, y := AfterAll(s, p[..i]), AfterAll(m, p[..i]);
            if Touches(p[..i], ref) || !Touches(p, ref)
              then (ref in x.rows <==> ref in y.rows) && (ref in x.rows ==> x.rows[ref] == y.rows[ref])
              else (ref in m.rows <==> ref in y.rows) && (ref in m.rows ==> m.rows[ref] == y.rows[ref])
  {
    if i > 0 {
      ReplayedRows(s, p, m, i - 1, ref);
      AfterPrefix(s, p, i - 1);
      AfterPrefix(m, p, i - 1);
      TouchedSoFar(p, i, ref);
    }
  }

  lemma TouchedSoFar(p: seq<Action>, i: nat, ref: Tag)
    requires 0 < i <= |p|
    ensures Touches(p[..i], ref) <==> Touches(p[..i - 1], ref) || p[i - 1].Ref() == ref
    ensures Touches(p[..i], ref) ==> Touches(p, ref)
  {
    assert forall j | 0 <= j < i :: p[..i][j] == p[j];
    assert forall j | 0 <= j < i - 1 :: p[..i - 1][j] == p[j];
  }

  lemma ReplayRestoresRows(s: State, p: seq<Action>, m: State)
    requires forall r | !Touches(p, r) :: (r in m.rows <==> r in s.rows) && (r in s.rows ==> m.rows[r] == s.rows[r])
    ensures AfterAll(m, p).rows == AfterAll(s, p).rows
  {
    assert p[..|p|] == p;
    forall ref: Tag
      ensures ref in AfterAll(s, p).rows <==> ref in AfterAll(m, p).rows
      ensures ref in AfterAll(s, p).rows ==> AfterAll(s, p).rows[ref] == AfterAll(m, p).rows[ref]
    {
      ReplayedRows(s, p, m, |p|, ref);
    }
  }

  /** `ref` gets its last write before position `i`. */
  predicate Settled(p: seq<Action>, i: nat, ref: Tag) {
    forall j | i <= j < |p| :: p[j].Ref() != ref
  }

  lemma SettledHere(p: seq<Action>, i: nat, j: nat, ref: Tag)
    requires i <= j < |p| && Settled(p, i, ref)
    ensures p[j].Ref() != ref
  {
  }

  /** A settled row keeps its value, so nobody else may hold its key from then on. */
  lemma SettledKept(s: State, p: seq<Action>, i: nat, j: nat, ref: Tag)
    requires i <= j <= |p| && Settled(p, i, ref)
    ensures ref in AfterAll(s, p[..j]).rows <==> ref in AfterAll(s, p[..i]).rows
    ensures ref in AfterAll(s, p[..i]).rows ==> AfterAll(s, p[..j]).rows[ref] == AfterAll(s, p[..i]).rows[ref]
  {
    assert p[..j] == p[..i] + p[i..j];
    AfterAllConcat(s, p[..i], p[i..j]);
    forall k | 0 <= k < |p[i..j]| ensures p[i..j][k].Ref() != ref { assert p[i + k].Ref() != ref; }
    UntouchedKept(AfterAll(s, p[..i]), p[i..j], ref);
  }

  /** A later action cannot take the key of a settled row. */
  lemma SettledKeyStaysFree(s: State, p: seq<Action>, i: nat, j: nat, ref: Tag, ks: set<EntityKind>)
    requires Coherent(s, ks) && Guarded(s, p, ks) && i <= j < |p|
    requires ref in AfterAll(s, p[..i]).rows && Settled(p, i, ref) && ref.kind in ks
    requires KeyOf(AfterAll(s, p[..i]).rows[ref]).Some?
    ensures p[j].Upsert? ==> KeyOf(p[j].row) != KeyOf(AfterAll(s, p[..i]).rows[ref])
  {
    hide Coherent, Guarded, Settled, AfterAll;
    var after := AfterAll(s, p[..j + 1]);
    assert p[j].Ref() != ref by { SettledHere(p, i, j, ref); }
    SettledKept(s, p, i, j + 1, ref);
    WrittenAt(s, p, j);
    assert UniqueKeys(after.rows, ks) by {
      GuardedKeepsCoherence(s, p, j + 1, ks);
      CoherentHasUniqueKeys(after, ks);
    }
    assert ref in after.rows;
  }

  /** In the replay no other row holds the key of a row whose last write lies behind. */
  lemma SettledOwner(s: State, p: seq<Action>, m: State, i: nat, ref: Tag, other: Tag, ks: set<EntityKind>)
    requires Coherent(s, ks) && Guarded(s, p, ks) && Smeared(s, p, m, ks) && i <= |p|
    requires ref in AfterAll(s, p[..i]).rows && Settled(p, i, ref) && ref.kind in ks
    requires KeyOf(AfterAll(s, p[..i]).rows[ref]).Some? && other != ref
    ensures KeyAt(AfterAll(m, p[..i]), other) != KeyOf(AfterAll(s, p[..i]).rows[ref])
  {
    var x, y := AfterAll(s, p[..i]), AfterAll(m, p[..i]);
    var key := KeyOf(x.rows[ref]);
    GuardedKeepsCoherence(s, p, i, ks);
    CoherentHasUniqueKeys(x, ks);
    assert KeyAt(x, other) != key;
    ReplayedRows(s, p, m, i, other);
    if KeyAt(y, other) == key {
      assert !Touches(p[..i], other) && Touches(p, other);
      UntouchedKept(s, p[..i], other);
      LaterWrite(s, p, m, i, other, ks);
      var j :| i <= j < |p| && p[j] == Upsert(other.kind, other.text, m.rows[other]);
      SettledKeyStaysFree(s, p, i, j, ref, ks);
    }
  }

  /** A smeared row that `p[..i]` does not touch comes from before `p`, or from later in it. */
  lemma LaterWrite(s: State, p: seq<Action>, m: State, i: nat, other: Tag, ks: set<EntityKind>)
    requires Smeared(s, p, m, ks) && i <= |p|
    requires other in m.rows && Touches(p, other) && !Touches(p[..i], other)
    ensures (other in s.rows && m.rows[other] == s.rows[other])
            || exists j :: i <= j < |p| && p[j] == Upsert(other.kind, other.text, m.rows[other])
  {
    if !(other in s.rows && m.rows[other] == s.rows[other]) {
      var j :| 0 <= j < |p| && p[j] == Upsert(other.kind, other.text, m.rows[other]);
      assert forall k | 0 <= k < i :: p[..i][k] == p[k];
    }
  }

  lemma {:induction false} SettledIndexed(s: State, p: seq<Action>, m: State, i: nat, ref: Tag, ks: set<EntityKind>)
    requires Coherent(s, ks) && Guarded(s, p, ks) && Smeared(s, p, m, ks) && i <= |p|
    requires ref in AfterAll(s, p[..i]).rows && Settled(p, i, ref) && ref.kind in ks
    requires KeyOf(AfterAll(s, p[..i]).rows[ref]).Some?
    ensures var k := KeyOf(AfterAll(s, p[..i]).rows[ref]).value;
            k in AfterAll(m, p[..i]).index && AfterAll(m, p[..i]).index[k] == ref.text
  {
    hide Coherent, Guarded, Smeared, AfterAll;
    if i == 0 {
      SettledFromStart(s, p, m, ref, ks);
    } else {
      AfterPrefix(s, p, i - 1);
      AfterPrefix(m, p, i - 1);
      if p[i - 1].Ref() != ref {
        assert Settled(p, i - 1, ref);
        SettledIndexed(s, p, m, i - 1, ref, ks);
        SettledOwner(s, p, m, i - 1, ref, p[i - 1].Ref(), ks);
        JustWrittenDiffers(s, p, i - 1, ref, ks);
      }
    }
  }

  lemma SettledFromStart(s: State, p: seq<Action>, m: State, ref: Tag, ks: set<EntityKind>)
    requires Smeared(s, p, m, ks) && Settled(p, 0, ref)
    requires ref in AfterAll(s, p[..0]).rows && ref.kind in ks && KeyOf(AfterAll(s, p[..0]).rows[ref]).Some?
    ensures var k := KeyOf(AfterAll(s, p[..0]).rows[ref]).value;
            k in AfterAll(m, p[..0]).index && AfterAll(m, p[..0]).index[k] == ref.text
  {
  }

  /** The row just written does not carry the key of another live row. */
  lemma JustWrittenDiffers(s: State, p: seq<Action>, i: nat, ref: Tag, ks: set<EntityKind>)
    requires Coherent(s, ks) && Guarded(s, p, ks) && i < |p| && p[i].Ref() != ref
    requires ref in AfterAll(s, p[..i + 1]).rows && ref.kind in ks && KeyOf(AfterAll(s, p[..i + 1]).rows[ref]).Some?
    ensures p[i].Upsert? ==> KeyOf(p[i].row) != KeyOf(AfterAll(s, p[..i + 1]).rows[ref])
  {
    hide Coherent, Guarded, AfterAll;
    GuardedKeepsCoherence(s, p, i + 1, ks);
    CoherentHasUniqueKeys(AfterAll(s, p[..i + 1]), ks);
    WrittenAt(s, p, i);
  }

  /** However often and wherever applying `p` was interrupted, applying it once in full
      gives the rows of an undisturbed application and a coherent index over them. */
  lemma ReplayRepairs(s: State, p: seq<Action>, m: State, ks: set<EntityKind>)
    requires Coherent(s, ks) && Guarded(s, p, ks) && Smeared(s, p, m, ks)
    ensures AfterAll(m, p).rows == AfterAll(s, p).rows
    ensures Coherent(AfterAll(m, p), ks)
  {
    ReplayRestoresRows(s, p, m);
    assert p[..|p|] == p;
    SmearedPrefix(s, p, m, |p|, ks);
    forall r | r in AfterAll(m, p).rows && r.kind in ks && KeyOf(AfterAll(m, p).rows[r]).Some?
      ensures var k := KeyOf(AfterAll(m, p).rows[r]).value; k in AfterAll(m, p).index && AfterAll(m, p).index[k] == r.text
    {
      SettledIndexed(s, p, m, |p|, r, ks);
    }
  }

  /** Partial-replay idempotence: after any prefix of a commit, replaying the whole commit
      gives what applying it once to the old snapshot gives. */
  lemma PartialReplay(s: State, p: seq<Action>, i: nat, ks: set<EntityKind>)
    requires Coherent(s, ks) && Guarded(s, p, ks) && i <= |p|
    ensures var once, again := AfterAll(s, p), AfterAll(AfterAll(s, p[..i]), p);
            && again.rows == once.rows
            && (forall k: Tag | k.kind in ks :: (k in again.index <==> k in once.index)
                  && (k in once.index ==> again.index[k] == once.index[k]))
  {
    CoherentIsSmeared(s, p, s, ks);
    SmearedPrefix(s, p, s, i, ks);
    ReplayRepairs(s, p, AfterAll(s, p[..i]), ks);
    GuardedResult(s, p, ks);
    CoherentIndexDetermined(AfterAll(s, p), AfterAll(AfterAll(s, p[..i]), p), ks);
  }

  // ----- exactly when replaying a commit over its own result changes nothing -----

  predicate Writes(p: seq<Action>, i: nat, key: Tag)
    requires i < |p|
  {
    p[i].Upsert? && KeyOf(p[i].row) == Some(key)
  }

  predicate LastWrite(p: seq<Action>, i: nat, key: Tag) {
    i < |p| && Writes(p, i, key) && forall j | i < j < |p| :: !Writes(p, j, key)
  }

  /** In the run of `p` from `s`, action `j` rewrites or removes a row holding `key`. */
  predicate Releases(s: State, p: seq<Action>, j: nat, key: Tag)
    requires j < |p|
  {
    KeyAt(AfterAll(s, p[..j]), p[j].Ref()) == Some(key)
  }

  /** The row action `j` works on has not been touched by `p` before. */
  predicate FirstTouch(p: seq<Action>, j: nat)
    requires j < |p|
  {
    !Touches(p[..j], p[j].Ref())
  }

  lemma {:induction false} WrittenKeyFate(s: State, p: seq<Action>, i: nat, key: Tag)
    requires LastWrite(p, i, key)
    ensures key in AfterAll(s, p).index <==> forall j | i < j < |p| :: !Releases(s, p, j, key)
    ensures key in AfterAll(s, p).index ==> AfterAll(s, p).index[key] == p[i].id
  {
    var n := |p| - 1;
    if i < n {
      forall j | 0 <= j < n
        ensures Writes(p[..n], j, key) <==> Writes(p, j, key)
        ensures Releases(s, p[..n], j, key) <==> Releases(s, p, j, key)
      {
        assert p[..n][..j] == p[..j];
      }
      assert LastWrite(p[..n], i, key);
      WrittenKeyFate(s, p[..n], i, key);
      assert !Writes(p, n, key);
      assert Releases(s, p, n, key) <==> KeyAt(AfterAll(s, p[..n]), p[n].Ref()) == Some(key);
    }
  }

  lemma {:induction false} UnwrittenKeyFate(s: State, p: seq<Action>, key: Tag)
    requires forall i | 0 <= i < |p| :: !Writes(p, i, key)
    requires forall j | 0 <= j < |p| :: !Releases(s, p, j, key)
    ensures key in AfterAll(s, p).index <==> key in s.index
    ensures key in s.index ==> AfterAll(s, p).index[key] == s.index[key]
  {
    if p != [] {
      var n := |p| - 1;
      forall i | 0 <= i < n ensures !Writes(p[..n], i, key) && !Releases(s, p[..n], i, key) {
        assert !Writes(p, i, key) && !Releases(s, p, i, key);
        assert p[..n][..i] == p[..i];
      }
      UnwrittenKeyFate(s, p[..n], key);
      assert !Writes(p, n, key) && !Releases(s, p, n, key);
    }
  }

  /** A row `p` touches ends with what its last action on it writes. */
  lemma {:induction false} TouchedOutcome(s: State, p: seq<Action>, j: nat, ref: Tag) returns (i: nat)
    requires j < |p| && p[j].Ref() == ref
    ensures j <= i < |p| && p[i].Ref() == ref
    ensures ref in AfterAll(s, p).rows ==> p[i].Upsert? && AfterAll(s, p).rows[ref] == p[i].row
  {
    var n := |p| - 1;
    if p[n].Ref() == ref {
      i := n;
    } else {
      i := TouchedOutcome(s, p[..n], j, ref);
    }
  }

  /** Replaying `p` over its own result, no row is first touched while it holds a key whose
      last write has passed. */
  lemma NoOldHolderInReplay(s: State, p: seq<Action>, j: nat, key: Tag)
    requires j < |p| && FirstTouch(p, j)
    requires forall i | j <= i < |p| :: !Writes(p, i, key)
    ensures !Releases(AfterAll(s, p), p, j, key)
  {
    var t := AfterAll(s, p);
    UntouchedKept(t, p[..j], p[j].Ref());
    var i := TouchedOutcome(s, p, j, p[j].Ref());
    assert !Writes(p, i, key);
  }

  /** Once `p` has touched a row, both runs see the same row. */
  lemma LaterTouchAgrees(s: State, p: seq<Action>, j: nat, key: Tag)
    requires j < |p| && !FirstTouch(p, j)
    ensures Releases(s, p, j, key) <==> Releases(AfterAll(s, p), p, j, key)
  {
    forall r | !Touches(p, r)
      ensures r in AfterAll(s, p).rows <==> r in s.rows
      ensures r in s.rows ==> AfterAll(s, p).rows[r] == s.rows[r]
    {
      UntouchedKept(s, p, r);
    }
    ReplayedRows(s, p, AfterAll(s, p), j, p[j].Ref());
  }

  /** A key that `p` writes for the last time at `i` is taken out of the index afterwards
      only by a row that held it before `p` began. */
  predicate Overtaken(s: State, p: seq<Action>, i: nat, key: Tag) {
    && LastWrite(p, i, key)
    && (exists j :: i < j < |p| && FirstTouch(p, j) && KeyAt(s, p[j].Ref()) == Some(key))
    && (forall j | i < j < |p| && !FirstTouch(p, j) :: !Releases(s, p, j, key))
  }

  lemma FirstTouchSeesStart(s: State, p: seq<Action>, j: nat, key: Tag)
    requires j < |p| && FirstTouch(p, j)
    ensures Releases(s, p, j, key) <==> KeyAt(s, p[j].Ref()) == Some(key)
  {
    UntouchedKept(s, p[..j], p[j].Ref());
  }

  lemma ReplayedKey(s: State, p: seq<Action>, i: nat, key: Tag)
    requires LastWrite(p, i, key)
    ensures var once, again := AfterAll(s, p).index, AfterAll(AfterAll(s, p), p).index;
            && ((key in once <==> key in again) <==> !Overtaken(s, p, i, key))
            && (key in once && key in again ==> once[key] == again[key])
  {
    var t := AfterAll(s, p);
    WrittenKeyFate(s, p, i, key);
    WrittenKeyFate(t, p, i, key);
    forall j | i < j < |p|
      ensures FirstTouch(p, j) ==> !Releases(t, p, j, key) && (Releases(s, p, j, key) <==> KeyAt(s, p[j].Ref()) == Some(key))
      ensures !FirstTouch(p, j) ==> (Releases(s, p, j, key) <==> Releases(t, p, j, key))
    {
      if FirstTouch(p, j) {
        NoOldHolderInReplay(s, p, j, key);
        FirstTouchSeesStart(s, p, j, key);
      } else {
        LaterTouchAgrees(s, p, j, key);
      }
    }
  }

  lemma UnwrittenReplayedKey(s: State, p: seq<Action>, key: Tag)
    requires forall i | 0 <= i < |p| :: !Writes(p, i, key)
    ensures key in AfterAll(s, p).index <==> key in AfterAll(AfterAll(s, p), p).index
    ensures key in AfterAll(s, p).index ==> AfterAll(s, p).index[key] == AfterAll(AfterAll(s, p), p).index[key]
  {
    var t := AfterAll(s, p);
    forall j | 0 <= j < |p| ensures !Releases(t, p, j, key) {
      if FirstTouch(p, j) {
        NoOldHolderInReplay(s, p, j, key);
      } else {
        var k :| 0 <= k < j && p[..j][k].Ref() == p[j].Ref();
        var i := TouchedOutcome(t, p[..j], k, p[j].Ref());
        assert !Writes(p, i, key);
      }
    }
    UnwrittenKeyFate(t, p, key);
  }

  lemma {:induction false} LastWriteExists(p: seq<Action>, i: nat, key: Tag) returns (last: nat)
    requires i < |p| && Writes(p, i, key)
    ensures LastWrite(p, last, key)
    decreases |p| - i
  {
    if j :| i < j < |p| && Writes(p, j, key) {
      last := LastWriteExists(p, j, key);
    } else {
      last := i;
    }
  }

  /** Replaying a commit over its own result is a no-op exactly when no key it writes is
      overtaken, from any snapshot whatever. */
  lemma ReplayIsIdempotentIff(s: State, p: seq<Action>)
    ensures AfterAll(AfterAll(s, p), p) == AfterAll(s, p) <==> forall i, key :: !Overtaken(s, p, i, key)
  {
    var t := AfterAll(s, p);
    forall r | !Touches(p, r)
      ensures r in t.rows <==> r in s.rows
      ensures r in s.rows ==> t.rows[r] == s.rows[r]
    {
      UntouchedKept(s, p, r);
    }
    ReplayRestoresRows(s, p, t);
    forall i, key | Overtaken(s, p, i, key) ensures AfterAll(t, p) != t {
      ReplayedKey(s, p, i, key);
    }
    if forall i, key :: !Overtaken(s, p, i, key) {
      forall key: Tag
        ensures key in t.index <==> key in AfterAll(t, p).index
        ensures key in t.index ==> t.index[key] == AfterAll(t, p).index[key]
      {
        if i :| 0 <= i < |p| && Writes(p, i, key) {
          var last := LastWriteExists(p, i, key);
          ReplayedKey(s, p, last, key);
        } else {
          UnwrittenReplayedKey(s, p, key);
        }
      }
      assert t.index == AfterAll(t, p).index;
    }
  }

  /** Two actions suffice to break it: one row takes the name of a second before the second
      lets go. The first pass leaves the name unindexed, the replay indexes it. */
  lemma UnguardedReplayDiffers(u: Id, w: Id)
    requires u != w
    ensures var s := State(map[Tag(Catalog, u) := CatalogRow(u, "k", "")], map[Tag(Catalog, "k") := u]);
            var p := [Upsert(Catalog, w, CatalogRow(w, "k", "")), Upsert(Catalog, u, CatalogRow(u, "m", ""))];
            && Coherent(s, {Catalog})
            && Tag(Catalog, "k") !in AfterAll(s, p).index
            && Tag(Catalog, "k") in AfterAll(AfterAll(s, p), p).index
  {
    var s := State(map[Tag(Catalog, u) := CatalogRow(u, "k", "")], map[Tag(Catalog, "k") := u]);
    var p := [Upsert(Catalog, w, CatalogRow(w, "k", "")), Upsert(Catalog, u, CatalogRow(u, "m", ""))];
    assert p[..1] == [p[0]] && p[..0] == [];
    AfterPrefix(s, p, 0);
    AfterPrefix(s, p, 1);
    assert p[..2] == p;
    var t := AfterAll(s, p);
    AfterPrefix(t, p, 0);
    AfterPrefix(t, p, 1);
    assert "k" != "m";
  }
}
