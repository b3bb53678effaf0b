/** Many writers of one table's commits: appends race, and backfill marks are read-modify-write
    with no protection between the read and the write. */
module Latch {
  import opened Wrappers
  import opened Keys
  import opened Model
  import opened ContentHash
  import opened ObjectLog
  import opened DeltaCommits

  /** The table and version that name a commit object. */
  datatype Slot = Slot(table: Id, version: I64)

  function SlotOf(doc: DeltaCommit): Slot { Slot(doc.table, doc.version) }

  /** `claims` lists the successful appends; `held` is what each marker has read and edited
      and not yet written back. */
  datatype World = World(objects: map<Slot, DeltaCommit>, claims: seq<DeltaCommit>, held: map<nat, DeltaCommit>)

  const NOTHING := World(map[], [], map[])

  datatype Step =
    | Append(doc: DeltaCommit)
    | Fetch(marker: nat, slot: Slot)
    | WriteBack(marker: nat)

  predicate Enabled(w: World, step: Step) {
    match step
    case Append(_) => true
    case Fetch(_, _) => true
    case WriteBack(marker) => marker in w.held
  }

  /** A commit that does not exist is not marked, and a taken version is refused. */
  function Do(w: World, step: Step): World
    requires Enabled(w, step)
  {
    match step
    case Append(doc) =>
      if SlotOf(doc) in w.objects then w
      else w.(objects := w.objects[SlotOf(doc) := doc], claims := w.claims + [doc])
    case Fetch(marker, slot) =>
      if slot in w.objects then w.(held := w.held[marker := Latched(w.objects[slot])])
      else w.(held := w.held - {marker})
    case WriteBack(marker) =>
      var doc := w.held[marker];
      w.(objects := w.objects[SlotOf(doc) := doc], held := w.held - {marker})
  }

  /** `doc` is the claim, its flag perhaps raised. */
  predicate Grown(claim: DeltaCommit, doc: DeltaCommit) {
    && doc.table == claim.table && doc.version == claim.version && doc.rest == claim.rest
    && (claim.backfilled ==> doc.backfilled)
  }

  predicate OneClaimEach(claims: seq<DeltaCommit>) {
    forall i, j | 0 <= i < j < |claims| :: SlotOf(claims[i]) != SlotOf(claims[j])
  }

  predicate Inv(w: World) {
    && OneClaimEach(w.claims)
    && (forall i | 0 <= i < |w.claims| :: SlotOf(w.claims[i]) in w.objects && Grown(w.claims[i], w.objects[SlotOf(w.claims[i])]))
    && (forall k | k in w.objects :: SlotOf(w.objects[k]) == k && Claimed(w.claims, k))
    && (forall m | m in w.held :: SlotOf(w.held[m]) in w.objects && w.held[m] == Latched(w.objects[SlotOf(w.held[m])]))
  }

  /** Nothing is lost by a step: objects stay, and change only by a flag going up. */
  predicate Onward(w: World, w': World) {
    && w.claims <= w'.claims
    && forall k | k in w.objects :: k in w'.objects && Grown(w.objects[k], w'.objects[k])
  }

  predicate Claimed(claims: seq<DeltaCommit>, k: Slot) {
    exists i :: 0 <= i < |claims| && SlotOf(claims[i]) == k
  }

  lemma ClaimAdded(claims: seq<DeltaCommit>, doc: DeltaCommit)
    requires OneClaimEach(claims) && !Claimed(claims, SlotOf(doc))
    ensures OneClaimEach(claims + [doc])
    ensures forall k :: Claimed(claims + [doc], k) <==> Claimed(claims, k) || k == SlotOf(doc)
  {
    var all := claims + [doc];
    assert all[|claims|] == doc;
    forall k | Claimed(claims, k) ensures Claimed(all, k) {
      var i :| 0 <= i < |claims| && SlotOf(claims[i]) == k;
      assert all[i] == claims[i];
    }
  }

  lemma AppendKeeps(w: World, doc: DeltaCommit)
    requires Inv(w)
    ensures Inv(Do(w, Append(doc))) && Onward(w, Do(w, Append(doc)))
  {
    hide Claimed;
    if SlotOf(doc) !in w.objects {
      assert !Claimed(w.claims, SlotOf(doc)) by { NotClaimed(w, SlotOf(doc)); }
      ClaimAdded(w.claims, doc);
    }
  }

  lemma NotClaimed(w: World, k: Slot)
    requires Inv(w) && k !in w.objects
    ensures !Claimed(w.claims, k)
  {
  }

  lemma WriteBackKeeps(w: World, marker: nat)
    requires Inv(w) && marker in w.held
    ensures Inv(Do(w, WriteBack(marker))) && Onward(w, Do(w, WriteBack(marker)))
  {
    hide OneClaimEach, Claimed;
  }

  lemma FetchKeeps(w: World, marker: nat, slot: Slot)
    requires Inv(w)
    ensures Inv(Do(w, Fetch(marker, slot))) && Onward(w, Do(w, Fetch(marker, slot)))
  {
    hide OneClaimEach, Claimed;
  }

  lemma StepKeeps(w: World, step: Step)
    requires Inv(w) && Enabled(w, step)
    ensures Inv(Do(w, step)) && Onward(w, Do(w, step))
  {
    hide Inv, Onward, Do;
    match step
    case Append(doc) => AppendKeeps(w, doc);
    case Fetch(marker, slot) => FetchKeeps(w, marker, slot);
    case WriteBack(marker) => WriteBackKeeps(w, marker);
  }

  ghost predicate Run(ws: seq<World>, steps: seq<Step>) {
    && |ws| == |steps| + 1 && ws[0] == NOTHING
    && forall i | 0 <= i < |steps| :: Enabled(ws[i], steps[i]) && ws[i + 1] == Do(ws[i], steps[i])
  }

  lemma {:induction false} RunKeeps(ws: seq<World>, steps: seq<Step>, i: nat)
    requires Run(ws, steps) && i < |ws|
    ensures Inv(ws[i])
  {
    hide Enabled, Do, Inv;
    if i == 0 {
      NothingIsFine();
    } else {
      RunKeeps(ws, steps, i - 1);
      StepKeeps(ws[i - 1], steps[i - 1]);
    }
  }

  lemma NothingIsFine()
    ensures Inv(NOTHING)
  {
  }

  lemma {:induction false} RunIsOnward(ws: seq<World>, steps: seq<Step>, i: nat, j: nat)
    requires Run(ws, steps) && i <= j < |ws|
    ensures Onward(ws[i], ws[j])
    decreases j
  {
    hide Enabled, Do, Inv;
    if i < j {
      RunIsOnward(ws, steps, i, j - 1);
      RunKeeps(ws, steps, j - 1);
      StepKeeps(ws[j - 1], steps[j - 1]);
    }
  }

  /** After a write back the flag is set, and it stays so in every run. */
  lemma MarkedStays(ws: seq<World>, steps: seq<Step>, i: nat, j: nat, marker: nat)
    requires Run(ws, steps) && i < j < |ws| && steps[i] == WriteBack(marker) && marker in ws[i].held
    ensures var slot := SlotOf(ws[i].held[marker]);
            && slot in ws[i].objects && slot in ws[j].objects
            && ws[j].objects[slot].backfilled && ws[j].objects[slot].rest == ws[i].objects[slot].rest
  {
    hide Enabled, OneClaimEach, Claimed;
    RunKeeps(ws, steps, i);
    StepKeeps(ws[i], steps[i]);
    RunIsOnward(ws, steps, i + 1, j);
    RunIsOnward(ws, steps, i, j);
  }

  /** A marker that fetches a commit that is there will write back its document with the flag set. */
  lemma FetchHolds(w: World, marker: nat, slot: Slot)
    requires Inv(w) && slot in w.objects
    ensures var held := Do(w, Fetch(marker, slot)).held;
            && marker in held && SlotOf(held[marker]) == slot
            && held[marker] == DeltaCommit(w.objects[slot].table, w.objects[slot].version, w.objects[slot].rest, true)
  {
    hide OneClaimEach, Claimed;
  }

  /** Over any run each version of each table has one claimant; its commit keeps every field
      it was appended with but the flag, and the flag never goes back. */
  lemma ClaimsStand(ws: seq<World>, steps: seq<Step>, i: nat, j: nat, slot: Slot)
    requires Run(ws, steps) && i <= j < |ws| && slot in ws[i].objects
    ensures OneClaimEach(ws[j].claims)
    ensures slot in ws[j].objects && ws[j].objects[slot].rest == ws[i].objects[slot].rest
    ensures SlotOf(ws[j].objects[slot]) == slot
    ensures ws[i].objects[slot].backfilled ==> ws[j].objects[slot] == ws[i].objects[slot]
    ensures exists n :: 0 <= n < |ws[j].claims| && SlotOf(ws[j].claims[n]) == slot && Grown(ws[j].claims[n], ws[j].objects[slot])
  {
    hide Enabled, Do;
    RunKeeps(ws, steps, j);
    RunIsOnward(ws, steps, i, j);
    assert Claimed(ws[j].claims, slot);
  }

  // ----- the objects themselves -----

  lemma DeltaKeysApart(a: Slot, b: Slot)
    ensures DeltaKey(a.table, a.version) == DeltaKey(b.table, b.version) <==> a == b
  {
    hide DeltaVersionFromKey, PaddedI64;
    DeltaKeyRoundTrip(a.table, a.version);
    DeltaKeyRoundTrip(b.table, b.version);
    var k, l := DeltaKey(a.table, a.version), DeltaKey(b.table, b.version);
    assert k == PartitionPrefix(a.table) + (PaddedI64(a.version) + COMMIT_SUFFIX);
    assert l == PartitionPrefix(b.table) + (PaddedI64(b.version) + COMMIT_SUFFIX);
    var n := |PartitionPrefix(a.table)|;
    assert k[..n] == PartitionPrefix(a.table) && l[..n] == PartitionPrefix(b.table);
    assert PartitionPrefix(a.table)[n - 37..n - 1] == a.table && PartitionPrefix(b.table)[n - 37..n - 1] == b.table;
  }

  predicate HoldsAt(codec: DocCodec, objects: Objects, w: World, slot: Slot) {
    var k := DeltaKey(slot.table, slot.version);
    && (slot in w.objects <==> k in objects)
    && (slot in w.objects ==> k in objects && codec.parse(objects[k]) == Some(w.objects[slot]))
  }

  /** The commit objects hold the documents of the world. */
  ghost predicate Represents(codec: DocCodec, objects: Objects, w: World) {
    forall slot: Slot :: HoldsAt(codec, objects, w, slot)
  }

  lemma OneWritten(codec: DocCodec, objects: Objects, w: World, w': World, doc: DeltaCommit)
    requires codec.Valid() && Represents(codec, objects, w) && w'.objects == w.objects[SlotOf(doc) := doc]
    ensures Represents(codec, objects[DeltaKey(doc.table, doc.version) := codec.print_(doc)], w')
  {
    hide DeltaKey;
    var after := objects[DeltaKey(doc.table, doc.version) := codec.print_(doc)];
    forall slot: Slot ensures HoldsAt(codec, after, w', slot) {
      assert HoldsAt(codec, objects, w, slot);
      DeltaKeysApart(slot, SlotOf(doc));
    }
  }

  /** `DeltaLog.Append` of a document under its own version is the step append. */
  lemma AppendIsAStep(codec: DocCodec, objects: Objects, w: World, doc: DeltaCommit)
    requires codec.Valid() && Represents(codec, objects, w)
    ensures var k := DeltaKey(doc.table, doc.version); var w' := Do(w, Append(doc));
            && Represents(codec, if k in objects then objects else objects[k := codec.print_(doc)], w')
            && w'.claims == if k in objects then w.claims else w.claims + [doc]
  {
    hide DeltaKey, Represents;
    assert HoldsAt(codec, objects, w, SlotOf(doc)) by { RepresentedAt(codec, objects, w, SlotOf(doc)); }
    if SlotOf(doc) !in w.objects { OneWritten(codec, objects, w, Do(w, Append(doc)), doc); }
  }

  lemma RepresentedAt(codec: DocCodec, objects: Objects, w: World, slot: Slot)
    requires Represents(codec, objects, w)
    ensures HoldsAt(codec, objects, w, slot)
  {
  }

  /** `MarkBackfilled` is the steps fetch and write back: what it writes is what it fetched, the
      flag set, over whatever the object has become in between. */
  lemma MarkIsTwoSteps(codec: DocCodec, read: Objects, w: World, written: Objects, later: World, marker: nat, slot: Slot)
    requires codec.Valid() && Inv(w) && Represents(codec, read, w) && Represents(codec, written, later)
    requires DeltaKey(slot.table, slot.version) in read
    requires var fetched := Do(w, Fetch(marker, slot)); marker in fetched.held && marker in later.held && later.held[marker] == fetched.held[marker]
    ensures var k := DeltaKey(slot.table, slot.version);
            && codec.parse(read[k]).Some?
            && Represents(codec, written[k := codec.print_(Latched(codec.parse(read[k]).value))], Do(later, WriteBack(marker)))
  {
    hide DeltaKey, Represents, OneClaimEach, Claimed;
    RepresentedAt(codec, read, w, slot);
    var doc := Latched(w.objects[slot]);
    assert SlotOf(w.objects[slot]) == slot;
    OneWritten(codec, written, later, Do(later, WriteBack(marker)), doc);
  }
}
