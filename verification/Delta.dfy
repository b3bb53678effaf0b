/** One log per table, where the version of a commit is its key. */
module Delta {
  import opened Wrappers
  import opened Order
  import opened Keys
  import opened Model
  import opened ContentHash
  import opened ObjectLog

  // ----- versions and their keys -----

  /** Every object of the table's partition is the commit of the version its key spells, of
      whatever sign: the commit endpoint takes the client's version unchecked. */
  ghost predicate Keyed(objects: Objects, table: Id) {
    forall k | k in objects && PartitionPrefix(table) <= k ::
      var v := DeltaVersionFromKey(k); v.Some? && k == DeltaKey(table, v.value)
  }

  /** And none of them is negative. */
  ghost predicate Partitioned(objects: Objects, table: Id) {
    Keyed(objects, table) && forall v: I64 | Committed(objects, table, v) :: v >= 0
  }

  predicate Committed(objects: Objects, table: Id, v: I64) {
    DeltaKey(table, v) in objects
  }

  function Versions(keys: seq<string>): seq<I64> {
    if keys == [] then []
    else
      var before := Versions(keys[..|keys| - 1]);
      var v := DeltaVersionFromKey(keys[|keys| - 1]);
      if v.Some? then before + [v.value] else before
  }

  lemma {:induction false} VersionsMembers(keys: seq<string>)
    ensures forall v :: v in Versions(keys) <==> exists k :: k in keys && DeltaVersionFromKey(k) == Some(v)
  {
    hide DeltaVersionFromKey;
    if keys != [] {
      VersionsMembers(keys[..|keys| - 1]);
      assert forall k :: k in keys <==> k in keys[..|keys| - 1] || k == keys[|keys| - 1];
    }
  }

  lemma UnderPartition(table: Id, v: I64)
    ensures PartitionPrefix(table) <= DeltaKey(table, v)
    ensures Matches(DeltaKey(table, v), PartitionPrefix(table), PartitionPrefix(table))
    ensures DeltaVersionFromKey(DeltaKey(table, v)) == Some(v)
  {
    hide Less, DeltaVersionFromKey, PaddedI64;
    DeltaKeyRoundTrip(table, v);
    var p, k := PartitionPrefix(table), DeltaKey(table, v);
    assert k == p + (PaddedI64(v) + COMMIT_SUFFIX);
    PrefixAtMost(p, k);
    assert |k| > |p|;
  }

  /** The order in which versions are listed: the negative ones first, and backwards. */
  predicate Before(v: I64, w: I64) {
    if v < 0 && w < 0 then w < v else v < w
  }

  lemma KeyOrder(table: Id, v: I64, w: I64)
    ensures Less(DeltaKey(table, v), DeltaKey(table, w)) <==> Before(v, w)
    ensures DeltaKey(table, v) == DeltaKey(table, w) <==> v == w
  {
    hide Less, DeltaKey;
    if v < w {
      DeltaKeysOrdered(table, v, w);
      if w < 0 { LessTotal(DeltaKey(table, v), DeltaKey(table, w)); }
    } else if w < v {
      DeltaKeysOrdered(table, w, v);
      if v < 0 { LessTotal(DeltaKey(table, w), DeltaKey(table, v)); } else { LessAsymmetric(DeltaKey(table, w), DeltaKey(table, v)); }
    } else {
      LessIrreflexive(DeltaKey(table, v));
    }
  }

  predicate Wanted(v: I64, starting: Option<I64>, ending: Option<I64>) {
    (starting.Some? ==> starting.value <= v) && (ending.Some? ==> v <= ending.value)
  }

  function StartKey(table: Id, starting: Option<I64>): string {
    match starting
    case Some(v) => if v <= 0 then PartitionPrefix(table) else DeltaKey(table, v - 1)
    case None => PartitionPrefix(table)
  }

  function StopKey(table: Id, ending: Option<I64>): Option<string> {
    match ending
    case Some(e) => Some(DeltaKey(table, e))
    case None => None
  }

  /** What the call for a range of versions returns of the committed ones. */
  predicate Listed(v: I64, starting: Option<I64>, ending: Option<I64>) {
    && (starting.Some? && starting.value > 0 ==> starting.value <= v)
    && (ending.Some? ==> if ending.value < 0 then v == ending.value else v <= ending.value)
  }

  /** Below a start that is not positive, or below a negative end: only negative versions. */
  predicate Skewed(v: I64, starting: Option<I64>, ending: Option<I64>) {
    || (starting.Some? && v < starting.value <= 0 && Listed(v, starting, ending))
    || (ending.Some? && v < ending.value < 0 && Wanted(v, starting, ending))
  }

  lemma ListedIsWanted(v: I64, starting: Option<I64>, ending: Option<I64>)
    ensures (Listed(v, starting, ending) <==> Wanted(v, starting, ending)) <==> !Skewed(v, starting, ending)
    ensures Skewed(v, starting, ending) ==> v < 0
  {
  }

  /** The key range asked for, and the filter after it, as a condition on the version. */
  lemma RangeIsListed(table: Id, v: I64, starting: Option<I64>, ending: Option<I64>)
    ensures (InRange(DeltaKey(table, v), PartitionPrefix(table), StartKey(table, starting), StopKey(table, ending))
             && (ending.Some? ==> v <= ending.value)) <==> Listed(v, starting, ending)
  {
    hide Less, DeltaVersionFromKey, DeltaKey, PartitionPrefix;
    UnderPartition(table, v);
    if starting.Some? && starting.value > 0 { KeyOrder(table, starting.value - 1, v); }
    if ending.Some? {
      KeyOrder(table, v, ending.value);
      if v == ending.value { LessIrreflexive(DeltaKey(table, v)); }
    }
  }

  // ----- sorting -----

  ghost predicate Increasing(q: seq<I64>) {
    forall i, j | 0 <= i < j < |q| :: q[i] < q[j]
  }

  function Insert(v: I64, q: seq<I64>): seq<I64> {
    if q == [] || v <= q[0] then [v] + q else [q[0]] + Insert(v, q[1..])
  }

  /** `sort_unstable`. */
  function Sorted(q: seq<I64>): seq<I64> {
    if q == [] then [] else Insert(q[0], Sorted(q[1..]))
  }

  ghost predicate NonDecreasing(q: seq<I64>) {
    forall i, j | 0 <= i < j < |q| :: q[i] <= q[j]
  }

  lemma {:induction false} InsertAbove(v: I64, q: seq<I64>, low: I64)
    requires low <= v && forall i | 0 <= i < |q| :: low <= q[i]
    ensures forall i | 0 <= i < |Insert(v, q)| :: low <= Insert(v, q)[i]
  {
    if q != [] { InsertAbove(v, q[1..], low); }
  }

  lemma {:induction false} InsertOrders(v: I64, q: seq<I64>)
    requires NonDecreasing(q)
    ensures NonDecreasing(Insert(v, q))
  {
    if q != [] && v > q[0] {
      InsertOrders(v, q[1..]);
      InsertAbove(v, q[1..], q[0]);
    }
  }

  lemma {:induction false} InsertAdds(v: I64, q: seq<I64>)
    ensures multiset(Insert(v, q)) == multiset(q) + multiset{v}
  {
    if q != [] {
      assert q == [q[0]] + q[1..];
      if v > q[0] { InsertAdds(v, q[1..]); }
    }
  }

  lemma {:induction false} SortedSorts(q: seq<I64>)
    ensures NonDecreasing(Sorted(q)) && multiset(Sorted(q)) == multiset(q)
  {
    if q != [] {
      assert q == [q[0]] + q[1..];
      SortedSorts(q[1..]);
      InsertOrders(q[0], Sorted(q[1..]));
      InsertAdds(q[0], Sorted(q[1..]));
    }
  }

  lemma SortedIncreases(q: seq<I64>)
    requires forall i, j | 0 <= i < j < |q| :: q[i] != q[j]
    ensures Increasing(Sorted(q)) && forall v :: v in Sorted(q) <==> v in q
  {
    hide Sorted;
    SortedSorts(q);
    var r := Sorted(q);
    forall v ensures v in r <==> v in q { assert v in multiset(r) <==> v in multiset(q); }
    forall i, j | 0 <= i < j < |r| ensures r[i] != r[j] {
      DistinctOnce(q, r[i]);
      if r[i] == r[j] { RepeatedCounts(r, i, j); }
    }
  }

  lemma RepeatedCounts(r: seq<I64>, i: nat, j: nat)
    requires i < j < |r| && r[i] == r[j]
    ensures multiset(r)[r[i]] >= 2
  {
    assert r == r[..j] + r[j..];
    assert r[..j][i] == r[i] && r[j..][0] == r[j];
    assert multiset(r) == multiset(r[..j]) + multiset(r[j..]);
  }

  lemma {:induction false} DistinctOnce(q: seq<I64>, v: I64)
    requires forall i, j | 0 <= i < j < |q| :: q[i] != q[j]
    ensures multiset(q)[v] <= 1
  {
    if q != [] {
      DistinctOnce(q[1..], v);
      assert q == [q[0]] + q[1..];
      if q[0] == v { assert v !in q[1..]; }
    }
  }

  // ----- what a listing of a partition holds -----

  ghost predicate Distinct(q: seq<I64>) {
    forall i, j | 0 <= i < j < |q| :: q[i] != q[j]
  }

  lemma PartitionKey(objects: Objects, table: Id, k: string)
    requires Keyed(objects, table) && k in objects && PartitionPrefix(table) <= k
    ensures var v := DeltaVersionFromKey(k); v.Some? && k == DeltaKey(table, v.value)
  {
    hide DeltaVersionFromKey, DeltaKey, PartitionPrefix;
  }

  lemma {:induction false} VersionsDistinct(table: Id, objects: Objects, keys: seq<string>)
    requires Keyed(objects, table) && Ascending(keys, Plain)
    requires forall k | k in keys :: k in objects && PartitionPrefix(table) <= k
    ensures |Versions(keys)| == |keys| && Distinct(Versions(keys))
    ensures forall i | 0 <= i < |keys| :: DeltaVersionFromKey(keys[i]) == Some(Versions(keys)[i])
  {
    hide Less, DeltaVersionFromKey, DeltaKey, PartitionPrefix, Keyed;
    if keys != [] {
      var n := |keys| - 1;
      PartitionKey(objects, table, keys[n]);
      assert keys[n] in keys && forall k | k in keys[..n] :: k in keys;
      VersionsDistinct(table, objects, keys[..n]);
      var all := Versions(keys);
      forall i | 0 <= i < n ensures all[i] != all[n] {
        PartitionKey(objects, table, keys[i]);
        assert Less(Plain(keys[i]), Plain(keys[n]));
        LessIrreflexive(keys[n]);
      }
    }
  }

  /** The versions listed for a key range: all there were, none there is not, each once. */
  ghost predicate Found(versions: seq<I64>, began: Objects, now: Objects, table: Id, after: string, stop: Option<string>) {
    && Distinct(versions)
    && (forall v | v in versions :: Committed(now, table, v) && InRange(DeltaKey(table, v), PartitionPrefix(table), after, stop))
    && (forall v: I64 | Committed(began, table, v) && InRange(DeltaKey(table, v), PartitionPrefix(table), after, stop) :: v in versions)
  }

  lemma ListedVersions(table: Id, began: Objects, now: Objects, keys: seq<string>, after: string, stop: Option<string>)
    requires Keyed(now, table) && Drained(keys, began, now, PartitionPrefix(table), after, stop)
    ensures Found(Versions(keys), began, now, table, after, stop)
  {
    hide Less, DeltaVersionFromKey, DeltaKey, PartitionPrefix, InRange;
    UnderListing(table, began, now, keys, after, stop);
    VersionsDistinct(table, now, keys);
    VersionsMembers(keys);
    forall v | v in Versions(keys)
      ensures Committed(now, table, v) && InRange(DeltaKey(table, v), PartitionPrefix(table), after, stop)
    {
      var i :| 0 <= i < |keys| && DeltaVersionFromKey(keys[i]) == Some(v);
      assert keys[i] in keys;
      PartitionKey(now, table, keys[i]);
    }
    forall v: I64 | Committed(began, table, v) && InRange(DeltaKey(table, v), PartitionPrefix(table), after, stop)
      ensures v in Versions(keys)
    {
      assert DeltaKey(table, v) in keys;
      UnderPartition(table, v);
    }
  }

  /** In ascending order, the committed versions that the call returns. */
  ghost predicate Lists(versions: seq<I64>, began: Objects, now: Objects, table: Id, starting: Option<I64>, ending: Option<I64>) {
    && Increasing(versions)
    && (forall v | v in versions :: Committed(now, table, v) && Listed(v, starting, ending))
    && (forall v: I64 | Committed(began, table, v) && Listed(v, starting, ending) :: v in versions)
  }

  lemma FoundIsListed(versions: seq<I64>, began: Objects, now: Objects, table: Id, starting: Option<I64>, ending: Option<I64>)
    requires Found(versions, began, now, table, StartKey(table, starting), StopKey(table, ending))
    ensures Lists(Sorted(KeptUpTo(versions, ending)), began, now, table, starting, ending)
  {
    hide Less, DeltaVersionFromKey, DeltaKey, PartitionPrefix, InRange, StartKey, StopKey, Listed, KeptUpTo, Sorted;
    forall v: I64
      ensures (InRange(DeltaKey(table, v), PartitionPrefix(table), StartKey(table, starting), StopKey(table, ending))
               && (ending.Some? ==> v <= ending.value)) <==> Listed(v, starting, ending)
    {
      RangeIsListed(table, v, starting, ending);
    }
    KeptMembers(versions, ending);
    SortedIncreases(KeptUpTo(versions, ending));
  }

  /** Exactly the committed versions wanted. */
  ghost predicate Exact(versions: seq<I64>, objects: Objects, table: Id, starting: Option<I64>, ending: Option<I64>) {
    Increasing(versions) && forall v: I64 :: v in versions <==> Committed(objects, table, v) && Wanted(v, starting, ending)
  }

  /** With nobody writing, the versions returned are those wanted if and only if none that is
      committed is negative and skewed by the range asked for. */
  lemma QuietIsExact(versions: seq<I64>, objects: Objects, table: Id, starting: Option<I64>, ending: Option<I64>)
    requires Lists(versions, objects, objects, table, starting, ending)
    ensures Exact(versions, objects, table, starting, ending) <==> forall v: I64 | Committed(objects, table, v) :: !Skewed(v, starting, ending)
    ensures Partitioned(objects, table) ==> Exact(versions, objects, table, starting, ending)
  {
    hide DeltaKey, Listed, Wanted, Skewed, Keyed;
    forall v: I64 ensures (Listed(v, starting, ending) <==> Wanted(v, starting, ending)) <==> !Skewed(v, starting, ending) {
      ListedIsWanted(v, starting, ending);
    }
    forall v: I64 ensures Skewed(v, starting, ending) ==> v < 0 { ListedIsWanted(v, starting, ending); }
  }

  lemma UnderListing(table: Id, began: Objects, now: Objects, keys: seq<string>, after: string, stop: Option<string>)
    requires Drained(keys, began, now, PartitionPrefix(table), after, stop)
    ensures Ascending(keys, Plain)
    ensures forall k | k in keys :: k in now && PartitionPrefix(table) <= k
  {
    hide Less;
  }

  // ----- the latest version -----

  /** What a listing that starts after the hint brings up. */
  predicate Beyond(hint: Option<I64>, v: I64) {
    hint.None? || Before(hint.value, v)
  }

  /** The highest of the versions beyond the hint, or else the hint. */
  ghost predicate Answers(latest: Option<I64>, hint: Option<I64>, began: Objects, now: Objects, table: Id) {
    && (hint.Some? ==> latest.Some?)
    && (latest.Some? ==> latest == hint || (Committed(now, table, latest.value) && Beyond(hint, latest.value)))
    && (forall v: I64 | Committed(began, table, v) && Beyond(hint, v) :: latest.Some? && Beyond(hint, latest.value) && v <= latest.value)
  }

  /** Between the true maxima of the two moments. */
  ghost predicate Between(latest: Option<I64>, began: Objects, now: Objects, table: Id) {
    && (latest.Some? ==> Committed(now, table, latest.value))
    && (forall v: I64 | Committed(began, table, v) :: latest.Some? && v <= latest.value)
  }

  ghost predicate IsLatest(latest: Option<I64>, objects: Objects, table: Id) {
    Between(latest, objects, objects, table)
  }

  ghost predicate HintCommitted(hint: Option<I64>, objects: Objects, table: Id) {
    hint.Some? ==> Committed(objects, table, hint.value)
  }

  ghost predicate SomeNatural(objects: Objects, table: Id) {
    exists v: I64 :: v >= 0 && Committed(objects, table, v)
  }

  lemma FoundAnswers(versions: seq<I64>, began: Objects, now: Objects, table: Id, hint: Option<I64>)
    requires Found(versions, began, now, table, HintKey(table, hint), None)
    ensures var beyond := Maximum(versions); Answers(if beyond.Some? then beyond else hint, hint, began, now, table)
  {
    hide Less, DeltaVersionFromKey, DeltaKey, PartitionPrefix, Maximum, Before;
    MaximumIs(versions);
    forall v: I64 ensures InRange(DeltaKey(table, v), PartitionPrefix(table), HintKey(table, hint), None) <==> Beyond(hint, v) {
      UnderPartition(table, v);
      if hint.Some? { KeyOrder(table, hint.value, v); }
    }
  }

  /** One version that is not negative, or no hint, and the answer is as high as the highest
      when the call began and committed when it ends. */
  lemma AnswerIsBetween(latest: Option<I64>, hint: Option<I64>, began: Objects, now: Objects, table: Id)
    requires Answers(latest, hint, began, now, table) && Extends(began, now) && HintCommitted(hint, began, table)
    requires hint.None? || SomeNatural(began, table)
    ensures Between(latest, began, now, table)
  {
    hide DeltaKey;
    if hint.Some? {
      var w: I64 :| w >= 0 && Committed(began, table, w);
      if hint.value < 0 { assert Beyond(hint, w); }
    }
  }

  /** With nobody writing, the answer is the highest committed version if and only if there is
      no hint, or some committed version is not negative, or the hint is the only one. */
  lemma QuietIsMaximum(latest: Option<I64>, hint: Option<I64>, objects: Objects, table: Id)
    requires Answers(latest, hint, objects, objects, table) && HintCommitted(hint, objects, table)
    ensures IsLatest(latest, objects, table) <==>
              hint.None? || SomeNatural(objects, table) || forall v: I64 | Committed(objects, table, v) :: v == hint.value
  {
    hide DeltaKey;
    ExtendsItself(objects);
    if hint.None? || SomeNatural(objects, table) {
      AnswerIsBetween(latest, hint, objects, objects, table);
    } else if IsLatest(latest, objects, table) {
      assert Committed(objects, table, hint.value) && latest == hint;
    }
  }

  /** The hint -1 and the versions -1 and -2, which list in that order. */
  lemma LowestAnswers(objects: Objects, table: Id, latest: Option<I64>)
    requires Committed(objects, table, -1) && Committed(objects, table, -2)
    requires forall v: I64 | Committed(objects, table, v) :: v == -1 || v == -2
    requires Answers(latest, Some(-1), objects, objects, table)
    ensures latest == Some(-2) && !IsLatest(latest, objects, table)
  {
    hide DeltaKey;
    assert Beyond(Some(-1), -2) && !Beyond(Some(-1), -1);
  }

  /** A table whose first commits are -1 and then -2, both by this replica, is said to be at -2. */
  lemma NegativeVersionsMislead(objects: Objects, table: Id, first: seq<Byte>, second: seq<Byte>, latest: Option<I64>)
    requires Keyed(objects, table) && forall v: I64 :: !Committed(objects, table, v)
    ensures var o1 := objects[DeltaKey(table, -1) := first];
            var o2 := o1[DeltaKey(table, -2) := second];
            var hints := Raised(Raised(map[], table, -1), table, -2);
            && !Committed(o1, table, -2) && Keyed(o2, table) && HintsOk(hints, o2)
            && (Answers(latest, HintFor(hints, table), o2, o2, table) ==> latest == Some(-2) && !IsLatest(latest, o2, table))
  {
    hide DeltaKey, Keyed, Answers;
    var o1 := objects[DeltaKey(table, -1) := first];
    var o2 := o1[DeltaKey(table, -2) := second];
    KeyOrder(table, -2, -1);
    AppendKeepsKeyed(objects, table, -1, first);
    AppendKeepsKeyed(o1, table, -2, second);
    assert !Committed(objects, table, -2);
    assert Committed(o2, table, -1) && Committed(o2, table, -2);
    forall v: I64 | Committed(o2, table, v) ensures v == -1 || v == -2 {
      KeyOrder(table, v, -1);
      KeyOrder(table, v, -2);
      assert !Committed(objects, table, v);
    }
    if Answers(latest, Some(-1), o2, o2, table) { LowestAnswers(o2, table, latest); }
  }

  lemma AppendKeepsKeyed(objects: Objects, table: Id, version: I64, body: seq<Byte>)
    requires Keyed(objects, table)
    ensures Keyed(objects[DeltaKey(table, version) := body], table)
  {
    hide DeltaKey, DeltaVersionFromKey, PartitionPrefix;
    UnderPartition(table, version);
  }

  /** Appending keeps a partition free of negative versions if and only if its own is not one. */
  lemma AppendKeepsPartitioned(objects: Objects, table: Id, version: I64, body: seq<Byte>)
    requires Partitioned(objects, table)
    ensures Partitioned(objects[DeltaKey(table, version) := body], table) <==> version >= 0
  {
    hide DeltaKey, Keyed;
    AppendKeepsKeyed(objects, table, version, body);
    var after := objects[DeltaKey(table, version) := body];
    assert Committed(after, table, version);
    forall v: I64 | Committed(after, table, v) ensures v == version || Committed(objects, table, v) { KeyOrder(table, v, version); }
  }

  function HintKey(table: Id, hint: Option<I64>): string {
    if hint.Some? then DeltaKey(table, hint.value) else PartitionPrefix(table)
  }

  function Max(a: I64, b: I64): I64 { if a < b then b else a }

  function Maximum(q: seq<I64>): Option<I64> {
    if q == [] then None
    else
      var before := Maximum(q[..|q| - 1]);
      if before.Some? then Some(Max(before.value, q[|q| - 1])) else Some(q[|q| - 1])
  }

  lemma {:induction false} MaximumIs(q: seq<I64>)
    ensures Maximum(q).None? <==> q == []
    ensures Maximum(q).Some? ==> Maximum(q).value in q && forall v | v in q :: v <= Maximum(q).value
  {
    if q != [] {
      MaximumIs(q[..|q| - 1]);
      assert q == q[..|q| - 1] + [q[|q| - 1]];
    }
  }

  lemma KeyedBefore(before: Objects, after: Objects, table: Id)
    requires Extends(before, after) && Keyed(after, table)
    ensures Keyed(before, table)
  {
    hide DeltaVersionFromKey, DeltaKey, PartitionPrefix;
  }

  // ----- the replica's view -----

  /** Every cached hint is a committed version. */
  ghost predicate HintsOk(hints: map<Id, I64>, objects: Objects) {
    forall t | t in hints && Keyed(objects, t) :: Committed(objects, t, hints[t])
  }

  lemma HintsStayOk(hints: map<Id, I64>, before: Objects, after: Objects)
    requires HintsOk(hints, before) && Extends(before, after)
    ensures HintsOk(hints, after)
  {
    hide Keyed, DeltaKey;
    forall t | t in hints && Keyed(after, t) ensures Committed(after, t, hints[t]) {
      KeyedBefore(before, after, t);
    }
  }

  function Raised(hints: map<Id, I64>, table: Id, version: I64): map<Id, I64> {
    hints[table := if table in hints then Max(hints[table], version) else version]
  }

  lemma RaisedOk(hints: map<Id, I64>, objects: Objects, table: Id, version: I64)
    requires HintsOk(hints, objects)
    requires Keyed(objects, table) ==> Committed(objects, table, version)
    ensures HintsOk(Raised(hints, table, version), objects)
  {
    hide Keyed, DeltaKey;
  }

  function HintFor(hints: map<Id, I64>, table: Id): Option<I64> {
    if table in hints then Some(hints[table]) else None
  }

  class DeltaLog {
    const log: MemoryLog
    /** The last version this replica knows of, per table. */
    var latestHint: map<Id, I64>

    constructor (log: MemoryLog)
      ensures Valid() && this.log == log && latestHint == map[]
    {
      this.log := log;
      latestHint := map[];
    }

    ghost predicate Valid()
      reads this, log
    {
      log.honest ==> HintsOk(latestHint, log.objects)
    }

    /** One conditional create, at the version the caller chose. */
    method Append(table: Id, version: I64, body: seq<Byte>) returns (created: bool)
      requires Valid()
      modifies this, log
      ensures Valid() && log.others == Remaining(old(log.others))
      ensures var seen := Seen(old(log.objects), old(log.others));
              && created == !Committed(seen, table, version)
              && log.objects == if created then seen[DeltaKey(table, version) := body] else seen
      ensures latestHint == if created then Raised(old(latestHint), table, version) else old(latestHint)
    {
      hide DeltaKey, HintsOk, Extends;
      ghost var before, schedule := log.objects, log.others;
      created := log.PutIfAbsent(DeltaKey(table, version), body);
      SeenExtends(before, schedule);
      if log.honest { HintsStayOk(latestHint, before, Seen(before, schedule)); }
      if created {
        PutExtends(Seen(before, schedule), DeltaKey(table, version), body);
        if log.honest {
          HintsStayOk(latestHint, Seen(before, schedule), log.objects);
          RaisedOk(latestHint, log.objects, table, version);
        }
        latestHint := latestHint[table := if table in latestHint then Max(latestHint[table], version) else version];
      }
    }

    /** Ascending, and of the committed versions just those that `Listed` says. */
    method ListVersions(table: Id, starting: Option<I64>, ending: Option<I64>) returns (out: Result<seq<I64>, string>)
      requires Valid()
      modifies log
      ensures Valid() && Later(old(log.objects), old(log.others), log.objects, log.others)
      ensures log.honest ==> out.Ok?
      ensures log.honest && Keyed(log.objects, table) ==> Lists(out.value, old(log.objects), log.objects, table, starting, ending)
    {
      hide DeltaKey, Later, Drained, Keyed, PartitionPrefix, StartKey, StopKey, Versions, Sorted, HintsOk, Extends, Found, Lists;
      ghost var began, schedule := log.objects, log.others;
      var listed := ListAllInRange(log, PartitionPrefix(table), StartKey(table, starting), StopKey(table, ending));
      LaterExtends(began, schedule, log.objects, log.others);
      if log.honest { HintsStayOk(latestHint, began, log.objects); }
      if listed.Err? { return Err(listed.error); }
      var versions := KeptUpTo(Versions(listed.value), ending);
      if log.honest && Keyed(log.objects, table) {
        ListedVersions(table, began, log.objects, listed.value, StartKey(table, starting), StopKey(table, ending));
        FoundIsListed(Versions(listed.value), began, log.objects, table, starting, ending);
      }
      out := Ok(Sorted(versions));
    }

    method Read(table: Id, version: I64) returns (body: Option<seq<Byte>>)
      requires Valid()
      modifies log
      ensures Valid() && log.others == Remaining(old(log.others)) && log.objects == Seen(old(log.objects), old(log.others))
      ensures body == if Committed(log.objects, table, version) then Some(log.objects[DeltaKey(table, version)]) else None
    {
      ghost var before, schedule := log.objects, log.others;
      body := log.Get(DeltaKey(table, version));
      SeenExtends(before, schedule);
      if log.honest { HintsStayOk(latestHint, before, log.objects); }
    }

    /** The highest version listed from the hint on, which is remembered. It is the highest
        committed one, up to what others write meanwhile, unless the versions are negative. */
    method LatestVersion(table: Id) returns (out: Result<Option<I64>, string>)
      requires Valid()
      modifies this, log
      ensures Valid() && Later(old(log.objects), old(log.others), log.objects, log.others)
      ensures log.honest ==> out.Ok?
      ensures log.honest && Keyed(log.objects, table) ==>
                var hint := HintFor(old(latestHint), table);
                && HintCommitted(hint, old(log.objects), table)
                && Answers(out.value, hint, old(log.objects), log.objects, table)
                && (hint.None? || SomeNatural(old(log.objects), table) ==> Between(out.value, old(log.objects), log.objects, table))
      ensures latestHint == if out.Ok? && out.value.Some? then Raised(old(latestHint), table, out.value.value) else old(latestHint)
    {
      hide DeltaKey, Later, Drained, Keyed, PartitionPrefix, Versions, Maximum, HintsOk, Extends, Found, Between, Answers, SomeNatural, HintCommitted;
      ghost var began, schedule := log.objects, log.others;
      var hint := if table in latestHint then Some(latestHint[table]) else None;
      var after := if hint.Some? then DeltaKey(table, hint.value) else PartitionPrefix(table);
      var listed := ListAllInRange(log, PartitionPrefix(table), after, None);
      LaterExtends(began, schedule, log.objects, log.others);
      if log.honest { HintsStayOk(latestHint, began, log.objects); }
      if listed.Err? { return Err(listed.error); }
      var beyond := Maximum(Versions(listed.value));
      var latest := if beyond.Some? then beyond else hint;
      if log.honest && Keyed(log.objects, table) {
        KeyedBefore(began, log.objects, table);
        HintIsCommitted(latestHint, began, table);
        ListedVersions(table, began, log.objects, listed.value, after, None);
        FoundAnswers(Versions(listed.value), began, log.objects, table, hint);
        AnswerIsCommitted(latest, hint, began, log.objects, table);
        if hint.None? || SomeNatural(began, table) { AnswerIsBetween(latest, hint, began, log.objects, table); }
      }
      if latest.Some? {
        if log.honest { RaisedOk(latestHint, log.objects, table, latest.value); }
        latestHint := latestHint[table := if table in latestHint then Max(latestHint[table], latest.value) else latest.value];
      }
      out := Ok(latest);
    }
  }

  lemma HintIsCommitted(hints: map<Id, I64>, objects: Objects, table: Id)
    requires HintsOk(hints, objects) && Keyed(objects, table)
    ensures HintCommitted(HintFor(hints, table), objects, table)
  {
  }

  lemma AnswerIsCommitted(latest: Option<I64>, hint: Option<I64>, began: Objects, now: Objects, table: Id)
    requires Answers(latest, hint, began, now, table) && HintCommitted(hint, began, table) && Extends(began, now)
    ensures latest.Some? ==> Committed(now, table, latest.value)
  {
    hide DeltaKey;
  }

  function KeptUpTo(q: seq<I64>, ending: Option<I64>): seq<I64> {
    if q == [] then []
    else
      var before := KeptUpTo(q[..|q| - 1], ending);
      if ending.None? || q[|q| - 1] <= ending.value then before + [q[|q| - 1]] else before
  }

  lemma {:induction false} KeptMembers(q: seq<I64>, ending: Option<I64>)
    ensures forall v :: v in KeptUpTo(q, ending) <==> v in q && (ending.Some? ==> v <= ending.value)
    ensures Distinct(q) ==> Distinct(KeptUpTo(q, ending))
  {
    if q != [] {
      var n := |q| - 1;
      KeptMembers(q[..n], ending);
      assert q == q[..n] + [q[n]];
      assert forall v :: v in q <==> v in q[..n] || v == q[n];
      if Distinct(q) {
        assert q[n] !in q[..n];
        assert q[n] !in KeptUpTo(q[..n], ending);
      }
    }
  }
}
