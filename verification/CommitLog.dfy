/** Reading the commits after a version: no hole, whatever lands meanwhile. */
module CommitLog {
  import opened Wrappers
  import opened Order
  import opened Keys
  import opened Model
  import opened Snapshots
  import opened Framing
  import opened ObjectLog

  datatype Commit = Commit(version: U64, info: CommitInfo, actions: seq<Action>)

  predicate IsAfter(key: string, from: U64) {
    VersionFromKey(key).Some? && VersionFromKey(key).value > from
  }

  /** The listed keys that are commits beyond `from`. */
  function Picked(keys: seq<string>, from: U64): seq<string> {
    if keys == [] then []
    else
      var last := keys[|keys| - 1];
      Picked(keys[..|keys| - 1], from) + if IsAfter(last, from) then [last] else []
  }

  lemma {:induction false} PickedMembers(keys: seq<string>, from: U64)
    ensures forall k :: k in Picked(keys, from) <==> k in keys && IsAfter(k, from)
  {
    if keys != [] {
      PickedMembers(keys[..|keys| - 1], from);
      assert keys == keys[..|keys| - 1] + [keys[|keys| - 1]];
    }
  }

  lemma {:induction false} PickedAscends(keys: seq<string>, from: U64)
    requires Ascending(keys, Plain)
    ensures Ascending(Picked(keys, from), Plain)
  {
    hide Less, IsAfter;
    if keys != [] {
      var n := |keys| - 1;
      PickedAscends(keys[..n], from);
      PickedMembers(keys[..n], from);
      var before := Picked(keys[..n], from);
      forall i | 0 <= i < |before| ensures Less(before[i], keys[n]) {
        assert before[i] in before;
        var j :| 0 <= j < n && keys[..n][j] == before[i];
        assert Less(Plain(keys[j]), Plain(keys[n]));
      }
    }
  }

  /** `c` is the commit that the object under `key` holds. */
  predicate Holds(codec: Codec, objects: Objects, key: string, c: Commit) {
    && key in objects && VersionFromKey(key) == Some(c.version)
    && CommitOf(codec, objects[key]) == Some((c.info, c.actions))
  }

  predicate AllHold(codec: Codec, objects: Objects, keys: seq<string>, out: seq<Commit>) {
    |out| == |keys| && forall i | 0 <= i < |out| :: Holds(codec, objects, keys[i], out[i])
  }

  lemma AllHoldExtends(codec: Codec, before: Objects, after: Objects, keys: seq<string>, out: seq<Commit>)
    requires AllHold(codec, before, keys, out) && Extends(before, after)
    ensures AllHold(codec, after, keys, out)
  {
    hide CommitOf, VersionFromKey;
  }

  ghost predicate Gapless(out: seq<Commit>, from: U64) {
    forall i | 0 <= i < |out| :: out[i].version == from + 1 + i
  }

  /** Every commit object there was is in the result: none lies beyond its end. */
  ghost predicate Covers(began: Objects, from: U64, n: nat) {
    forall k | k in began && Matches(k, LOG_PREFIX, CommitKey(from)) && IsAfter(k, from) :: VersionFromKey(k).value <= from + n
  }

  /** Beyond `from` there is a commit that cannot be read, or is not under its proper key, or
      one whose predecessor was not there at the start. */
  ghost predicate Unreadable(codec: Codec, began: Objects, now: Objects, from: U64) {
    exists key, v: U64 :: IsFault(codec, began, now, from, key, v)
  }

  predicate IsFault(codec: Codec, began: Objects, now: Objects, from: U64, key: string, v: U64) {
    && key in now && VersionFromKey(key) == Some(v) && v > from
    && (CommitOf(codec, now[key]).None? || key != CommitKey(v) || (v > from + 1 && CommitKey(v - 1) !in began))
  }

  lemma DenseIsReadable(codec: Codec, objects: Objects, from: U64)
    requires Canonical(objects) && Dense(codec, objects, from)
    ensures !Unreadable(codec, objects, objects, from)
  {
    hide CommitOf, VersionFromKey, CommitKey;
  }

  /** Objects whose key reads as a version are commits under their proper key. */
  ghost predicate Canonical(objects: Objects) {
    forall k | k in objects && VersionFromKey(k).Some? :: k == CommitKey(VersionFromKey(k).value)
  }

  /** Beyond `from` each commit has its predecessor, and each can be read. */
  ghost predicate Dense(codec: Codec, objects: Objects, from: U64) {
    forall v: U64 | v > from && CommitKey(v) in objects ::
      CommitOf(codec, objects[CommitKey(v)]).Some? && (v > from + 1 ==> CommitKey(v - 1) in objects)
  }

  method ReadCommitsAfter(log: MemoryLog, codec: Codec, from: U64) returns (out: Result<seq<Commit>, string>)
    modifies log
    ensures Later(old(log.objects), old(log.others), log.objects, log.others)
    ensures out.Ok? ==> Gapless(out.value, from) && exists keys :: AllHold(codec, log.objects, keys, out.value)
    ensures out.Ok? && log.honest ==> Covers(old(log.objects), from, |out.value|)
    ensures out.Err? && log.honest ==> Unreadable(codec, old(log.objects), log.objects, from)
    ensures log.honest && old(log.others) == [] && Canonical(old(log.objects)) && Dense(codec, old(log.objects), from) ==> out.Ok?
  {
    hide CommitOf, VersionFromKey, CommitKey, Less, Drained, Later, AllHold, Picked, Extends, Canonical, Dense, Covers, Unreadable;
    if log.honest && log.others == [] && Canonical(log.objects) && Dense(codec, log.objects, from) {
      DenseIsReadable(codec, log.objects, from);
    }
    ghost var began, schedule := log.objects, log.others;
    var listed := ListAllInRange(log, LOG_PREFIX, CommitKey(from), None);
    if listed.Err? { return Err(listed.error); }
    var keys := listed.value;
    ghost var now := log.objects;
    if log.honest { PickedListing(codec, began, now, keys, from); }
    LaterExtends(began, schedule, now, log.others);
    if schedule == [] { LaterQuiet(began, now, log.others); }
    ExtendsItself(now);
    var commits: seq<Commit> := [];
    NothingHeld(codec, log.objects, from);
    for i := 0 to |keys|
      invariant Later(began, schedule, log.objects, log.others) && Extends(now, log.objects)
      invariant schedule == [] ==> log.objects == began == now && log.others == []
      invariant AllHold(codec, log.objects, Picked(keys[..i], from), commits)
    {
      PickedNext(keys, i, from);
      var version := VersionFromKey(keys[i]);
      if version.Some? && version.value > from {
        ghost var seen, left := log.objects, log.others;
        var bytes := log.Get(keys[i]);
        LaterNext(began, schedule, seen, left);
        SeenExtends(seen, left);
        ExtendsTransitive(now, seen, log.objects);
        AllHoldExtends(codec, seen, log.objects, Picked(keys[..i], from), commits);
        if log.honest { ListedIsThere(now, log.objects, keys, i); }
        if bytes.None? { return Err("log hole"); }
        var decoded := DecodeCommit(codec, bytes.value);
        if decoded.None? {
          FaultAt(codec, began, log.objects, from, keys[i], version.value);
          return Err("malformed commit");
        }
        AllHoldNext(codec, log.objects, Picked(keys[..i], from), commits, keys[i],
                    Commit(version.value, decoded.value.0, decoded.value.1));
        commits := commits + [Commit(version.value, decoded.value.0, decoded.value.1)];
      }
    }
    assert keys[..|keys|] == keys;
    for i := 0 to |commits|
      invariant Gapless(commits[..i], from)
    {
      if commits[i].version != from + 1 + i {
        if log.honest && !Unreadable(codec, began, log.objects, from) {
          ReadableIsGapless(codec, began, log.objects, keys, from, commits);
        }
        return Err("log gap");
      }
    }
    assert commits[..|commits|] == commits;
    if log.honest { CoversAll(codec, began, log.objects, keys, from, commits); }
    out := Ok(commits);
  }

  lemma NothingHeld(codec: Codec, objects: Objects, from: U64)
    ensures AllHold(codec, objects, Picked([], from), [])
  {
  }

  lemma PickedNext(keys: seq<string>, i: nat, from: U64)
    requires i < |keys|
    ensures Picked(keys[..i + 1], from) == if IsAfter(keys[i], from) then Picked(keys[..i], from) + [keys[i]] else Picked(keys[..i], from)
  {
    assert keys[..i + 1][..i] == keys[..i];
  }

  lemma AllHoldNext(codec: Codec, objects: Objects, keys: seq<string>, out: seq<Commit>, key: string, c: Commit)
    requires AllHold(codec, objects, keys, out) && Holds(codec, objects, key, c)
    ensures AllHold(codec, objects, keys + [key], out + [c])
  {
    hide CommitOf, VersionFromKey;
  }

  lemma PickedListing(codec: Codec, began: Objects, now: Objects, keys: seq<string>, from: U64)
    requires Drained(keys, began, now, LOG_PREFIX, CommitKey(from), None)
    ensures Ascending(Picked(keys, from), Plain)
    ensures forall k | k in began && Matches(k, LOG_PREFIX, CommitKey(from)) && IsAfter(k, from) :: k in Picked(keys, from)
    ensures forall k | k in keys :: k in now
  {
    hide Less, Matches, VersionFromKey, CommitKey;
    PickedAscends(keys, from);
    PickedMembers(keys, from);
  }

  lemma ListedIsThere(now: Objects, later: Objects, keys: seq<string>, i: nat)
    requires i < |keys| && (forall k | k in keys :: k in now) && Extends(now, later)
    ensures keys[i] in later
  {
  }

  lemma FaultAt(codec: Codec, began: Objects, now: Objects, from: U64, key: string, v: U64)
    requires key in now && VersionFromKey(key) == Some(v) && v > from && CommitOf(codec, now[key]).None?
    ensures Unreadable(codec, began, now, from)
  {
    hide CommitOf, VersionFromKey, CommitKey;
    assert IsFault(codec, began, now, from, key, v);
  }

  lemma HeldVersions(codec: Codec, objects: Objects, keys: seq<string>, out: seq<Commit>, i: nat)
    requires AllHold(codec, objects, keys, out) && i < |out|
    ensures i < |keys| && keys[i] in objects && VersionFromKey(keys[i]) == Some(out[i].version)
  {
  }

  lemma CoversAll(codec: Codec, began: Objects, now: Objects, keys: seq<string>, from: U64, out: seq<Commit>)
    requires AllHold(codec, now, Picked(keys, from), out) && Gapless(out, from)
    requires forall k | k in began && Matches(k, LOG_PREFIX, CommitKey(from)) && IsAfter(k, from) :: k in Picked(keys, from)
    ensures Covers(began, from, |out|)
  {
    hide CommitOf, VersionFromKey, CommitKey, Picked, Matches, AllHold;
    var picked := Picked(keys, from);
    forall k | k in began && Matches(k, LOG_PREFIX, CommitKey(from)) && IsAfter(k, from) ensures VersionFromKey(k).value <= from + |out| {
      var i :| 0 <= i < |picked| && picked[i] == k;
      assert |out| == |picked| by { SameLength(codec, now, picked, out); }
      HeldVersions(codec, now, picked, out, i);
    }
  }

  lemma SameLength(codec: Codec, objects: Objects, keys: seq<string>, out: seq<Commit>)
    requires AllHold(codec, objects, keys, out)
    ensures |out| == |keys|
  {
  }

  /** Ascending numbers, each one more than the start or than another of them, count up. */
  lemma {:induction false} CountsUp(q: seq<nat>, from: nat, i: nat)
    requires forall a, b | 0 <= a < b < |q| :: q[a] < q[b]
    requires forall x | x in q :: x > from && (x > from + 1 ==> x - 1 in q)
    requires i < |q|
    ensures q[i] == from + 1 + i
  {
    assert q[i] in q;
    if i > 0 { CountsUp(q, from, i - 1); }
    if q[i] > from + 1 {
      assert q[i] - 1 in q;
      var j :| 0 <= j < |q| && q[j] == q[i] - 1;
    }
  }

  lemma KeyOrder(a: string, b: string)
    requires VersionFromKey(a).Some? && VersionFromKey(b).Some?
    requires a == CommitKey(VersionFromKey(a).value) && b == CommitKey(VersionFromKey(b).value)
    ensures Less(a, b) <==> VersionFromKey(a).value < VersionFromKey(b).value
  {
    hide Less, CommitKey;
    CommitKeysOrdered(VersionFromKey(a).value, VersionFromKey(b).value);
  }

  lemma NoFault(codec: Codec, began: Objects, now: Objects, from: U64, key: string)
    requires !Unreadable(codec, began, now, from) && key in now && IsAfter(key, from)
    ensures var v := VersionFromKey(key).value;
            key == CommitKey(v) && (v > from + 1 ==> CommitKey(v - 1) in began)
  {
    hide CommitOf, VersionFromKey, CommitKey;
    var v := VersionFromKey(key).value;
    assert !IsFault(codec, began, now, from, key, v);
  }

  lemma ReadableIsGapless(codec: Codec, began: Objects, now: Objects, keys: seq<string>, from: U64, out: seq<Commit>)
    requires !Unreadable(codec, began, now, from) && AllHold(codec, now, Picked(keys, from), out)
    requires Ascending(Picked(keys, from), Plain)
    requires forall k | k in began && Matches(k, LOG_PREFIX, CommitKey(from)) && IsAfter(k, from) :: k in Picked(keys, from)
    ensures Gapless(out, from)
  {
    hide CommitOf, VersionFromKey, CommitKey, Less, Picked, AllHold, Unreadable, Matches;
    var picked := Picked(keys, from);
    SameLength(codec, now, picked, out);
    PickedMembers(keys, from);
    var q: seq<nat> := seq(|out|, i requires 0 <= i < |out| => out[i].version);
    forall a, b | 0 <= a < b < |q| ensures q[a] < q[b] {
      HeldVersions(codec, now, picked, out, a);
      HeldVersions(codec, now, picked, out, b);
      assert picked[a] in picked && picked[b] in picked;
      NoFault(codec, began, now, from, picked[a]);
      NoFault(codec, began, now, from, picked[b]);
      assert Less(Plain(picked[a]), Plain(picked[b]));
      KeyOrder(picked[a], picked[b]);
    }
    forall x | x in q ensures x > from && (x > from + 1 ==> x - 1 in q) {
      var a :| 0 <= a < |q| && q[a] == x;
      HeldVersions(codec, now, picked, out, a);
      assert picked[a] in picked;
      if x > from + 1 {
        NoFault(codec, began, now, from, picked[a]);
        Predecessor(from, x);
        assert CommitKey(x - 1) in picked;
        var b :| 0 <= b < |picked| && picked[b] == CommitKey(x - 1);
        HeldVersions(codec, now, picked, out, b);
        assert q[b] == x - 1;
      }
    }
    forall i | 0 <= i < |out| ensures out[i].version == from + 1 + i { CountsUp(q, from, i); }
  }

  lemma Predecessor(from: U64, x: U64)
    requires x > from + 1
    ensures Matches(CommitKey(x - 1), LOG_PREFIX, CommitKey(from)) && IsAfter(CommitKey(x - 1), from)
    ensures VersionFromKey(CommitKey(x - 1)) == Some(x - 1)
  {
    hide Less, VersionFromKey;
    CommitKeysOrdered(from, x - 1);
    CommitKeyRoundTrip(x - 1);
  }
}
