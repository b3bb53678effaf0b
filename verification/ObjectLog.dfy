/** The object store as the log sees it: atomic create-if-absent, and listings that come in
    pages. Other replicas write between this one's calls. */
module ObjectLog {
  import opened Wrappers
  import opened Order
  import opened Keys
  import opened Model
  import opened ContentHash
  import opened Framing

  type Objects = map<string, seq<Byte>>

  predicate Matches(key: string, prefix: string, after: string) {
    prefix <= key && Less(after, key)
  }

  /** The keys under a prefix and beyond a key, in order. */
  function Listing(objects: Objects, prefix: string, after: string): (q: seq<string>)
    ensures Ascending(q, Plain) && forall k :: k in q <==> k in objects && Matches(k, prefix, after)
  {
    PlainIsInjective();
    Sort((set k | k in objects && Matches(k, prefix, after)), Plain)
  }

  /** Create-if-absent by somebody else: what exists stays. */
  function Joined(objects: Objects, batch: Objects): (r: Objects)
    ensures Extends(objects, r)
  {
    batch + objects
  }

  /** Objects are never changed or dropped. */
  predicate Extends(before: Objects, after: Objects) {
    forall k | k in before :: k in after && after[k] == before[k]
  }

  /** What a call finds: the next batch of the others has landed by then. */
  function Seen(objects: Objects, others: seq<Objects>): Objects {
    if others == [] then objects else Joined(objects, others[0])
  }

  function Remaining(others: seq<Objects>): seq<Objects> {
    if others == [] then [] else others[1..]
  }

  /** `now` is `before` with the first batches of the others on top, `left` being the rest. */
  ghost predicate Later(before: Objects, others: seq<Objects>, now: Objects, left: seq<Objects>)
    decreases |others|
  {
    (now == before && left == others) || (others != [] && Later(Joined(before, others[0]), others[1..], now, left))
  }

  lemma {:induction false} LaterNext(before: Objects, others: seq<Objects>, now: Objects, left: seq<Objects>)
    requires Later(before, others, now, left)
    ensures Later(before, others, Seen(now, left), Remaining(left))
    decreases |others|
  {
    if !(now == before && left == others) {
      LaterNext(Joined(before, others[0]), others[1..], now, left);
    } else if others != [] {
      assert Later(Joined(before, others[0]), others[1..], Joined(before, others[0]), others[1..]);
    }
  }

  lemma {:induction false} LaterExtends(before: Objects, others: seq<Objects>, now: Objects, left: seq<Objects>)
    requires Later(before, others, now, left)
    ensures Extends(before, now) && |left| <= |others|
    decreases |others|
  {
    if !(now == before && left == others) { LaterExtends(Joined(before, others[0]), others[1..], now, left); }
  }

  lemma ExtendsItself(a: Objects)
    ensures Extends(a, a)
  {
  }

  lemma LaterQuiet(before: Objects, now: Objects, left: seq<Objects>)
    requires Later(before, [], now, left)
    ensures now == before && left == []
  {
  }

  lemma ExtendsTransitive(a: Objects, b: Objects, c: Objects)
    requires Extends(a, b) && Extends(b, c)
    ensures Extends(a, c)
  {
  }

  lemma PutExtends(objects: Objects, key: string, body: seq<Byte>)
    requires key !in objects
    ensures Extends(objects, objects[key := body])
  {
  }

  class MemoryLog {
    /** A backend that is not honest ignores where a listing should start. */
    const honest: bool
    var objects: Objects
    /** What other replicas will have created by each of this one's next calls. */
    var others: seq<Objects>

    constructor (honest: bool, others: seq<Objects>)
      ensures this.honest == honest && this.others == others && objects == map[]
    {
      this.honest := honest;
      this.others := others;
      objects := map[];
    }

    method Elapse()
      modifies this
      ensures others == Remaining(old(others))
      ensures objects == Seen(old(objects), old(others))
    {
      if others != [] { objects, others := Joined(objects, others[0]), others[1..]; }
    }

    method PutIfAbsent(key: string, body: seq<Byte>) returns (created: bool)
      modifies this
      ensures others == Remaining(old(others))
      ensures var seen := Seen(old(objects), old(others));
              created == (key !in seen) && objects == if created then seen[key := body] else seen
    {
      Elapse();
      if key in objects { return false; }
      objects := objects[key := body];
      created := true;
    }

    method Get(key: string) returns (body: Option<seq<Byte>>)
      modifies this
      ensures others == Remaining(old(others))
      ensures objects == Seen(old(objects), old(others))
      ensures body == if key in objects then Some(objects[key]) else None
    {
      Elapse();
      body := if key in objects then Some(objects[key]) else None;
    }

    /** Unconditional overwrite. */
    method Put(key: string, body: seq<Byte>)
      modifies this
      ensures others == Remaining(old(others))
      ensures objects == Seen(old(objects), old(others))[key := body]
    {
      Elapse();
      objects := objects[key := body];
    }

    /** Some of the keys asked for, from the front; at least one if there is any. */
    method ListAfter(prefix: string, after: string) returns (page: seq<string>)
      modifies this
      ensures others == Remaining(old(others))
      ensures objects == Seen(old(objects), old(others))
      ensures var all := Listing(objects, prefix, if honest then after else "");
              page <= all && (all != [] ==> page != [])
    {
      Elapse();
      var all := Listing(objects, prefix, if honest then after else "");
      var size: int := *;
      page := if all == [] then [] else if size < 1 then all[..1] else if size < |all| then all[..size] else all;
    }
  }

  // ----- draining a listing -----

  predicate InRange(key: string, prefix: string, after: string, stop: Option<string>) {
    Matches(key, prefix, after) && (stop.Some? ==> AtMost(key, stop.value))
  }

  function TakeUpTo(keys: seq<string>, stop: string): (r: seq<string>)
    ensures r <= keys
  {
    if keys == [] || !AtMost(keys[0], stop) then [] else [keys[0]] + TakeUpTo(keys[1..], stop)
  }

  lemma {:induction false} TakeUpToIsFilter(keys: seq<string>, stop: string)
    requires Ascending(keys, Plain)
    ensures Ascending(TakeUpTo(keys, stop), Plain)
    ensures forall k :: k in TakeUpTo(keys, stop) <==> k in keys && AtMost(k, stop)
  {
    hide Less;
    if keys != [] {
      AscendingTail(keys, Plain);
      assert keys == [keys[0]] + keys[1..];
      if AtMost(keys[0], stop) {
        TakeUpToIsFilter(keys[1..], stop);
      } else {
        forall k | k in keys && AtMost(k, stop) ensures false {
          var i :| 0 <= i < |keys| && keys[i] == k;
          if i > 0 {
            assert Less(Plain(keys[0]), Plain(keys[i]));
            if k != stop { LessTransitive(keys[0], k, stop); }
          }
        }
      }
    }
  }

  function Beyond(objects: Objects, cursor: string): set<string> {
    set k | k in objects && Less(cursor, k)
  }

  /** The keys collected so far: of the range up to the cursor, those that were there when
      the listing began and none that is not there now. */
  ghost predicate Collected(all: seq<string>, began: Objects, now: Objects, prefix: string, after: string, stop: Option<string>, cursor: string) {
    && Ascending(all, Plain) && AtMost(after, cursor)
    && (forall k | k in all :: k in now && InRange(k, prefix, after, stop) && AtMost(k, cursor))
    && (forall k | k in began && InRange(k, prefix, after, stop) && AtMost(k, cursor) :: k in all)
  }

  lemma AscendingConcat(p: seq<string>, q: seq<string>, cursor: string)
    requires Ascending(p, Plain) && Ascending(q, Plain)
    requires (forall k | k in p :: AtMost(k, cursor)) && forall k | k in q :: Less(cursor, k)
    ensures Ascending(p + q, Plain)
  {
    hide Less;
    var all := p + q;
    forall i, j | 0 <= i < j < |all| ensures Less(all[i], all[j]) {
      if i < |p| <= j {
        assert all[i] == p[i] && p[i] in p && all[j] == q[j - |p|] && q[j - |p|] in q;
        if p[i] != cursor { LessTransitive(p[i], cursor, q[j - |p|]); }
      } else if j < |p| {
        assert Less(Plain(p[i]), Plain(p[j]));
      } else {
        assert Less(Plain(q[i - |p|]), Plain(q[j - |p|]));
      }
    }
  }

  /** An honest page: the next keys, with nothing between them left out. */
  lemma PageFacts(objects: Objects, prefix: string, cursor: string, page: seq<string>)
    requires page <= Listing(objects, prefix, cursor) && page != []
    ensures Ascending(page, Plain)
    ensures forall k | k in page :: k in objects && Matches(k, prefix, cursor) && AtMost(k, page[|page| - 1])
    ensures forall k | k in objects && Matches(k, prefix, cursor) && AtMost(k, page[|page| - 1]) :: k in page
    ensures Less(cursor, page[|page| - 1])
  {
    hide Less;
    var all := Listing(objects, prefix, cursor);
    var last := page[|page| - 1];
    assert page == all[..|page|];
    forall i | 0 <= i < |page| ensures page[i] in all && AtMost(page[i], last) {
      if i < |page| - 1 { assert Less(Plain(all[i]), Plain(all[|page| - 1])); }
    }
    forall k | k in all && AtMost(k, last) ensures k in page {
      var i :| 0 <= i < |all| && all[i] == k;
      if i >= |page| {
        assert Less(Plain(all[|page| - 1]), Plain(all[i]));
        LessIrreflexive(last);
        if k != last { LessAsymmetric(k, last); }
      }
    }
    forall i, j | 0 <= i < j < |page| ensures Less(Plain(page[i]), Plain(page[j])) {
      assert Less(Plain(all[i]), Plain(all[j]));
    }
  }

  lemma CollectPage(all: seq<string>, began: Objects, seen: Objects, now: Objects, prefix: string, after: string,
                    stop: Option<string>, cursor: string, page: seq<string>)
    requires Collected(all, began, seen, prefix, after, stop, cursor)
    requires Extends(began, now) && Extends(seen, now)
    requires page != [] && page <= Listing(now, prefix, cursor)
    requires stop.Some? ==> AtMost(page[|page| - 1], stop.value)
    ensures Collected(all + page, began, now, prefix, after, stop, page[|page| - 1])
  {
    hide Less, Listing;
    var last := page[|page| - 1];
    PageFacts(now, prefix, cursor, page);
    AscendingConcat(all, page, cursor);
    Chain(after, cursor, last);
    forall k | k in all + page ensures k in now && InRange(k, prefix, after, stop) && AtMost(k, last) {
      if k in all {
        Chain(k, cursor, last);
      } else {
        assert k in page;
        if after != cursor { LessTransitive(after, cursor, k); }
        if stop.Some? { Chain(k, last, stop.value); }
      }
    }
    forall k | k in began && InRange(k, prefix, after, stop) && AtMost(k, last) ensures k in all + page {
      LessTotal(cursor, k);
      if !AtMost(k, cursor) { assert k in page; }
    }
  }

  lemma Chain(a: string, b: string, c: string)
    requires AtMost(a, b) && AtMost(b, c)
    ensures AtMost(a, c)
  {
    hide Less;
    if a != b && b != c { LessTransitive(a, b, c); }
  }

  /** The listing of the range `keys` is complete and right. */
  ghost predicate Drained(keys: seq<string>, began: Objects, now: Objects, prefix: string, after: string, stop: Option<string>) {
    && Ascending(keys, Plain)
    && (forall k | k in keys :: k in now && InRange(k, prefix, after, stop))
    && (forall k | k in began && InRange(k, prefix, after, stop) :: k in keys)
  }

  lemma NothingBeyond(all: seq<string>, began: Objects, seen: Objects, now: Objects, prefix: string, after: string,
                      stop: Option<string>, cursor: string)
    requires Collected(all, began, seen, prefix, after, stop, cursor)
    requires Extends(began, now) && Extends(seen, now) && Listing(now, prefix, cursor) == []
    ensures Drained(all, began, now, prefix, after, stop)
  {
    hide Less;
    forall k | k in began && InRange(k, prefix, after, stop) ensures k in all {
      LessTotal(cursor, k);
      if Less(cursor, k) { assert k in Listing(now, prefix, cursor); }
    }
  }

  lemma StopsInside(all: seq<string>, began: Objects, seen: Objects, now: Objects, prefix: string, after: string,
                    stop: string, cursor: string, page: seq<string>)
    requires Collected(all, began, seen, prefix, after, Some(stop), cursor)
    requires Extends(began, now) && Extends(seen, now)
    requires page != [] && page <= Listing(now, prefix, cursor) && Less(stop, page[|page| - 1])
    ensures Drained(all + TakeUpTo(page, stop), began, now, prefix, after, Some(stop))
  {
    hide Less, Listing, TakeUpTo;
    var last := page[|page| - 1];
    PageFacts(now, prefix, cursor, page);
    TakeUpToIsFilter(page, stop);
    var kept := TakeUpTo(page, stop);
    AscendingConcat(all, kept, cursor);
    forall k | k in all + kept ensures k in now && InRange(k, prefix, after, Some(stop)) {
      if k !in all && after != cursor { LessTransitive(after, cursor, k); }
    }
    forall k | k in began && InRange(k, prefix, after, Some(stop)) ensures k in all + kept {
      LessTotal(cursor, k);
      if !AtMost(k, cursor) {
        Chain(k, stop, last);
        assert k in page;
      }
    }
  }

  lemma FewerBeyond(objects: Objects, cursor: string, last: string)
    requires last in objects && Less(cursor, last)
    ensures |Beyond(objects, last)| < |Beyond(objects, cursor)|
  {
    hide Less;
    forall k | k in Beyond(objects, last) ensures k in Beyond(objects, cursor) { LessTransitive(cursor, last, k); }
    LessIrreflexive(last);
    assert last in Beyond(objects, cursor) && last !in Beyond(objects, last);
    SubsetSize(Beyond(objects, last), Beyond(objects, cursor));
  }

  lemma SubsetSize(a: set<string>, b: set<string>)
    requires a < b
    ensures |a| < |b|
  {
    assert b == a + (b - a);
  }

  predicate SomeUnder(objects: Objects, prefix: string) {
    exists k :: k in objects && k != "" && prefix <= k
  }

  predicate NonePast(objects: Objects, prefix: string, stop: Option<string>) {
    stop.Some? ==> forall k | k in objects && prefix <= k :: !Less(stop.value, k)
  }

  lemma SomeListed(began: Objects, now: Objects, prefix: string)
    requires Extends(began, now)
    ensures SomeUnder(began, prefix) ==> Listing(now, prefix, "") != []
  {
    if SomeUnder(began, prefix) {
      var k :| k in began && k != "" && prefix <= k;
      assert k in Listing(now, prefix, "");
    }
  }

  lemma PastStop(objects: Objects, prefix: string, stop: string, page: seq<string>)
    requires page != [] && page <= Listing(objects, prefix, "") && Less(stop, page[|page| - 1])
    ensures !NonePast(objects, prefix, Some(stop))
  {
    hide Less, Listing;
    var last := page[|page| - 1];
    assert last in Listing(objects, prefix, "");
  }

  /** Page after page until none is left, or until one passes `stop`. It ends against any
      backend: one whose page does not move the cursor is refused, not asked again. So is every
      backend that ignores where to start, unless its first page is empty or past the stop. */
  method ListAllInRange(log: MemoryLog, prefix: string, after: string, stop: Option<string>) returns (out: Result<seq<string>, string>)
    modifies log
    ensures Later(old(log.objects), old(log.others), log.objects, log.others)
    ensures log.honest ==> out.Ok? && Drained(out.value, old(log.objects), log.objects, prefix, after, stop)
    ensures !log.honest && SomeUnder(old(log.objects), prefix) && NonePast(log.objects, prefix, stop) ==> out.Err?
  {
    hide Less, Listing, Collected, Drained, Ascending, Matches, InRange, TakeUpTo, Beyond, Later, Extends, SomeUnder, NonePast;
    var all: seq<string> := [];
    var cursor := after;
    ghost var began, schedule := log.objects, log.others;
    LaterNow(began, schedule);
    NothingYet(began, prefix, after, stop);
    while true
      invariant Later(began, schedule, log.objects, log.others)
      invariant log.honest ==> Collected(all, began, log.objects, prefix, after, stop, cursor)
      decreases |log.others|, |Beyond(log.objects, cursor)|
    {
      ghost var seen, left := log.objects, log.others;
      var page := log.ListAfter(prefix, cursor);
      LaterNext(began, schedule, seen, left);
      LaterExtends(began, schedule, log.objects, log.others);
      SeenExtends(seen, left);
      if page == [] {
        if log.honest {
          NothingBeyond(all, began, seen, log.objects, prefix, after, stop, cursor);
        } else {
          SomeListed(began, log.objects, prefix);
        }
        return Ok(all);
      }
      var last := page[|page| - 1];
      if stop.Some? && Less(stop.value, last) {
        if log.honest {
          StopsInside(all, began, seen, log.objects, prefix, after, stop.value, cursor, page);
        } else {
          PastStop(log.objects, prefix, stop.value, page);
        }
        return Ok(all + TakeUpTo(page, stop.value));
      }
      if AtMost(last, cursor) {
        if log.honest { PageAdvances(log.objects, prefix, cursor, page); }
        return Err("object log ignored start_after");
      }
      if log.honest {
        if stop.Some? { LessTotal(stop.value, last); }
        CollectPage(all, began, seen, log.objects, prefix, after, stop, cursor, page);
      }
      LastListed(log.objects, prefix, if log.honest then cursor else "", page);
      LessTotal(last, cursor);
      FewerBeyond(log.objects, cursor, last);
      cursor := last;
      all := all + page;
    }
  }

  lemma LaterNow(objects: Objects, others: seq<Objects>)
    ensures Later(objects, others, objects, others)
  {
  }

  lemma SeenExtends(objects: Objects, others: seq<Objects>)
    ensures Extends(objects, Seen(objects, others)) && (others == [] ==> Seen(objects, others) == objects)
  {
  }

  lemma NothingYet(objects: Objects, prefix: string, after: string, stop: Option<string>)
    ensures Collected([], objects, objects, prefix, after, stop, after)
  {
    hide Less;
    forall k | k in objects && InRange(k, prefix, after, stop) ensures !AtMost(k, after) {
      LessIrreflexive(after);
      if k != after { LessAsymmetric(after, k); }
    }
  }

  lemma PageAdvances(objects: Objects, prefix: string, cursor: string, page: seq<string>)
    requires page != [] && page <= Listing(objects, prefix, cursor)
    ensures !AtMost(page[|page| - 1], cursor)
  {
    hide Less, Listing;
    PageFacts(objects, prefix, cursor, page);
    LessAsymmetric(cursor, page[|page| - 1]);
  }

  lemma LastListed(objects: Objects, prefix: string, start: string, page: seq<string>)
    requires page != [] && page <= Listing(objects, prefix, start)
    ensures page[|page| - 1] in objects
  {
    assert page[|page| - 1] in Listing(objects, prefix, start);
  }
}
