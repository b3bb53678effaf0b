/** Which checkpoint a starting replica adopts, and which damaged ones it does not. */
module Recovery {
  import opened Wrappers
  import opened Order
  import opened Keys
  import opened Model
  import opened Snapshots
  import opened Checkpoints
  import opened ContentHash
  import opened Framing
  import opened ObjectLog

  datatype Pointer = Pointer(version: U64, size: nat, checksum: Option<string>)

  datatype PointerCodec = PointerCodec(print_: Pointer -> seq<Byte>, parse: seq<Byte> -> Option<Pointer>) {
    ghost predicate Valid() {
      forall p: Pointer :: parse(print_(p)) == Some(p)
    }
  }

  // ----- reading -----

  /** The body is as long as recorded and, where a hash was recorded with it, hashes
      to it. */
  predicate Passes(p: Pointer, body: seq<Byte>) {
    Newlines(body) == p.size && (p.checksum.Some? ==> Render(Hash(body)) == p.checksum.value)
  }

  /** `resolve_checkpoint`: anything amiss is no checkpoint rather than an error. */
  function Resolve(pc: PointerCodec, objects: Objects): Option<(U64, seq<Byte>)> {
    if LAST_CHECKPOINT_KEY !in objects then None
    else
      match pc.parse(objects[LAST_CHECKPOINT_KEY])
      case None => None
      case Some(p) =>
        if CheckpointKey(p.version) !in objects then None
        else
          var body := objects[CheckpointKey(p.version)];
          if Newlines(body) != p.size then None
          else if p.checksum.Some? && Render(Hash(body)) != p.checksum.value then None
          else Some((p.version, body))
  }

  // ----- writing -----

  function PointerTo(codec: Codec, version: U64, s: State): Pointer
    requires Typed(s)
  {
    var text := CheckpointText(codec, s);
    Pointer(version, Newlines(text), Some(Render(Hash(text))))
  }

  /** The body, unless somebody wrote one for this version before. */
  function BodyPut(codec: Codec, version: U64, s: State, objects: Objects): Objects
    requires Typed(s)
  {
    if CheckpointKey(version) in objects then objects else objects[CheckpointKey(version) := CheckpointText(codec, s)]
  }

  function PointerPut(codec: Codec, pc: PointerCodec, version: U64, s: State, objects: Objects): Objects
    requires Typed(s)
  {
    objects[LAST_CHECKPOINT_KEY := pc.print_(PointerTo(codec, version, s))]
  }

  /** `write_checkpoint`, the snapshot's version being the one asked for: the body if nobody
      was first, then the checkpoint pointer, with the line count the encoder returned. A crash may come
      between the two. */
  method WriteCheckpoint(log: MemoryLog, codec: Codec, pc: PointerCodec, version: U64, s: State, crash: bool)
    requires codec.Valid() && Typed(s)
    modifies log
    ensures var put := BodyPut(codec, version, s, Seen(old(log.objects), old(log.others)));
            log.objects == if crash then put else PointerPut(codec, pc, version, s, Seen(put, Remaining(old(log.others))))
  {
    hide CheckpointText, Newlines, Hash, Render, CheckpointKey, Typed, Dump;
    var body, size := EncodeCheckpoint(codec, s);
    var checksum := ContentHash.ContentHash(body);
    CountIsSize(codec, s);
    var created := log.PutIfAbsent(CheckpointKey(version), body);
    if crash { return; }
    log.Put(LAST_CHECKPOINT_KEY, pc.print_(Pointer(version, size, Some(checksum))));
  }

  /** The reads of `resolve_checkpoint`, one object at a time. */
  method ResolveCheckpoint(log: MemoryLog, pc: PointerCodec) returns (found: Option<(U64, seq<Byte>)>)
    modifies log
    ensures Later(old(log.objects), old(log.others), log.objects, log.others)
    ensures found.Some? ==> Resolve(pc, log.objects) == found
    ensures found.None? && old(log.others) == [] ==> Resolve(pc, log.objects) == None
  {
    hide CheckpointKey, Newlines, Hash, Later;
    LaterNow(log.objects, log.others);
    LaterNext(log.objects, log.others, log.objects, log.others);
    ghost var began, schedule := log.objects, log.others;
    var pointer := log.Get(LAST_CHECKPOINT_KEY);
    if pointer.None? { return None; }
    var parsed := pc.parse(pointer.value);
    if parsed.None? { return None; }
    ghost var before, left := log.objects, log.others;
    LaterNext(began, schedule, before, left);
    var body := log.Get(CheckpointKey(parsed.value.version));
    SeenExtends(before, left);
    if body.None? { return None; }
    var lines := CountNewlines(body.value);
    if lines != parsed.value.size { return None; }
    if parsed.value.checksum.Some? {
      var actual := ContentHash.ContentHash(body.value);
      if actual != parsed.value.checksum.value { return None; }
    }
    found := Some((parsed.value.version, body.value));
  }

  method CountNewlines(body: seq<Byte>) returns (lines: nat)
    ensures lines == Newlines(body)
  {
    lines := 0;
    for i := 0 to |body|
      invariant lines == Newlines(body[..i])
    {
      assert body[..i + 1][..i] == body[..i];
      if body[i] == NEWLINE { lines := lines + 1; }
    }
    assert body[..|body|] == body;
  }

  lemma CountIsSize(codec: Codec, s: State)
    requires codec.Valid() && Typed(s)
    ensures Newlines(CheckpointText(codec, s)) == |Dump(s)| == |s.rows|
  {
    NewlinesAreLines(codec, Lifted(Dump(s)));
    TextIsInjective();
    assert |Refs(s.rows)| == |s.rows.Keys|;
  }

  lemma KeysApart(v: nat)
    ensures CheckpointKey(v) != LAST_CHECKPOINT_KEY
  {
    assert |CheckpointKey(v)| == 44;
  }

  /** A pointer and body written together are adopted, provided nobody had written another
      body for the version first. */
  lemma WrittenIsAdopted(codec: Codec, pc: PointerCodec, version: U64, s: State, objects: Objects)
    requires codec.Valid() && pc.Valid() && Typed(s)
    requires CheckpointKey(version) in objects ==> objects[CheckpointKey(version)] == CheckpointText(codec, s)
    ensures Resolve(pc, PointerPut(codec, pc, version, s, BodyPut(codec, version, s, objects)))
         == Some((version, CheckpointText(codec, s)))
  {
    hide CheckpointText, Newlines, Hash, Render, CheckpointKey;
    KeysApart(version);
  }

  /** Dying between the two writes leaves what a reader resolves as it was, unless it
      had dangled at this very version. */
  lemma CrashLeavesPointer(codec: Codec, pc: PointerCodec, version: U64, s: State, objects: Objects)
    requires Typed(s)
    requires LAST_CHECKPOINT_KEY in objects && pc.parse(objects[LAST_CHECKPOINT_KEY]).Some? ==>
               var p := pc.parse(objects[LAST_CHECKPOINT_KEY]).value;
               p.version == version ==> CheckpointKey(version) in objects
    ensures Resolve(pc, BodyPut(codec, version, s, objects)) == Resolve(pc, objects)
  {
    hide CheckpointText, Newlines, Hash, Render, CheckpointKey;
    KeysApart(version);
    if LAST_CHECKPOINT_KEY in objects && pc.parse(objects[LAST_CHECKPOINT_KEY]).Some? {
      CheckpointKeysDiffer(pc.parse(objects[LAST_CHECKPOINT_KEY]).value.version, version);
    }
  }

  lemma CheckpointKeysDiffer(v: U64, w: U64)
    ensures CheckpointKey(v) == CheckpointKey(w) <==> v == w
  {
    Powers();
    DigitsOrdered(v, w, 10, 20);
    assert CheckpointKey(v)[8..28] == Digits(v, 10, 20) && CheckpointKey(w)[8..28] == Digits(w, 10, 20);
  }

  // ----- damage -----

  /** A checkpoint is adopted if and only if the pointer object is there and parses, the body it
      names is there, and the body passes: it has the number of lines recorded, with a checksum
      or without, and the checksum if there is one. */
  lemma ResolvesIff(pc: PointerCodec, objects: Objects, version: U64, body: seq<Byte>)
    ensures Resolve(pc, objects) == Some((version, body)) <==>
              && LAST_CHECKPOINT_KEY in objects && pc.parse(objects[LAST_CHECKPOINT_KEY]).Some?
              && var p := pc.parse(objects[LAST_CHECKPOINT_KEY]).value;
                 p.version == version && CheckpointKey(version) in objects && objects[CheckpointKey(version)] == body && Passes(p, body)
  {
    hide CheckpointKey, Newlines, Hash, Render;
  }

  /** The pointer object says `p`, and the body under its version is `body`. */
  predicate PointsTo(pc: PointerCodec, objects: Objects, p: Pointer, body: seq<Byte>) {
    && LAST_CHECKPOINT_KEY in objects && pc.parse(objects[LAST_CHECKPOINT_KEY]) == Some(p)
    && CheckpointKey(p.version) in objects && objects[CheckpointKey(p.version)] == body
  }

  lemma ResolvesTo(pc: PointerCodec, objects: Objects, p: Pointer, body: seq<Byte>)
    requires PointsTo(pc, objects, p, body)
    ensures Resolve(pc, objects) == if Passes(p, body) then Some((p.version, body)) else None
  {
    hide CheckpointKey, Newlines, Hash, Render;
  }

  /** The line count turns away every proper prefix of a genuine body, whether or not a checksum
      was recorded with it. */
  lemma TruncatedIsRefused(codec: Codec, pc: PointerCodec, objects: Objects, s: State, p: Pointer, part: seq<Byte>)
    requires codec.Valid() && Typed(s) && p.size == Newlines(CheckpointText(codec, s))
    requires part < CheckpointText(codec, s) && PointsTo(pc, objects, p, part)
    ensures Resolve(pc, objects) == None
  {
    hide CheckpointText, Newlines, Hash, Render, CheckpointKey;
    PrefixFails(codec, s, p, part);
    ResolvesTo(pc, objects, p, part);
  }

  lemma PrefixFails(codec: Codec, s: State, p: Pointer, part: seq<Byte>)
    requires codec.Valid() && Typed(s) && p.size == Newlines(CheckpointText(codec, s))
    requires part < CheckpointText(codec, s)
    ensures !Passes(p, part)
  {
    CutLosesALine(codec, Lifted(Dump(s)), part);
  }

  predicate DifferAt(p: seq<Byte>, q: seq<Byte>, i: nat) {
    |p| == |q| && i < |p| && p[i] != q[i] && forall j | 0 <= j < |p| && j != i :: p[j] == q[j]
  }

  /** With a hash recorded, a body with one byte changed is turned away. */
  lemma FlippedIsRefused(pc: PointerCodec, objects: Objects, p: Pointer, body: seq<Byte>, flipped: seq<Byte>, i: nat)
    requires p.checksum == Some(Render(Hash(body))) && DifferAt(body, flipped, i) && PointsTo(pc, objects, p, flipped)
    ensures Resolve(pc, objects) == None
  {
    hide Newlines, Hash, Render, CheckpointKey;
    OneByteChangesHash(body, flipped, i);
    ResolvesTo(pc, objects, p, flipped);
  }

  lemma {:induction false} FlippedCount(p: seq<Byte>, q: seq<Byte>, i: nat)
    requires DifferAt(p, q, i)
    ensures Newlines(p) == Newlines(q) <==> p[i] != NEWLINE && q[i] != NEWLINE
  {
    var n := |p| - 1;
    if i == n {
      assert p[..n] == q[..n];
    } else {
      FlippedCount(p[..n], q[..n], i);
    }
  }

  /** Without one, exactly the changes that touch no newline slip through. */
  lemma OlderPointerSees(pc: PointerCodec, objects: Objects, p: Pointer, body: seq<Byte>, flipped: seq<Byte>, i: nat)
    requires p.checksum.None? && p.size == Newlines(body) && DifferAt(body, flipped, i) && PointsTo(pc, objects, p, flipped)
    ensures Resolve(pc, objects) == if body[i] != NEWLINE && flipped[i] != NEWLINE then Some((p.version, flipped)) else None
  {
    hide Hash, Render, CheckpointKey;
    FlippedCount(body, flipped, i);
    ResolvesTo(pc, objects, p, flipped);
  }

  /** Neither kind of damage is adopted under the record written with the body. */
  lemma DamageIsNotAdopted(codec: Codec, pc: PointerCodec, version: U64, s: State, objects: Objects, body: seq<Byte>, i: nat)
    requires codec.Valid() && pc.Valid() && Typed(s)
    requires LAST_CHECKPOINT_KEY in objects && objects[LAST_CHECKPOINT_KEY] == pc.print_(PointerTo(codec, version, s))
    requires CheckpointKey(version) in objects && objects[CheckpointKey(version)] == body
    requires body < CheckpointText(codec, s) || DifferAt(CheckpointText(codec, s), body, i)
    ensures Resolve(pc, objects) == None
  {
    hide CheckpointText, Newlines, Hash, Render, CheckpointKey;
    var p := PointerTo(codec, version, s);
    assert pc.parse(pc.print_(p)) == Some(p);
    if body < CheckpointText(codec, s) {
      TruncatedIsRefused(codec, pc, objects, s, p, body);
    } else {
      FlippedIsRefused(pc, objects, p, CheckpointText(codec, s), body, i);
    }
  }

  // ----- what opening starts from -----

  /** Every checkpoint object is the text of a state some replica had. */
  predicate Honest(codec: Codec, objects: Objects, states: map<U64, State>) {
    && (forall v | v in states :: Typed(states[v]))
    && (forall v: U64 | v in states :: CheckpointKey(v) in objects && objects[CheckpointKey(v)] == CheckpointText(codec, states[v]))
  }

  /** Whatever the checkpoint pointer holds, a reader starts from nothing or from a checkpoint that was
      written, and reading that one fails only if the build cannot decode one of its rows. */
  lemma PointerIsOnlyAHint(codec: Codec, known: Known, pc: PointerCodec, objects: Objects, states: map<U64, State>)
    requires codec.Valid() && Honest(codec, objects, states)
    requires forall v: U64 | CheckpointKey(v) in objects :: v in states
    ensures Resolve(pc, objects).Some? ==>
              var (version, body) := Resolve(pc, objects).value;
              version in states
              && StateOf(codec, known, body) == if ReadsRows(known, states[version].rows) then Some(Load(Dump(states[version]))) else None
  {
    hide CheckpointText, Newlines, Hash, Render, CheckpointKey, StateOf, Load, Typed;
    if Resolve(pc, objects).Some? {
      var (version, body) := Resolve(pc, objects).value;
      CheckpointRoundTrip(codec, known, states[version]);
    }
  }
}
