/** Commits and checkpoints as bytes: one line of text per header or action. How one line is
    printed and parsed is a parameter; what is proved is the framing around it. */
module Framing {
  import opened Wrappers
  import opened Order
  import opened Model
  import opened Snapshots
  import opened Checkpoints
  import opened ContentHash

  const NEWLINE: Byte := 10
  const RETURN: Byte := 13

  datatype CommitInfo = CommitInfo(format: nat, timestamp: int, operation: Option<string>, actor: Option<string>)

  const FORMAT_VERSION: nat := 1

  datatype Line = Header(info: CommitInfo) | Act(action: Action)

  predicate IsSpace(b: Byte) {
    9 <= b <= 13 || b == 32
  }

  /** `raw.trim().is_empty()`. */
  predicate Blank(raw: seq<Byte>) {
    forall b | b in raw :: IsSpace(b)
  }

  /** What is assumed of the JSON library: parsing inverts printing, and a printed line is
      not blank, holds no newline and does not end in a carriage return. */
  datatype Codec = Codec(print_: Line -> seq<Byte>, parse: seq<Byte> -> Option<Line>) {
    ghost predicate Sane(line: Line) {
      && parse(print_(line)) == Some(line) && NEWLINE !in print_(line) && !Blank(print_(line))
      && print_(line)[|print_(line)| - 1] != RETURN
    }

    ghost predicate Valid() {
      forall line: Line :: Sane(line)
    }
  }

  // ----- lines -----

  /** Each line printed and terminated. */
  function Text(codec: Codec, lines: seq<Line>): seq<Byte> {
    if lines == [] then [] else Text(codec, lines[..|lines| - 1]) + codec.print_(lines[|lines| - 1]) + [NEWLINE]
  }

  /** A line without the carriage return that may precede its newline. */
  function Chomp(raw: seq<Byte>): seq<Byte> {
    if |raw| > 0 && raw[|raw| - 1] == RETURN then raw[..|raw| - 1] else raw
  }

  /** `str::lines`: `current` is the line read so far; a last line needs no newline. */
  function Split(bytes: seq<Byte>, current: seq<Byte>): seq<seq<Byte>> {
    if bytes == [] then (if current == [] then [] else [current])
    else if bytes[0] == NEWLINE then [Chomp(current)] + Split(bytes[1..], [])
    else Split(bytes[1..], current + [bytes[0]])
  }

  function RawLines(bytes: seq<Byte>): seq<seq<Byte>> {
    Split(bytes, [])
  }

  lemma {:induction false} SplitRun(run: seq<Byte>, rest: seq<Byte>, current: seq<Byte>)
    requires NEWLINE !in run
    ensures Split(run + rest, current) == Split(rest, current + run)
  {
    if run == [] {
      assert run + rest == rest && current + run == current;
    } else {
      assert (run + rest)[1..] == run[1..] + rest;
      assert current + run == (current + [run[0]]) + run[1..];
      SplitRun(run[1..], rest, current + [run[0]]);
    }
  }

  lemma SplitLine(run: seq<Byte>, rest: seq<Byte>)
    requires NEWLINE !in run
    ensures Split(run + [NEWLINE] + rest, []) == [Chomp(run)] + Split(rest, [])
  {
    SplitRun(run, [NEWLINE] + rest, []);
    assert run + [NEWLINE] + rest == run + ([NEWLINE] + rest);
    assert [] + run == run;
    assert ([NEWLINE] + rest)[1..] == rest;
  }

  /** A text up to its first newline is its first line, without the carriage return that may end
      it; the rest of the text has the other lines. */
  lemma FirstLine(run: seq<Byte>, rest: seq<Byte>)
    requires NEWLINE !in run && (run != [] ==> run[|run| - 1] != RETURN)
    ensures RawLines(run + [NEWLINE] + rest) == [run] + RawLines(rest)
    ensures RawLines(run + [RETURN, NEWLINE] + rest) == [run] + RawLines(rest)
  {
    hide Split;
    SplitLine(run, rest);
    assert run + [RETURN, NEWLINE] + rest == (run + [RETURN]) + [NEWLINE] + rest;
    SplitLine(run + [RETURN], rest);
    assert (run + [RETURN])[..|run|] == run;
  }

  /** A text without a newline is its own one line, or none if it is empty. */
  lemma LastLine(run: seq<Byte>)
    requires NEWLINE !in run
    ensures RawLines(run) == if run == [] then [] else [run]
  {
    SplitRun(run, [], []);
    assert run + [] == run && [] + run == run;
  }

  function Printed(codec: Codec, lines: seq<Line>): seq<seq<Byte>> {
    seq(|lines|, i requires 0 <= i < |lines| => codec.print_(lines[i]))
  }

  lemma {:induction false} TextCons(codec: Codec, lines: seq<Line>)
    requires lines != []
    ensures Text(codec, lines) == codec.print_(lines[0]) + [NEWLINE] + Text(codec, lines[1..])
  {
    var n := |lines| - 1;
    if n > 0 {
      TextCons(codec, lines[..n]);
      assert lines[..n][1..] == lines[1..][..n - 1];
    }
  }

  /** Splitting finds the printed lines again, one for one. */
  lemma {:induction false} SplitText(codec: Codec, lines: seq<Line>)
    requires codec.Valid()
    ensures RawLines(Text(codec, lines)) == Printed(codec, lines)
  {
    if lines != [] {
      TextCons(codec, lines);
      assert codec.Sane(lines[0]);
      SplitLine(codec.print_(lines[0]), Text(codec, lines[1..]));
      SplitText(codec, lines[1..]);
    }
  }

  // ----- reading lines back -----

  /** The parsed lines, blank ones dropped; None when one does not parse. */
  function Parsed(codec: Codec, raws: seq<seq<Byte>>): Option<seq<Line>> {
    if raws == [] then Some([])
    else
      var before := Parsed(codec, raws[..|raws| - 1]);
      var raw := raws[|raws| - 1];
      if before.None? || Blank(raw) then before
      else
        match codec.parse(raw)
        case Some(line) => Some(before.value + [line])
        case None => None
  }

  lemma {:induction false} ParsedPrinted(codec: Codec, lines: seq<Line>)
    requires codec.Valid()
    ensures Parsed(codec, Printed(codec, lines)) == Some(lines)
  {
    if lines != [] {
      var n := |lines| - 1;
      ParsedPrinted(codec, lines[..n]);
      assert Printed(codec, lines)[..n] == Printed(codec, lines[..n]);
      assert codec.Sane(lines[n]);
      assert lines == lines[..n] + [lines[n]];
    }
  }

  lemma LinesRoundTrip(codec: Codec, lines: seq<Line>)
    requires codec.Valid()
    ensures Parsed(codec, RawLines(Text(codec, lines))) == Some(lines)
  {
    SplitText(codec, lines);
    ParsedPrinted(codec, lines);
  }

  lemma {:induction false} UnparsedStays(codec: Codec, raws: seq<seq<Byte>>, i: nat)
    requires i <= |raws| && Parsed(codec, raws[..i]).None?
    ensures Parsed(codec, raws).None?
  {
    if i < |raws| {
      assert raws[..|raws| - 1][..i] == raws[..i];
      UnparsedStays(codec, raws[..|raws| - 1], i);
    } else {
      assert raws[..i] == raws;
    }
  }

  lemma {:induction false} ParsedExtends(codec: Codec, raws: seq<seq<Byte>>, i: nat)
    requires i <= |raws| && Parsed(codec, raws).Some?
    ensures Parsed(codec, raws[..i]).Some? && Parsed(codec, raws[..i]).value <= Parsed(codec, raws).value
  {
    if i < |raws| {
      ParsedExtends(codec, raws[..|raws| - 1], i);
      assert raws[..|raws| - 1][..i] == raws[..i];
    } else {
      assert raws[..i] == raws;
    }
  }

  // ----- what a text of lines holds, line by line -----

  predicate Rising(idx: seq<nat>) {
    forall i, j | 0 <= i < j < |idx| :: idx[i] < idx[j]
  }

  /** The line is blank or parses. */
  predicate Reads(codec: Codec, raw: seq<Byte>) {
    Blank(raw) || codec.parse(raw).Some?
  }

  predicate IsHeader(codec: Codec, raw: seq<Byte>) {
    !Blank(raw) && codec.parse(raw).Some? && codec.parse(raw).value.Header?
  }

  predicate IsAct(codec: Codec, raw: seq<Byte>) {
    !Blank(raw) && codec.parse(raw).Some? && codec.parse(raw).value.Act?
  }

  /** `idx` are the places of the actions, in order, and `actions` what they are. */
  ghost predicate PicksActions(codec: Codec, raws: seq<seq<Byte>>, idx: seq<nat>, actions: seq<Action>) {
    && Rising(idx) && |actions| == |idx|
    && (forall i: nat :: i in idx <==> i < |raws| && IsAct(codec, raws[i]))
    && (forall j | 0 <= j < |idx| :: idx[j] < |raws| && codec.parse(raws[idx[j]]) == Some(Act(actions[j])))
  }

  lemma {:induction false} ParsedIff(codec: Codec, raws: seq<seq<Byte>>)
    ensures Parsed(codec, raws).Some? <==> forall i | 0 <= i < |raws| :: Reads(codec, raws[i])
  {
    hide Blank;
    if raws != [] {
      var n := |raws| - 1;
      ParsedIff(codec, raws[..n]);
      assert forall i | 0 <= i < n :: raws[..n][i] == raws[i];
      if forall i | 0 <= i < n :: Reads(codec, raws[..n][i]) {
        assert Parsed(codec, raws).Some? <==> Reads(codec, raws[n]);
      } else {
        var i :| 0 <= i < n && !Reads(codec, raws[..n][i]);
        assert !Reads(codec, raws[i]);
      }
    }
  }

  /** The last line is one more that is parsed, or blank. */
  lemma ParsedNext(codec: Codec, raws: seq<seq<Byte>>)
    requires raws != [] && Parsed(codec, raws).Some?
    ensures var n, lines := |raws| - 1, Parsed(codec, raws).value;
            && Parsed(codec, raws[..n]).Some?
            && var before := Parsed(codec, raws[..n]).value;
               if Blank(raws[n]) then lines == before
               else codec.parse(raws[n]).Some? && lines == before + [codec.parse(raws[n]).value]
  {
    hide Blank;
  }

  lemma NextLine(lines: seq<Line>, line: Line)
    ensures Actions(lines + [line]) == if line.Act? then Actions(lines) + [line.action] else Actions(lines)
    ensures LastInfo(lines + [line]) == if line.Header? then Some(line.info) else LastInfo(lines)
    ensures Understood(lines + [line]) <==> Understood(lines) && (line.Header? ==> line.info.format <= FORMAT_VERSION)
  {
    assert (lines + [line])[..|lines|] == lines;
    assert forall l :: l in lines + [line] <==> l in lines || l == line;
  }

  lemma OnePlaceMore(codec: Codec, raws: seq<seq<Byte>>, idx: seq<nat>, actions: seq<Action>)
    requires raws != [] && PicksActions(codec, raws[..|raws| - 1], idx, actions)
    ensures var n := |raws| - 1;
            if IsAct(codec, raws[n]) then PicksActions(codec, raws, idx + [n], actions + [codec.parse(raws[n]).value.action])
            else PicksActions(codec, raws, idx, actions)
  {
    hide Blank;
    var n := |raws| - 1;
    assert forall i: nat | i < n :: raws[..n][i] == raws[i];
    assert forall j | 0 <= j < |idx| :: idx[j] < n;
    assert forall i: nat :: i in idx + [n] <==> i in idx || i == n;
  }

  /** The actions read are those of the lines, place by place. */
  lemma {:induction false} ReadsActions(codec: Codec, raws: seq<seq<Byte>>) returns (idx: seq<nat>)
    requires Parsed(codec, raws).Some?
    ensures PicksActions(codec, raws, idx, Actions(Parsed(codec, raws).value))
  {
    hide Blank, IsAct, PicksActions;
    if raws == [] {
      idx := [];
      assert PicksActions(codec, raws, [], []) by { NoPlaces(codec); }
    } else {
      var n := |raws| - 1;
      ParsedNext(codec, raws);
      var before := ReadsActions(codec, raws[..n]);
      OnePlaceMore(codec, raws, before, Actions(Parsed(codec, raws[..n]).value));
      WhatLine(codec, raws[n]);
      if !Blank(raws[n]) { NextLine(Parsed(codec, raws[..n]).value, codec.parse(raws[n]).value); }
      idx := if IsAct(codec, raws[n]) then before + [n] else before;
    }
  }

  lemma NoPlaces(codec: Codec)
    ensures PicksActions(codec, [], [], [])
  {
  }

  lemma WhatLine(codec: Codec, raw: seq<Byte>)
    ensures IsAct(codec, raw) <==> !Blank(raw) && codec.parse(raw).Some? && codec.parse(raw).value.Act?
    ensures IsHeader(codec, raw) <==> !Blank(raw) && codec.parse(raw).Some? && !codec.parse(raw).value.Act?
  {
    hide Blank;
  }

  // ----- commits -----

  function CommitLines(info: CommitInfo, actions: seq<Action>): seq<Line> {
    [Header(info)] + seq(|actions|, i requires 0 <= i < |actions| => Act(actions[i]))
  }

  method EncodeCommit(codec: Codec, info: CommitInfo, actions: seq<Action>) returns (out: seq<Byte>)
    ensures out == Text(codec, CommitLines(info, actions))
  {
    ghost var lines := CommitLines(info, actions);
    out := codec.print_(Header(info)) + [NEWLINE];
    assert lines[..1] == [Header(info)] && lines[..1][..0] == [];
    for i := 0 to |actions|
      invariant out == Text(codec, lines[..i + 1])
    {
      assert lines[..i + 2][..i + 1] == lines[..i + 1] && lines[i + 1] == Act(actions[i]);
      out := out + codec.print_(Act(actions[i])) + [NEWLINE];
    }
    assert lines[..|lines|] == lines;
  }

  function Actions(lines: seq<Line>): seq<Action> {
    if lines == [] then []
    else
      var before := Actions(lines[..|lines| - 1]);
      match lines[|lines| - 1]
      case Act(action) => before + [action]
      case Header(_) => before
  }

  /** The last header read; an earlier one is overwritten. */
  function LastInfo(lines: seq<Line>): Option<CommitInfo> {
    if lines == [] then None
    else if lines[|lines| - 1].Header? then Some(lines[|lines| - 1].info)
    else LastInfo(lines[..|lines| - 1])
  }

  predicate Understood(lines: seq<Line>) {
    forall line | line in lines && line.Header? :: line.info.format <= FORMAT_VERSION
  }

  /** What a commit body means: every line that is not blank must parse, every header must be
      of a known format, and there must be one. */
  function CommitOf(codec: Codec, bytes: seq<Byte>): Option<(CommitInfo, seq<Action>)> {
    var lines := Parsed(codec, RawLines(bytes));
    if lines.None? || !Understood(lines.value) || LastInfo(lines.value).None? then None
    else Some((LastInfo(lines.value).value, Actions(lines.value)))
  }

  method DecodeCommit(codec: Codec, bytes: seq<Byte>) returns (out: Option<(CommitInfo, seq<Action>)>)
    ensures out == CommitOf(codec, bytes)
  {
    var raws := RawLines(bytes);
    var info: Option<CommitInfo> := None;
    var actions: seq<Action> := [];
    ghost var lines: seq<Line> := [];
    for i := 0 to |raws|
      invariant Parsed(codec, raws[..i]) == Some(lines)
      invariant Understood(lines) && info == LastInfo(lines) && actions == Actions(lines)
    {
      assert raws[..i + 1][..i] == raws[..i];
      if !Blank(raws[i]) {
        var line := codec.parse(raws[i]);
        if line.None? {
          UnparsedStays(codec, raws, i + 1);
          return None;
        }
        assert (lines + [line.value])[..|lines|] == lines;
        lines := lines + [line.value];
        match line.value {
          case Header(ci) =>
            if ci.format > FORMAT_VERSION {
              if Parsed(codec, raws).Some? {
                ParsedExtends(codec, raws, i + 1);
                assert line.value == Parsed(codec, raws).value[|lines| - 1];
                assert line.value in Parsed(codec, raws).value;
              }
              return None;
            }
            info := Some(ci);
          case Act(action) => actions := actions + [action];
        }
      }
    }
    assert raws[..|raws|] == raws;
    if info.None? { return None; }
    out := Some((info.value, actions));
  }

  /** No line that is neither blank nor parses, some header, and none of a format to come. */
  ghost predicate WellFramed(codec: Codec, raws: seq<seq<Byte>>) {
    && (forall i | 0 <= i < |raws| :: Reads(codec, raws[i]))
    && (exists i :: 0 <= i < |raws| && IsHeader(codec, raws[i]))
    && KnownFormats(codec, raws)
  }

  /** The header that counts is the last. */
  ghost predicate Heads(codec: Codec, raws: seq<seq<Byte>>, info: CommitInfo) {
    exists i :: 0 <= i < |raws| && IsHeader(codec, raws[i]) && codec.parse(raws[i]) == Some(Header(info))
                && forall l | i < l < |raws| :: !IsHeader(codec, raws[l])
  }

  /** Every header is of a known format. */
  ghost predicate KnownFormats(codec: Codec, raws: seq<seq<Byte>>) {
    forall i | 0 <= i < |raws| && IsHeader(codec, raws[i]) :: codec.parse(raws[i]).value.info.format <= FORMAT_VERSION
  }

  lemma OneHeaderMore(codec: Codec, raws: seq<seq<Byte>>)
    requires raws != []
    ensures var n := |raws| - 1;
            && (KnownFormats(codec, raws) <==> KnownFormats(codec, raws[..n]) && (IsHeader(codec, raws[n]) ==> codec.parse(raws[n]).value.info.format <= FORMAT_VERSION))
            && (forall info :: !IsHeader(codec, raws[n]) && Heads(codec, raws[..n], info) ==> Heads(codec, raws, info))
            && (IsHeader(codec, raws[n]) ==> Heads(codec, raws, codec.parse(raws[n]).value.info))
  {
    hide Blank;
    var n := |raws| - 1;
    assert forall i | 0 <= i < n :: raws[..n][i] == raws[i];
    forall info | !IsHeader(codec, raws[n]) && Heads(codec, raws[..n], info) ensures Heads(codec, raws, info) {
      var i :| 0 <= i < n && IsHeader(codec, raws[..n][i]) && codec.parse(raws[..n][i]) == Some(Header(info))
               && forall l | i < l < n :: !IsHeader(codec, raws[..n][l]);
      assert IsHeader(codec, raws[i]) && forall l | i < l < n :: raws[l] == raws[..n][l];
    }
  }

  lemma {:induction false} HeadersRead(codec: Codec, raws: seq<seq<Byte>>)
    requires Parsed(codec, raws).Some?
    ensures Understood(Parsed(codec, raws).value) <==> KnownFormats(codec, raws)
    ensures LastInfo(Parsed(codec, raws).value).Some? ==> Heads(codec, raws, LastInfo(Parsed(codec, raws).value).value)
    ensures LastInfo(Parsed(codec, raws).value).None? ==> forall i | 0 <= i < |raws| :: !IsHeader(codec, raws[i])
  {
    hide Blank, IsHeader, Heads, KnownFormats;
    if raws == [] {
      assert KnownFormats(codec, raws) by { NoHeaders(codec); }
    } else {
      var n := |raws| - 1;
      ParsedNext(codec, raws);
      HeadersRead(codec, raws[..n]);
      OneHeaderMore(codec, raws);
      WhatLine(codec, raws[n]);
      if !Blank(raws[n]) { NextLine(Parsed(codec, raws[..n]).value, codec.parse(raws[n]).value); }
      assert forall i | 0 <= i < n :: raws[..n][i] == raws[i];
    }
  }

  lemma NoHeaders(codec: Codec)
    ensures KnownFormats(codec, [])
  {
  }

  /** A body is a commit if and only if every line that is not blank parses, one of them is a
      header, and no header is of a format to come. Its actions are then those of its lines,
      place by place, and its header the last. */
  lemma CommitOfIff(codec: Codec, bytes: seq<Byte>)
    ensures CommitOf(codec, bytes).Some? <==> WellFramed(codec, RawLines(bytes))
    ensures CommitOf(codec, bytes).Some? ==>
              && Heads(codec, RawLines(bytes), CommitOf(codec, bytes).value.0)
              && exists idx :: PicksActions(codec, RawLines(bytes), idx, CommitOf(codec, bytes).value.1)
  {
    hide Blank, Split;
    var raws := RawLines(bytes);
    ParsedIff(codec, raws);
    if Parsed(codec, raws).Some? {
      HeadersRead(codec, raws);
      var acts := ReadsActions(codec, raws);
    }
  }

  /** A commit cut inside a line is refused, unless what is left of the line is blank or parses. */
  lemma CutLineIsRefused(codec: Codec, lines: seq<Line>, part: seq<Byte>)
    requires codec.Valid() && NEWLINE !in part && !Reads(codec, part)
    ensures CommitOf(codec, Text(codec, lines) + part).None?
  {
    assert part != [];
    hide Blank;
    CutLine(codec, lines, part);
    var raws := RawLines(Text(codec, lines) + part);
    assert raws[|raws| - 1] == part;
    CommitOfIff(codec, Text(codec, lines) + part);
  }

  lemma {:induction false} CutLine(codec: Codec, lines: seq<Line>, part: seq<Byte>)
    requires codec.Valid() && NEWLINE !in part && part != []
    ensures RawLines(Text(codec, lines) + part) == Printed(codec, lines) + [part]
  {
    if lines == [] {
      LastLine(part);
      assert [] + part == part;
    } else {
      TextCons(codec, lines);
      assert codec.Sane(lines[0]);
      assert Text(codec, lines) + part == codec.print_(lines[0]) + [NEWLINE] + (Text(codec, lines[1..]) + part);
      SplitLine(codec.print_(lines[0]), Text(codec, lines[1..]) + part);
      CutLine(codec, lines[1..], part);
    }
  }

  lemma {:induction false} CommitLinesMean(info: CommitInfo, actions: seq<Action>)
    ensures Actions(CommitLines(info, actions)) == actions && LastInfo(CommitLines(info, actions)) == Some(info)
    ensures Understood(CommitLines(info, actions)) <==> info.format <= FORMAT_VERSION
  {
    var lines := CommitLines(info, actions);
    var n := |actions|;
    assert lines[0] in lines;
    if n > 0 {
      assert lines[..n] == CommitLines(info, actions[..n - 1]);
      CommitLinesMean(info, actions[..n - 1]);
      assert actions == actions[..n - 1] + [actions[n - 1]];
    }
  }

  /** A commit read back is the commit written, exactly when its format is understood. */
  lemma CommitRoundTrip(codec: Codec, info: CommitInfo, actions: seq<Action>)
    requires codec.Valid()
    ensures CommitOf(codec, Text(codec, CommitLines(info, actions)))
         == if info.format <= FORMAT_VERSION then Some((info, actions)) else None
  {
    LinesRoundTrip(codec, CommitLines(info, actions));
    CommitLinesMean(info, actions);
  }

  /** Nothing in a commit says how long it is: cut after any line it still reads, as a shorter
      one. It is the single conditional PUT that keeps such an object from existing. */
  lemma CutCommitStillReads(codec: Codec, info: CommitInfo, actions: seq<Action>, k: nat)
    requires codec.Valid() && info.format <= FORMAT_VERSION && k <= |actions|
    ensures Text(codec, CommitLines(info, actions[..k])) <= Text(codec, CommitLines(info, actions))
    ensures CommitOf(codec, Text(codec, CommitLines(info, actions[..k]))) == Some((info, actions[..k]))
  {
    CommitRoundTrip(codec, info, actions[..k]);
    assert CommitLines(info, actions[..k]) == CommitLines(info, actions)[..k + 1];
    TextPrefix(codec, CommitLines(info, actions), k + 1);
  }

  lemma {:induction false} TextPrefix(codec: Codec, lines: seq<Line>, k: nat)
    requires k <= |lines|
    ensures Text(codec, lines[..k]) <= Text(codec, lines)
  {
    if k < |lines| {
      TextPrefix(codec, lines[..|lines| - 1], k);
      assert lines[..|lines| - 1][..k] == lines[..k];
    } else {
      assert lines[..k] == lines;
    }
  }

  // ----- checkpoints -----

  function Lifted(p: seq<Action>): seq<Line> {
    seq(|p|, i requires 0 <= i < |p| => Act(p[i]))
  }

  function CheckpointText(codec: Codec, s: State): seq<Byte>
    requires Typed(s)
  {
    Text(codec, Lifted(Dump(s)))
  }

  predicate IsDump(known: Known, lines: seq<Line>) {
    forall line | line in lines :: line.Act? && line.action.Upsert? && Accepts(known, line.action)
  }

  /** What a checkpoint body means to a build: upserts only, of rows it can decode, applied to
      nothing. */
  function StateOf(codec: Codec, known: Known, bytes: seq<Byte>): Option<State> {
    var lines := Parsed(codec, RawLines(bytes));
    if lines.None? || !IsDump(known, lines.value) then None else Some(AfterAll(EMPTY, Actions(lines.value)))
  }

  method DecodeCheckpoint(codec: Codec, known: Known, bytes: seq<Byte>) returns (out: Option<State>)
    ensures out == StateOf(codec, known, bytes)
  {
    hide After, IsSpace, Split;
    var raws := RawLines(bytes);
    var snap := new Snapshot(known);
    ghost var lines: seq<Line> := [];
    for i := 0 to |raws|
      invariant Parsed(codec, raws[..i]) == Some(lines)
      invariant IsDump(known, lines) && snap.Contents() == AfterAll(EMPTY, Actions(lines))
    {
      assert raws[..i + 1][..i] == raws[..i];
      if !Blank(raws[i]) {
        var line := codec.parse(raws[i]);
        if line.None? {
          UnparsedStays(codec, raws, i + 1);
          return None;
        }
        assert (lines + [line.value])[..|lines|] == lines;
        ghost var before := lines;
        lines := lines + [line.value];
        if !(line.value.Act? && line.value.action.Upsert?) {
          NotADump(codec, known, raws, i, lines);
          return None;
        }
        var ok := snap.Apply(line.value.action);
        if !ok {
          NotADump(codec, known, raws, i, lines);
          return None;
        }
        assert Actions(lines) == Actions(before) + [line.value.action];
        AfterAllNext(EMPTY, Actions(before), line.value.action);
      }
    }
    assert raws[..|raws|] == raws;
    out := Some(snap.Contents());
  }

  /** A body is a checkpoint to a build if and only if every line that is not blank parses to an
      upsert it accepts, and its state is those upserts, place by place, applied to nothing. */
  lemma StateOfIff(codec: Codec, known: Known, bytes: seq<Byte>)
    ensures StateOf(codec, known, bytes).Some? <==>
              forall raw | raw in RawLines(bytes) && !Blank(raw) ::
                IsAct(codec, raw) && codec.parse(raw).value.action.Upsert? && Accepts(known, codec.parse(raw).value.action)
    ensures StateOf(codec, known, bytes).Some? ==>
              exists idx, actions :: PicksActions(codec, RawLines(bytes), idx, actions) && StateOf(codec, known, bytes) == Some(AfterAll(EMPTY, actions))
  {
    hide Blank, Split, AfterAll, Accepts, IsDump;
    var raws := RawLines(bytes);
    ParsedIff(codec, raws);
    if Parsed(codec, raws).Some? {
      DumpIff(codec, known, raws);
      var acts := ReadsActions(codec, raws);
    } else {
      var i :| 0 <= i < |raws| && !Reads(codec, raws[i]);
      assert raws[i] in raws;
    }
  }

  lemma {:induction false} DumpIff(codec: Codec, known: Known, raws: seq<seq<Byte>>)
    requires Parsed(codec, raws).Some?
    ensures IsDump(known, Parsed(codec, raws).value) <==>
              forall raw | raw in raws && !Blank(raw) ::
                IsAct(codec, raw) && codec.parse(raw).value.action.Upsert? && Accepts(known, codec.parse(raw).value.action)
  {
    hide Blank, Accepts;
    if raws != [] {
      var n := |raws| - 1;
      ParsedNext(codec, raws);
      DumpIff(codec, known, raws[..n]);
      assert forall raw :: raw in raws <==> raw in raws[..n] || raw == raws[n];
      if !Blank(raws[n]) {
        var before, line := Parsed(codec, raws[..n]).value, codec.parse(raws[n]).value;
        assert forall l :: l in before + [line] <==> l in before || l == line;
      }
    }
  }

  lemma AfterAllNext(s: State, p: seq<Action>, a: Action)
    ensures AfterAll(s, p + [a]) == After(AfterAll(s, p), a)
  {
    assert (p + [a])[..|p|] == p;
  }

  lemma NotADump(codec: Codec, known: Known, raws: seq<seq<Byte>>, i: nat, lines: seq<Line>)
    requires i < |raws| && Parsed(codec, raws[..i + 1]) == Some(lines) && !IsDump(known, lines)
    ensures var all := Parsed(codec, raws); all.None? || !IsDump(known, all.value)
  {
    if Parsed(codec, raws).Some? {
      ParsedExtends(codec, raws, i + 1);
      var line :| line in lines && !(line.Act? && line.action.Upsert? && Accepts(known, line.action));
      assert line in Parsed(codec, raws).value;
    }
  }

  lemma {:induction false} LiftedMean(p: seq<Action>)
    ensures Actions(Lifted(p)) == p
  {
    if p != [] {
      var n := |p| - 1;
      assert Lifted(p)[..n] == Lifted(p[..n]);
      LiftedMean(p[..n]);
      assert p == p[..n] + [p[n]];
    }
  }

  predicate ReadsRows(known: Known, rows: map<Tag, Row>) {
    forall r | r in rows :: known(rows[r])
  }

  /** A checkpoint read back restores every row, with the index recomputed from them, exactly
      when the build can decode every row. */
  lemma CheckpointRoundTrip(codec: Codec, known: Known, s: State)
    requires codec.Valid() && Typed(s)
    ensures StateOf(codec, known, CheckpointText(codec, s)) == if ReadsRows(known, s.rows) then Some(Load(Dump(s))) else None
    ensures Load(Dump(s)).rows == s.rows
  {
    hide Lines, Typed, AfterAll;
    LinesRoundTrip(codec, Lifted(Dump(s)));
    LiftedMean(Dump(s));
    DumpReadable(known, s);
    LoadRestoresRows(s);
  }

  lemma {:induction false} LinesHoldRows(rows: map<Tag, Row>, refs: seq<Tag>)
    requires Listing(rows, refs)
    ensures forall a | a in Lines(rows, refs) :: a.Upsert? && a.Ref() in refs && a.row == rows[a.Ref()]
    ensures forall r | r in refs :: Upsert(r.kind, r.text, rows[r]) in Lines(rows, refs)
  {
    if refs != [] {
      var n := |refs| - 1;
      LinesHoldRows(rows, refs[..n]);
      assert refs == refs[..n] + [refs[n]];
    }
  }

  lemma DumpReadable(known: Known, s: State)
    requires Typed(s)
    ensures IsDump(known, Lifted(Dump(s))) <==> ReadsRows(known, s.rows)
  {
    hide Lines;
    var p := Dump(s);
    LinesReadable(s.rows, Refs(s.rows));
    LinesHoldRows(s.rows, Refs(s.rows));
    forall line | line in Lifted(p) ensures line.Act? && line.action in p && line.action.Upsert? && line.action.Readable() {
      assert line.action in p;
    }
    if IsDump(known, Lifted(p)) {
      forall r | r in s.rows ensures known(s.rows[r]) {
        var a := Upsert(r.kind, r.text, s.rows[r]);
        assert r in Refs(s.rows);
        assert a in p;
        var i :| 0 <= i < |p| && p[i] == a;
        assert Lifted(p)[i] == Act(a);
        assert Act(a) in Lifted(p);
      }
    }
  }

  // ----- writing a checkpoint -----

  function KindText(kind: EntityKind): string {
    [Mark(kind)]
  }

  lemma KindTextIsInjective()
    ensures Ranked(KindText)
  {
    forall a, b | KindText(a) == KindText(b) ensures a == b {
      assert Mark(a) == KindText(a)[0] && Mark(b) == KindText(b)[0];
    }
  }

  /** `kinds.sort()`. */
  function SortedKinds(s: State): (kinds: seq<EntityKind>)
    ensures Ascending(kinds, KindText) && forall k :: k in kinds <==> exists r :: r in s.rows && r.kind == k
  {
    KindTextIsInjective();
    Sort(set r | r in s.rows :: r.kind, KindText)
  }

  /** `ids.sort()` for one kind. */
  function SortedRefs(s: State, kind: EntityKind): (refs: seq<Tag>)
    ensures Ascending(refs, RefText) && forall r :: r in refs <==> r in s.rows && r.kind == kind
  {
    TextIsInjective();
    Sort((set r | r in s.rows && r.kind == kind), RefText)
  }

  function RefText(t: Tag): string { Model.Text(t) }

  ghost predicate Listed(s: State, seen: seq<Tag>, kinds: seq<EntityKind>) {
    Ascending(seen, RefText) && forall r :: r in seen <==> r in s.rows && r.kind in kinds
  }

  lemma KindsAreOrdered(a: Tag, b: Tag)
    requires Less(KindText(a.kind), KindText(b.kind))
    ensures Less(RefText(a), RefText(b))
  {
  }

  /** Kind by kind, and by id inside a kind, is the order of the (kind, id) pairs. */
  lemma ListedNext(s: State, seen: seq<Tag>, kinds: seq<EntityKind>, i: nat)
    requires i < |kinds| && Ascending(kinds, KindText) && Listed(s, seen, kinds[..i])
    ensures Listed(s, seen + SortedRefs(s, kinds[i]), kinds[..i + 1])
  {
    var refs := SortedRefs(s, kinds[i]);
    var all := seen + refs;
    forall x, y | 0 <= x < y < |all| ensures Less(RefText(all[x]), RefText(all[y])) {
      if x < |seen| <= y {
        assert all[x] in seen && all[y] in refs;
        KindsAreOrdered(all[x], all[y]);
      }
    }
    assert kinds[..i + 1] == kinds[..i] + [kinds[i]];
  }

  /** `out` holds the lines of the rows seen so far. */
  ghost predicate Written(codec: Codec, rows: map<Tag, Row>, seen: seq<Tag>, out: seq<Byte>) {
    Listing(rows, seen) && out == Text(codec, Lifted(Lines(rows, seen)))
  }

  lemma NothingWritten(codec: Codec, rows: map<Tag, Row>)
    ensures Written(codec, rows, [], [])
  {
  }

  lemma WrittenNext(codec: Codec, rows: map<Tag, Row>, seen: seq<Tag>, out: seq<Byte>, r: Tag)
    requires Written(codec, rows, seen, out) && r in rows && |r.text| == 36
    ensures Written(codec, rows, seen + [r], out + codec.print_(Act(Upsert(r.kind, r.text, rows[r]))) + [NEWLINE])
  {
    assert (seen + [r])[..|seen|] == seen;
    var lines := Lifted(Lines(rows, seen + [r]));
    assert lines[..|seen|] == Lifted(Lines(rows, seen));
  }

  method EncodeCheckpoint(codec: Codec, s: State) returns (out: seq<Byte>, count: nat)
    requires Typed(s)
    ensures out == CheckpointText(codec, s) && count == |s.rows|
  {
    hide Text, Dump, Listed, Lines, Written, Ascending, SortedKinds, SortedRefs;
    out, count := [], 0;
    var kinds := SortedKinds(s);
    ghost var seen: seq<Tag> := [];
    NothingWritten(codec, s.rows);
    NothingListed(s);
    for i := 0 to |kinds|
      invariant Listed(s, seen, kinds[..i]) && count == |seen| && Written(codec, s.rows, seen, out)
    {
      var refs := SortedRefs(s, kinds[i]);
      ghost var before := seen;
      for j := 0 to |refs|
        invariant seen == before + refs[..j] && count == |seen| && Written(codec, s.rows, seen, out)
      {
        assert refs[j] in refs;
        WrittenNext(codec, s.rows, seen, out, refs[j]);
        out := out + codec.print_(Act(Upsert(refs[j].kind, refs[j].text, s.rows[refs[j]]))) + [NEWLINE];
        count := count + 1;
        seen := seen + [refs[j]];
      }
      assert refs[..|refs|] == refs;
      ListedNext(s, before, kinds, i);
    }
    assert kinds[..|kinds|] == kinds;
    EveryRowWritten(codec, s, seen, out);
  }

  lemma NothingListed(s: State)
    ensures Listed(s, [], [])
  {
  }

  lemma EveryRowWritten(codec: Codec, s: State, seen: seq<Tag>, out: seq<Byte>)
    requires Typed(s) && Listed(s, seen, SortedKinds(s)) && Written(codec, s.rows, seen, out)
    ensures out == CheckpointText(codec, s) && |seen| == |s.rows|
  {
    hide Text, Listed;
    EveryRowListed(s, seen);
  }

  lemma EveryRowListed(s: State, seen: seq<Tag>)
    requires Typed(s) && Listed(s, seen, SortedKinds(s))
    ensures Lines(s.rows, seen) == Dump(s) && |seen| == |s.rows|
  {
    forall r ensures r in seen <==> r in s.rows {
      if r in s.rows { assert r.kind in SortedKinds(s); }
    }
    SortedUnique(seen, Refs(s.rows), Model.Text);
    TextIsInjective();
    assert |Refs(s.rows)| == |s.rows.Keys|;
  }

  // ----- counting lines -----

  function Newlines(bytes: seq<Byte>): nat {
    if bytes == [] then 0 else Newlines(bytes[..|bytes| - 1]) + if bytes[|bytes| - 1] == NEWLINE then 1 else 0
  }

  lemma {:induction false} NewlinesConcat(p: seq<Byte>, q: seq<Byte>)
    ensures Newlines(p + q) == Newlines(p) + Newlines(q)
  {
    if q == [] {
      assert p + q == p;
    } else {
      NewlinesConcat(p, q[..|q| - 1]);
      assert (p + q)[..|p + q| - 1] == p + q[..|q| - 1];
    }
  }

  lemma {:induction false} NoNewlines(p: seq<Byte>)
    requires NEWLINE !in p
    ensures Newlines(p) == 0
  {
    if p != [] { NoNewlines(p[..|p| - 1]); }
  }

  /** One newline per line: the count the writer records is the count the reader takes. */
  lemma {:induction false} NewlinesAreLines(codec: Codec, lines: seq<Line>)
    requires codec.Valid()
    ensures Newlines(Text(codec, lines)) == |lines|
  {
    if lines != [] {
      var n := |lines| - 1;
      NewlinesAreLines(codec, lines[..n]);
      assert codec.Sane(lines[n]);
      var body := codec.print_(lines[n]);
      NoNewlines(body);
      NewlinesConcat(Text(codec, lines[..n]) + body, [NEWLINE]);
      NewlinesConcat(Text(codec, lines[..n]), body);
      assert Newlines([NEWLINE]) == 1 + Newlines([]);
    }
  }

  /** Text made of lines ends in a newline, so cutting anything off loses one. */
  lemma CutLosesALine(codec: Codec, lines: seq<Line>, part: seq<Byte>)
    requires codec.Valid() && part < Text(codec, lines)
    ensures Newlines(part) < Newlines(Text(codec, lines))
  {
    var whole := Text(codec, lines);
    var n := |whole| - 1;
    assert whole[n] == NEWLINE;
    assert whole == part + whole[|part|..];
    NewlinesConcat(part, whole[|part|..]);
  }
}
