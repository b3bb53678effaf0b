/** Object keys and integer renderings whose byte-wise order is the numeric order. */
module Keys {
  import opened Order
  import opened Wrappers

  const U64_LIMIT: nat := 0x1_0000_0000_0000_0000
  type U64 = v: nat | v < U64_LIMIT

  const I64_MIN: int := -0x8000_0000_0000_0000
  const I64_MAX: int := 0x7fff_ffff_ffff_ffff

  type I64 = v: int | I64_MIN <= v <= I64_MAX

  // ----- zero-padded digits -----

  function DigitChar(d: nat): char
    requires d < 16
  {
    "0123456789abcdef"[d]
  }

  predicate IsDigit(c: char, base: nat) {
    '0' <= c <= '9' || (base == 16 && 'a' <= c <= 'f')
  }

  function Power(base: nat, width: nat): nat {
    if width == 0 then 1 else base * Power(base, width - 1)
  }

  /** The last `width` digits of `n`; all of them when `n < Power(base, width)`. */
  function Digits(n: nat, base: nat, width: nat): (s: string)
    requires base == 10 || base == 16
    ensures |s| == width
    ensures forall c | c in s :: IsDigit(c, base)
  {
    if width == 0 then "" else Digits(n / base, base, width - 1) + [DigitChar(n % base)]
  }

  lemma QuotientBelow(n: nat, base: nat, width: nat)
    requires base == 10 || base == 16
    requires n < Power(base, width) && width > 0
    ensures n / base < Power(base, width - 1)
  {
    if base == 10 {
      assert Power(base, width) == 10 * Power(base, width - 1);
    } else {
      assert Power(base, width) == 16 * Power(base, width - 1);
    }
  }

  lemma QuotientOrder(n: nat, m: nat, base: nat)
    requires base == 10 || base == 16
    requires n < m
    ensures n / base < m / base || (n / base == m / base && n % base < m % base)
  {
    if base == 10 {
      assert n / 10 <= m / 10;
    } else {
      assert n / 16 <= m / 16;
    }
  }

  lemma DigitsLess(d: nat, e: nat)
    requires d < e < 16
    ensures Less([DigitChar(d)], [DigitChar(e)])
  {
  }

  lemma {:induction false} DigitsAscend(n: nat, m: nat, base: nat, width: nat)
    requires base == 10 || base == 16
    requires n < m < Power(base, width)
    ensures Less(Digits(n, base, width), Digits(m, base, width))
  {
    hide Less;
    assert width > 0;
    QuotientBelow(m, base, width);
    QuotientOrder(n, m, base);
    var high, low := Digits(n / base, base, width - 1), [DigitChar(n % base)];
    var high', low' := Digits(m / base, base, width - 1), [DigitChar(m % base)];
    if n / base == m / base {
      LessAfterPrefix(high, low, low');
      DigitsLess(n % base, m % base);
    } else {
      DigitsAscend(n / base, m / base, base, width - 1);
      assert high != high' by { LessIrreflexive(high); }
      LessBeforeSuffix(high, low, high', low');
    }
  }

  /** Order embedding: the rendering decides the comparison, and so is injective. */
  lemma DigitsOrdered(n: nat, m: nat, base: nat, width: nat)
    requires base == 10 || base == 16
    requires n < Power(base, width) && m < Power(base, width)
    ensures Less(Digits(n, base, width), Digits(m, base, width)) <==> n < m
    ensures Digits(n, base, width) == Digits(m, base, width) <==> n == m
  {
    if n < m {
      DigitsAscend(n, m, base, width);
      LessAsymmetric(Digits(n, base, width), Digits(m, base, width));
    } else if m < n {
      DigitsAscend(m, n, base, width);
      LessAsymmetric(Digits(m, base, width), Digits(n, base, width));
    } else {
      LessIrreflexive(Digits(n, base, width));
    }
  }

  // ----- parsing, as `str::parse` does it -----

  function DigitsValue(s: string): Option<nat> {
    if s == "" then Some(0)
    else
      var high := DigitsValue(s[..|s| - 1]);
      var c := s[|s| - 1];
      if high.Some? && '0' <= c <= '9' then Some(10 * high.value + (c as int - '0' as int)) else None
  }

  function ParseUnsigned(s: string): Option<nat> {
    var body := if |s| > 0 && s[0] == '+' then s[1..] else s;
    if body == "" then None else DigitsValue(body)
  }

  function ParseU64(s: string): Option<U64> {
    var v := ParseUnsigned(s);
    if v.Some? && v.value < U64_LIMIT then Some(v.value) else None
  }

  function ParseI64(s: string): Option<I64> {
    if |s| > 0 && s[0] == '-' then
      var v: Option<nat> := if |s| == 1 then None else DigitsValue(s[1..]);
      if v.Some? && v.value <= -I64_MIN then var m: int := v.value; Some(-m) else None
    else
      var v := ParseUnsigned(s);
      if v.Some? && v.value <= I64_MAX then Some(v.value) else None
  }

  lemma {:induction false} DigitsValueInverts(n: nat, width: nat)
    requires n < Power(10, width)
    ensures DigitsValue(Digits(n, 10, width)) == Some(n)
  {
    if width > 0 {
      DigitsValueInverts(n / 10, width - 1);
      assert Digits(n, 10, width)[..width - 1] == Digits(n / 10, 10, width - 1);
    }
  }

  lemma Powers()
    ensures Power(10, 19) == 10_000_000_000_000_000_000
    ensures Power(10, 20) == 100_000_000_000_000_000_000
    ensures Power(16, 16) == U64_LIMIT
  {
    assert Power(10, 5) == 100_000;
    assert Power(10, 10) == 10_000_000_000;
    assert Power(10, 15) == 1_000_000_000_000_000;
    assert Power(10, 19) == 10_000_000_000_000_000_000;
    assert Power(16, 4) == 0x1_0000;
    assert Power(16, 8) == 0x1_0000_0000;
    assert Power(16, 12) == 0x1_0000_0000_0000;
  }

  // ----- main-log keys (action.rs) -----

  const LOG_PREFIX := "_uc_log/"
  const LAST_CHECKPOINT_KEY := "_uc_log/_last_checkpoint"
  const COMMIT_SUFFIX := ".json"
  const CHECKPOINT_SUFFIX := ".checkpoint.json"

  function CommitKey(version: nat): string {
    LOG_PREFIX + Digits(version, 10, 20) + COMMIT_SUFFIX
  }

  function CheckpointKey(version: nat): string {
    LOG_PREFIX + Digits(version, 10, 20) + CHECKPOINT_SUFFIX
  }

  predicate EndsWith(s: string, suffix: string) {
    |suffix| <= |s| && s[|s| - |suffix|..] == suffix
  }

  function VersionFromKey(key: string): Option<U64> {
    if !(LOG_PREFIX <= key) then None
    else
      var rest := key[|LOG_PREFIX|..];
      if '/' in rest || !EndsWith(rest, COMMIT_SUFFIX) then None
      else
        var stem := rest[..|rest| - |COMMIT_SUFFIX|];
        if EndsWith(stem, ".checkpoint") then None else ParseU64(stem)
  }

  /** `n` without its last `k` decimal digits. */
  function Tens(n: nat, k: nat): nat {
    if k == 0 then n else Tens(n / 10, k - 1)
  }

  lemma {:induction false} DecimalDigitAt(n: nat, width: nat, i: nat)
    requires i < width
    ensures Digits(n, 10, width)[i] == DigitChar(Tens(n, width - 1 - i) % 10)
  {
    if i < width - 1 { DecimalDigitAt(n / 10, width - 1, i); }
  }

  /** A commit's key is its version in twenty decimal digits, the highest first, as a `.json`
      object right under `_uc_log`. */
  lemma CommitKeyText(v: nat, i: nat)
    requires i < 20
    ensures |CommitKey(v)| == 33 && CommitKey(v)[..8] == "_uc_log/" && CommitKey(v)[28..] == ".json"
    ensures CommitKey(v)[8 + i] == "0123456789"[Tens(v, 19 - i) % 10]
  {
    DecimalDigitAt(v, 20, i);
    assert CommitKey(v)[8..28] == Digits(v, 10, 20);
    assert CommitKey(v)[8..28][i] == CommitKey(v)[8 + i];
  }

  // ----- which keys are commits -----

  predicate AllDigits(s: string) {
    forall i | 0 <= i < |s| :: '0' <= s[i] <= '9'
  }

  lemma {:induction false} DigitsValueIff(s: string)
    ensures DigitsValue(s).Some? <==> AllDigits(s)
  {
    if s != "" {
      var n := |s| - 1;
      DigitsValueIff(s[..n]);
      assert forall i | 0 <= i < n :: s[..n][i] == s[i];
      if AllDigits(s[..n]) {
        assert AllDigits(s) <==> '0' <= s[n] <= '9';
      } else {
        var i :| 0 <= i < n && !('0' <= s[..n][i] <= '9');
        assert !('0' <= s[i] <= '9');
      }
    }
  }

  /** Right under the log, a number below 2^64 in decimal digits, any number of them, perhaps
      after a plus sign, and the suffix. */
  predicate SpellsCommit(key: string, sign: string, digits: string, v: U64) {
    && (sign == "" || sign == "+") && digits != "" && AllDigits(digits) && DigitsValue(digits) == Some(v)
    && key == LOG_PREFIX + sign + digits + COMMIT_SUFFIX
  }

  lemma EndsInT(stem: string)
    ensures EndsWith(stem, ".checkpoint") ==> stem[|stem| - 1] == 't'
  {
    if EndsWith(stem, ".checkpoint") { assert stem[|stem| - 11..][10] == 't'; }
  }

  lemma SpelledStem(sign: string, digits: string, v: U64)
    requires (sign == "" || sign == "+") && digits != "" && AllDigits(digits) && DigitsValue(digits) == Some(v)
    ensures var stem := sign + digits; '/' !in stem && !EndsWith(stem, ".checkpoint") && ParseU64(stem) == Some(v)
  {
    var stem := sign + digits;
    assert stem[|stem| - 1] == digits[|digits| - 1];
    EndsInT(stem);
    if sign == "+" { assert stem[1..] == digits; } else { assert stem == digits; }
  }

  lemma SpelledIsRead(key: string, sign: string, digits: string, v: U64)
    requires SpellsCommit(key, sign, digits, v)
    ensures VersionFromKey(key) == Some(v)
  {
    hide DigitsValue, ParseU64, AllDigits;
    var stem := sign + digits;
    SpelledStem(sign, digits, v);
    var rest := key[|LOG_PREFIX|..];
    assert rest == stem + COMMIT_SUFFIX;
    assert rest[..|rest| - 5] == stem && rest[|rest| - 5..] == COMMIT_SUFFIX;
  }

  /** A key is read as the commit of a version if and only if it spells it so: checkpoints, keys
      nested deeper and everything else are not. */
  lemma VersionFromKeyIff(key: string, v: U64)
    ensures VersionFromKey(key) == Some(v) <==> exists sign, digits :: SpellsCommit(key, sign, digits, v)
  {
    if VersionFromKey(key) == Some(v) {
      var rest := key[|LOG_PREFIX|..];
      var stem := rest[..|rest| - 5];
      assert key == LOG_PREFIX + stem + COMMIT_SUFFIX;
      var digits := if stem[0] == '+' then stem[1..] else stem;
      var sign := if stem[0] == '+' then "+" else "";
      assert stem == sign + digits;
      assert key == LOG_PREFIX + sign + digits + COMMIT_SUFFIX;
      DigitsValueIff(digits);
      assert SpellsCommit(key, sign, digits, v);
    }
    forall sign, digits | SpellsCommit(key, sign, digits, v) ensures VersionFromKey(key) == Some(v) { SpelledIsRead(key, sign, digits, v); }
  }

  /** Listing order of commits is version order, over the whole of `u64`. */
  lemma CommitKeysOrdered(v: nat, w: nat)
    requires v < U64_LIMIT && w < U64_LIMIT
    ensures Less(CommitKey(v), CommitKey(w)) <==> v < w
    ensures CommitKey(v) == CommitKey(w) <==> v == w
  {
    Powers();
    DigitsOrdered(v, w, 10, 20);
    var a, b := Digits(v, 10, 20), Digits(w, 10, 20);
    assert CommitKey(v) == LOG_PREFIX + (a + COMMIT_SUFFIX) && CommitKey(w) == LOG_PREFIX + (b + COMMIT_SUFFIX);
    LessAfterPrefix(LOG_PREFIX, a + COMMIT_SUFFIX, b + COMMIT_SUFFIX);
    if v != w {
      LessBeforeSuffix(a, COMMIT_SUFFIX, b, COMMIT_SUFFIX);
      assert CommitKey(v)[8..28] == a && CommitKey(w)[8..28] == b;
    } else {
      LessIrreflexive(CommitKey(v));
    }
  }

  lemma CommitKeyRoundTrip(v: nat)
    requires v < U64_LIMIT
    ensures VersionFromKey(CommitKey(v)) == Some(v)
  {
    Powers();
    DigitsValueInverts(v, 20);
    var digits := Digits(v, 10, 20);
    var rest := CommitKey(v)[|LOG_PREFIX|..];
    assert rest == digits + COMMIT_SUFFIX;
    assert rest[..|rest| - 5] == digits && rest[|rest| - 5..] == COMMIT_SUFFIX;
    assert digits[0] in digits && digits[|digits| - 1] in digits;
  }

  /** A key read as a commit is nested no deeper than the log itself and carries no
      checkpoint suffix; leading zeros and a plus sign are not told apart. */
  lemma NotACommitKey(v: nat)
    ensures VersionFromKey(CheckpointKey(v)) == None
    ensures VersionFromKey(LAST_CHECKPOINT_KEY) == None
  {
    var digits := Digits(v, 10, 20);
    var rest := CheckpointKey(v)[|LOG_PREFIX|..];
    assert rest == digits + CHECKPOINT_SUFFIX;
    if EndsWith(rest, COMMIT_SUFFIX) {
      var stem := rest[..|rest| - 5];
      assert stem[|stem| - 11..] == ".checkpoint";
    }
    assert LAST_CHECKPOINT_KEY[|LOG_PREFIX|..] == "_last_checkpoint";
  }

  // ----- per-table Delta partitions (delta_log.rs) -----

  const TABLES := "_uc_log/tables/"

  function Magnitude(v: int): nat { if v < 0 then -v else v }

  /** `{:020}` of an `i64`: the sign takes one of the twenty places. */
  function PaddedI64(v: I64): string {
    if v < 0 then "-" + Digits(Magnitude(v), 10, 19) else Digits(v, 10, 20)
  }

  function PartitionPrefix(table: string): string {
    TABLES + table + "/"
  }

  function DeltaKey(table: string, version: I64): string {
    PartitionPrefix(table) + PaddedI64(version) + COMMIT_SUFFIX
  }

  /** What `rsplit('/').next()` leaves: everything after the last slash. */
  function LastSegment(key: string): string {
    if '/' in key then LastSegment(key[1..]) else key
  }

  function DeltaVersionFromKey(key: string): Option<I64> {
    var segment := LastSegment(key);
    if EndsWith(segment, COMMIT_SUFFIX) then ParseI64(segment[..|segment| - |COMMIT_SUFFIX|]) else None
  }

  lemma PaddedI64Ordered(v: I64, w: I64)
    requires v < w
    ensures |PaddedI64(v)| == |PaddedI64(w)| == 20
    ensures PaddedI64(v) != PaddedI64(w)
    ensures Less(PaddedI64(v), PaddedI64(w)) <==> 0 <= w
  {
    Powers();
    if 0 <= v {
      DigitsOrdered(v, w, 10, 20);
    } else if 0 <= w {
      assert Digits(w, 10, 20)[0] in Digits(w, 10, 20);
    } else {
      DigitsOrdered(Magnitude(v), Magnitude(w), 10, 19);
      LessAfterPrefix("-", Digits(Magnitude(v), 10, 19), Digits(Magnitude(w), 10, 19));
      LessIrreflexive(PaddedI64(v));
    }
  }

  /** Delta commits list in version order exactly when the larger version is not negative:
      two negative versions of one table come out backwards. */
  lemma DeltaKeysOrdered(table: string, v: I64, w: I64)
    requires v < w
    ensures Less(DeltaKey(table, v), DeltaKey(table, w)) <==> 0 <= w
    ensures DeltaKey(table, v) != DeltaKey(table, w)
  {
    PaddedI64Ordered(v, w);
    var p, a, b := PartitionPrefix(table), PaddedI64(v), PaddedI64(w);
    assert DeltaKey(table, v) == p + (a + COMMIT_SUFFIX) && DeltaKey(table, w) == p + (b + COMMIT_SUFFIX);
    LessAfterPrefix(p, a + COMMIT_SUFFIX, b + COMMIT_SUFFIX);
    LessBeforeSuffix(a, COMMIT_SUFFIX, b, COMMIT_SUFFIX);
    assert (a + COMMIT_SUFFIX)[..20] == a && (b + COMMIT_SUFFIX)[..20] == b;
    assert DeltaKey(table, v)[|p|..] == a + COMMIT_SUFFIX && DeltaKey(table, w)[|p|..] == b + COMMIT_SUFFIX;
  }

  lemma {:induction false} LastSegmentOf(path: string, name: string)
    requires '/' !in name
    ensures LastSegment(path + "/" + name) == name
  {
    var key := path + "/" + name;
    assert key[|path|] == '/';
    if path == "" {
      assert key[1..] == name;
    } else {
      assert key[1..] == path[1..] + "/" + name;
      LastSegmentOf(path[1..], name);
    }
  }

  lemma PaddedI64RoundTrip(v: I64)
    ensures ParseI64(PaddedI64(v)) == Some(v)
    ensures '/' !in PaddedI64(v)
  {
    Powers();
    var text := PaddedI64(v);
    if v < 0 {
      DigitsValueInverts(Magnitude(v), 19);
      assert text[1..] == Digits(Magnitude(v), 10, 19);
    } else {
      DigitsValueInverts(v, 20);
      assert text[0] in text;
    }
  }

  lemma DeltaKeyRoundTrip(table: string, v: I64)
    ensures DeltaVersionFromKey(DeltaKey(table, v)) == Some(v)
  {
    PaddedI64RoundTrip(v);
    var text := PaddedI64(v);
    var name := text + COMMIT_SUFFIX;
    assert '/' !in name;
    assert DeltaKey(table, v) == (TABLES + table) + "/" + name by {
      assert PartitionPrefix(table) == TABLES + table + "/";
    }
    LastSegmentOf(TABLES + table, name);
    assert LastSegment(DeltaKey(table, v)) == name;
    assert name[..|name| - 5] == text && name[|name| - 5..] == COMMIT_SUFFIX;
  }

  /** Partition keys are never replayed as metadata commits. */
  lemma DeltaKeyIsNotACommit(table: string, v: I64)
    ensures LOG_PREFIX <= DeltaKey(table, v) && VersionFromKey(DeltaKey(table, v)) == None
  {
    NestedKeyIsNotACommit(table + "/" + PaddedI64(v) + COMMIT_SUFFIX);
    assert DeltaKey(table, v) == TABLES + (table + "/" + PaddedI64(v) + COMMIT_SUFFIX);
  }

  lemma NestedKeyIsNotACommit(tail: string)
    ensures LOG_PREFIX <= TABLES + tail && VersionFromKey(TABLES + tail) == None
  {
    var key := TABLES + tail;
    assert key[..8] == LOG_PREFIX;
    assert key[8..][6] == '/';
  }

  // ----- integers inside natural keys (mod.rs) -----

  function PadI64(v: I64): string {
    if v < 0 then "-" + Digits(I64_MAX + v + 1, 10, 19) else "0" + Digits(v, 10, 19)
  }

  lemma SameSign(sign: string, n: nat, m: nat)
    requires |sign| == 1 && n <= I64_MAX && m <= I64_MAX
    ensures Less(sign + Digits(n, 10, 19), sign + Digits(m, 10, 19)) <==> n < m
    ensures sign + Digits(n, 10, 19) == sign + Digits(m, 10, 19) <==> n == m
  {
    hide Less, Digits, Power;
    Powers();
    var a, b := Digits(n, 10, 19), Digits(m, 10, 19);
    DigitsOrdered(n, m, 10, 19);
    LessAfterPrefix(sign, a, b);
    assert (sign + a)[1..] == a && (sign + b)[1..] == b;
  }

  /** Fixed width and strictly increasing on all of `i64`; the complement taken for a
      negative value stays inside `i64`, the minimum included. */
  lemma PadI64Ordered(v: I64, w: I64)
    ensures |PadI64(v)| == 20
    ensures v < 0 ==> 0 <= I64_MAX + v + 1 <= I64_MAX
    ensures Less(PadI64(v), PadI64(w)) <==> v < w
    ensures PadI64(v) == PadI64(w) <==> v == w
  {
    hide Less, Digits;
    if v < 0 && w < 0 {
      SameSign("-", I64_MAX + v + 1, I64_MAX + w + 1);
    } else if 0 <= v && 0 <= w {
      SameSign("0", v, w);
    } else {
      SignFirst(if v < 0 then PadI64(v) else PadI64(w), if v < 0 then PadI64(w) else PadI64(v));
    }
  }

  lemma SignFirst(negative: string, other: string)
    requires |negative| > 0 && |other| > 0 && negative[0] == '-' && other[0] == '0'
    ensures Less(negative, other) && !Less(other, negative) && negative != other
  {
  }
}
