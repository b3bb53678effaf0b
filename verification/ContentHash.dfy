/** The 64-bit FNV-1a hash that guards checkpoint bodies. */
module ContentHash {
  import opened Order
  import opened Keys

  type Byte = b: int | 0 <= b < 256

  const OFFSET: nat := 0xcbf2_9ce4_8422_2325
  const PRIME: nat := 0x0000_0100_0000_01b3
  /** The inverse of the prime modulo 2^64. */
  const INVERSE: nat := 14886173955864302971
  const QUOTIENT: nat := 887285111055

  type Word = h: nat | h < U64_LIMIT

  /** Bitwise exclusive or of the low `n` bits. */
  function Xor(a: nat, b: nat, n: nat): (c: nat) {
    if n == 0 then 0 else 2 * Xor(a / 2, b / 2, n - 1) + if a % 2 == b % 2 then 0 else 1
  }

  lemma {:induction false} XorBound(a: nat, b: nat, n: nat)
    ensures Xor(a, b, n) < Power(2, n)
  {
    if n > 0 { XorBound(a / 2, b / 2, n - 1); }
  }

  lemma LowestBit(x: nat, bit: nat)
    requires bit < 2
    ensures (2 * x + bit) / 2 == x && (2 * x + bit) % 2 == bit
  {
  }

  /** Exclusive or with a fixed operand undoes itself. */
  lemma {:induction false} XorInverts(a: nat, b: nat, n: nat)
    requires a < Power(2, n)
    ensures Xor(Xor(a, b, n), b, n) == a
  {
    if n > 0 {
      XorInverts(a / 2, b / 2, n - 1);
      LowestBit(Xor(a / 2, b / 2, n - 1), if a % 2 == b % 2 then 0 else 1);
    }
  }

  lemma {:induction false} XorSymmetric(a: nat, b: nat, n: nat)
    ensures Xor(a, b, n) == Xor(b, a, n)
  {
    if n > 0 { XorSymmetric(a / 2, b / 2, n - 1); }
  }

  lemma ByteXor(a: Byte, b: Byte)
    ensures 0 <= Xor(a, b, 8) < 256 && Xor(Xor(a, b, 8), b, 8) == a && Xor(Xor(a, b, 8), a, 8) == b
  {
    assert Power(2, 4) == 16;
    assert Power(2, 8) == 256;
    XorBound(a, b, 8);
    XorInverts(a, b, 8);
    XorSymmetric(a, b, 8);
    XorInverts(b, a, 8);
  }

  /** `h ^= b`. */
  function XorByte(h: Word, b: Byte): Word {
    ByteXor(h % 256, b);
    h / 256 * 256 + Xor(h % 256, b, 8)
  }

  /** `h.wrapping_mul(PRIME)`. */
  function Multiply(h: Word): Word {
    h * PRIME % U64_LIMIT
  }

  function Mix(h: Word, b: Byte): Word {
    Multiply(XorByte(h, b))
  }

  function Hash(bytes: seq<Byte>): Word {
    if bytes == [] then OFFSET else Mix(Hash(bytes[..|bytes| - 1]), bytes[|bytes| - 1])
  }

  function Render(h: Word): string {
    Digits(h, 16, 16)
  }

  method ContentHash(bytes: seq<Byte>) returns (text: string)
    ensures text == Render(Hash(bytes))
  {
    var h: Word := OFFSET;
    for i := 0 to |bytes|
      invariant h == Hash(bytes[..i])
    {
      assert bytes[..i + 1][..i] == bytes[..i];
      h := Mix(h, bytes[i]);
    }
    assert bytes[..|bytes|] == bytes;
    text := Render(h);
  }

  /** `n >> 4 * k`. */
  function Shifted(n: nat, k: nat): nat {
    if k == 0 then n else Shifted(n / 16, k - 1)
  }

  lemma {:induction false} HexDigitAt(n: nat, width: nat, i: nat)
    requires i < width
    ensures Digits(n, 16, width)[i] == DigitChar(Shifted(n, width - 1 - i) % 16)
  {
    if i < width - 1 { HexDigitAt(n / 16, width - 1, i); }
  }

  /** Sixteen lower-case hexadecimal digits, the highest first. */
  lemma RendersHex(h: Word, i: nat)
    requires i < 16
    ensures |Render(h)| == 16 && Render(h)[i] == "0123456789abcdef"[Shifted(h, 15 - i) % 16]
  {
    HexDigitAt(h, 16, i);
  }

  lemma KnownXor()
    ensures XorByte(OFFSET, 97) == 0xcbf2_9ce4_8422_2344
  {
    assert Xor(0, 0, 1) == 0 && Xor(0, 1, 2) == 1 && Xor(1, 3, 3) == 2 && Xor(2, 6, 4) == 4;
    assert Xor(4, 12, 5) == 8;
    assert Xor(9, 24, 6) == 17;
    assert Xor(18, 48, 7) == 34;
    assert Xor(37, 97, 8) == 68;
    hide Xor;
    assert OFFSET % 256 == 37 && OFFSET / 256 * 256 + 68 == 0xcbf2_9ce4_8422_2344;
  }

  /** The published values for the empty input and for "a". */
  lemma KnownHashes()
    ensures Hash([]) == 0xcbf2_9ce4_8422_2325 && Hash([97]) == 0xaf63_dc4c_8601_ec8c
  {
    hide XorByte;
    KnownXor();
    assert Multiply(0xcbf2_9ce4_8422_2344) == 0xaf63_dc4c_8601_ec8c;
    assert [97][..0] == [];
  }

  lemma MultiplyInjective(x: Word, y: Word)
    requires Multiply(x) == Multiply(y)
    ensures x == y
  {
    Unscale(x - y, x * PRIME / U64_LIMIT - y * PRIME / U64_LIMIT);
  }

  lemma Unscale(d: int, e: int)
    requires d * PRIME == e * U64_LIMIT && 0 < d + U64_LIMIT && d < U64_LIMIT
    ensures d == 0
  {
    assert PRIME * INVERSE == 1 + QUOTIENT * U64_LIMIT;
    assert d == (e * INVERSE - d * QUOTIENT) * U64_LIMIT;
  }

  lemma XorByteInjective(x: Word, y: Word, b: Byte)
    requires XorByte(x, b) == XorByte(y, b)
    ensures x == y
  {
    ByteXor(x % 256, b);
    ByteXor(y % 256, b);
    SplitWord(x / 256, Xor(x % 256, b, 8), y / 256, Xor(y % 256, b, 8));
  }

  lemma XorByteTellsBytes(h: Word, a: Byte, b: Byte)
    requires XorByte(h, a) == XorByte(h, b)
    ensures a == b
  {
    ByteXor(h % 256, a);
    ByteXor(h % 256, b);
  }

  lemma SplitWord(x: nat, a: nat, y: nat, b: nat)
    requires a < 256 && b < 256 && x * 256 + a == y * 256 + b
    ensures x == y && a == b
  {
  }

  /** Once different, two states stay different while the same bytes are fed to both. */
  lemma {:induction false} DifferenceStays(p: seq<Byte>, q: seq<Byte>, i: nat)
    requires |p| == |q| && i < |p| && p[i] != q[i]
    requires forall j | 0 <= j < |p| && j != i :: p[j] == q[j]
    ensures Hash(p) != Hash(q)
  {
    hide XorByte, Multiply;
    var n := |p| - 1;
    var x, y := Hash(p[..n]), Hash(q[..n]);
    if Mix(x, p[n]) == Mix(y, q[n]) {
      MultiplyInjective(XorByte(x, p[n]), XorByte(y, q[n]));
      if i == n {
        assert p[..n] == q[..n];
        XorByteTellsBytes(x, p[n], q[n]);
      } else {
        XorByteInjective(x, y, p[n]);
        DifferenceStays(p[..n], q[..n], i);
      }
    }
  }

  lemma RenderInjective(x: Word, y: Word)
    requires Render(x) == Render(y)
    ensures x == y
  {
    Powers();
    DigitsOrdered(x, y, 16, 16);
  }

  /** Changing exactly one byte always changes the hash. */
  lemma OneByteChangesHash(p: seq<Byte>, q: seq<Byte>, i: nat)
    requires |p| == |q| && i < |p| && p[i] != q[i]
    requires forall j | 0 <= j < |p| && j != i :: p[j] == q[j]
    ensures Render(Hash(p)) != Render(Hash(q))
  {
    DifferenceStays(p, q, i);
    if Render(Hash(p)) == Render(Hash(q)) { RenderInjective(Hash(p), Hash(q)); }
  }
}
