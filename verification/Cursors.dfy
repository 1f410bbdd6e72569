/** internal/transfer/model/pagination.go: the opaque page cursor. */
module Cursors {
  import opened Int64
  import opened Results

  // ----- Bytes -----

  type Byte = b: int | 0 <= b < 256

  /** The number a little-endian byte string denotes. */
  function FromBytes(bs: seq<Byte>): nat {
    if bs == [] then 0 else bs[0] + 256 * FromBytes(bs[1..])
  }

  /** The low `count` bytes of `n`, least significant first. */
  function ToBytes(n: nat, count: nat): (bs: seq<Byte>)
    ensures |bs| == count
  {
    if count == 0 then [] else [n % 256] + ToBytes(n / 256, count - 1)
  }

  function Pow256(count: nat): nat {
    if count == 0 then 1 else 256 * Pow256(count - 1)
  }

  lemma {:induction false} BytesRoundTrip(n: nat, count: nat)
    requires n < Pow256(count)
    ensures FromBytes(ToBytes(n, count)) == n
  {
    if count > 0 {
      BytesRoundTrip(n / 256, count - 1);
      assert ToBytes(n, count)[1..] == ToBytes(n / 256, count - 1);
    }
  }

  lemma {:induction false} BytesBound(bs: seq<Byte>)
    ensures FromBytes(bs) < Pow256(|bs|)
  {
    if bs != [] {
      BytesBound(bs[1..]);
    }
  }

  /** Go's conversions uint64(x) and int64(u). */
  function Unsigned(x: int64): (u: nat)
    ensures u < MODULUS && Wrap(u) == x
  {
    if x < 0 then x + MODULUS else x
  }

  // ----- base64url without padding (sections 5 and 3.2 of RFC 4648) -----

  type Sextet = d: int | 0 <= d < 64

  function Symbol(d: Sextet): char {
    if d < 26 then 'A' + d as char
    else if d < 52 then 'a' + (d - 26) as char
    else if d < 62 then '0' + (d - 52) as char
    else if d == 62 then '-' else '_'
  }

  predicate IsSymbol(c: char) {
    'A' <= c <= 'Z' || 'a' <= c <= 'z' || '0' <= c <= '9' || c == '-' || c == '_'
  }

  function SextetOf(c: char): (d: Sextet)
    requires IsSymbol(c)
    ensures Symbol(d) == c
  {
    if 'A' <= c <= 'Z' then (c - 'A') as int
    else if 'a' <= c <= 'z' then (c - 'a') as int + 26
    else if '0' <= c <= '9' then (c - '0') as int + 52
    else if c == '-' then 62 else 63
  }

  lemma SymbolRoundTrip(d: Sextet)
    ensures IsSymbol(Symbol(d)) && SextetOf(Symbol(d)) == d
  {
  }

  const UPPER := "ABCDEFGHIJKLMNOPQRSTUVWXYZ"
  const LOWER := "abcdefghijklmnopqrstuvwxyz"
  const DIGITS := "0123456789"

  /** Table 2 of RFC 4648. */
  lemma SymbolsAreTheAlphabet(d: Sextet)
    ensures |UPPER| == |LOWER| == 26 && |DIGITS| == 10
    ensures Symbol(d) ==
      if d < 26 then UPPER[d] else if d < 52 then LOWER[d - 26] else if d < 62 then DIGITS[d - 52]
      else if d == 62 then '-' else '_'
  {
    if d < 26 {
      UpperCase(d);
    } else if d < 52 {
      LowerCase(d - 26);
    }
  }

  lemma UpperCase(d: nat)
    requires d < 26
    ensures |UPPER| == 26 && UPPER[d] == 'A' + d as char
  {
  }

  lemma LowerCase(d: nat)
    requires d < 26
    ensures |LOWER| == 26 && LOWER[d] == 'a' + d as char
  {
  }

  /** The symbols of one quantum: three bytes give four, two give three, one gives two. */
  function Quantum(bs: seq<Byte>): (s: string)
    requires |bs| <= 3
    ensures |s| == if bs == [] then 0 else |bs| + 1
  {
    if |bs| == 0 then ""
    else if |bs| == 1 then [Symbol(bs[0] / 4), Symbol(bs[0] % 4 * 16)]
    else if |bs| == 2 then
      [Symbol(bs[0] / 4), Symbol(bs[0] % 4 * 16 + bs[1] / 16), Symbol(bs[1] % 16 * 4)]
    else
      [Symbol(bs[0] / 4), Symbol(bs[0] % 4 * 16 + bs[1] / 16),
       Symbol(bs[1] % 16 * 4 + bs[2] / 64), Symbol(bs[2] % 64)]
  }

  function Base64(bs: seq<Byte>): string {
    if |bs| <= 3 then Quantum(bs) else Quantum(bs[..3]) + Base64(bs[3..])
  }

  /** Go's decoder skips line breaks wherever they stand. */
  function SkipBreaks(s: string): string {
    if s == "" then ""
    else if s[0] == '\n' || s[0] == '\r' then SkipBreaks(s[1..])
    else [s[0]] + SkipBreaks(s[1..])
  }

  predicate AllSymbols(s: string) {
    forall i :: 0 <= i < |s| ==> IsSymbol(s[i])
  }

  /** The bytes of one quantum; the unused low bits of a short one are not checked. */
  function FromQuantum(s: string): (bs: seq<Byte>)
    requires AllSymbols(s) && |s| <= 4 && |s| != 1
    ensures |bs| == if s == "" then 0 else |s| - 1
  {
    if |s| == 0 then []
    else if |s| == 2 then [SextetOf(s[0]) * 4 + SextetOf(s[1]) / 16]
    else if |s| == 3 then
      [SextetOf(s[0]) * 4 + SextetOf(s[1]) / 16, SextetOf(s[1]) % 16 * 16 + SextetOf(s[2]) / 4]
    else
      [SextetOf(s[0]) * 4 + SextetOf(s[1]) / 16, SextetOf(s[1]) % 16 * 16 + SextetOf(s[2]) / 4,
       SextetOf(s[2]) % 4 * 64 + SextetOf(s[3])]
  }

  function FromSymbols(s: string): (bs: seq<Byte>)
    requires AllSymbols(s) && |s| % 4 != 1
    ensures |bs| == 3 * |s| / 4
  {
    if |s| <= 4 then FromQuantum(s) else FromQuantum(s[..4]) + FromSymbols(s[4..])
  }

  function FromBase64(s: string): Option<seq<Byte>> {
    var t := SkipBreaks(s);
    if AllSymbols(t) && |t| % 4 != 1 then Some(FromSymbols(t)) else None
  }

  function SextetAt(s: string, i: nat): int
    requires i < |s| && IsSymbol(s[i])
  {
    SextetOf(s[i])
  }

  function ByteAt(bs: seq<Byte>, i: nat): int
    requires i < |bs|
  {
    bs[i]
  }

  /** A quantum spells its bytes as one number, the most significant bits first, filled up with
      zero bits on the right. */
  lemma QuantumIsBigEndian(bs: seq<Byte>)
    requires 1 <= |bs| <= 3
    ensures AllSymbols(Quantum(bs))
    ensures |bs| == 1 ==> 64 * SextetAt(Quantum(bs), 0) + SextetAt(Quantum(bs), 1) == 16 * ByteAt(bs, 0)
    ensures |bs| == 2 ==>
      0x1000 * SextetAt(Quantum(bs), 0) + 64 * SextetAt(Quantum(bs), 1) + SextetAt(Quantum(bs), 2)
        == 4 * (0x100 * ByteAt(bs, 0) + ByteAt(bs, 1))
    ensures |bs| == 3 ==>
      0x4_0000 * SextetAt(Quantum(bs), 0) + 0x1000 * SextetAt(Quantum(bs), 1)
        + 64 * SextetAt(Quantum(bs), 2) + SextetAt(Quantum(bs), 3)
        == 0x1_0000 * ByteAt(bs, 0) + 0x100 * ByteAt(bs, 1) + ByteAt(bs, 2)
  {
    QuantumIsSymbols(bs);
  }

  lemma QuantumRoundTrip(bs: seq<Byte>)
    requires |bs| <= 3
    ensures AllSymbols(Quantum(bs)) && FromQuantum(Quantum(bs)) == bs
  {
    QuantumIsSymbols(bs);
    var s := Quantum(bs);
    if |bs| > 0 {
      SymbolRoundTrip(bs[0] / 4);
      assert SextetOf(s[0]) * 4 + SextetOf(s[1]) / 16 == bs[0];
    }
    if |bs| > 1 {
      assert SextetOf(s[1]) % 16 * 16 + SextetOf(s[2]) / 4 == bs[1];
    }
    if |bs| > 2 {
      assert SextetOf(s[2]) % 4 * 64 + SextetOf(s[3]) == bs[2];
    }
  }

  /** The six-bit numbers that a quantum spells. */
  function Sextets(bs: seq<Byte>): (ds: seq<Sextet>)
    requires |bs| <= 3
    ensures |ds| == |Quantum(bs)|
  {
    if |bs| == 0 then []
    else if |bs| == 1 then [bs[0] / 4, bs[0] % 4 * 16]
    else if |bs| == 2 then [bs[0] / 4, bs[0] % 4 * 16 + bs[1] / 16, bs[1] % 16 * 4]
    else [bs[0] / 4, bs[0] % 4 * 16 + bs[1] / 16, bs[1] % 16 * 4 + bs[2] / 64, bs[2] % 64]
  }

  lemma QuantumIsSymbols(bs: seq<Byte>)
    requires |bs| <= 3
    ensures AllSymbols(Quantum(bs))
    ensures forall i :: 0 <= i < |Quantum(bs)| ==> SextetOf(Quantum(bs)[i]) == Sextets(bs)[i]
  {
    forall i | 0 <= i < |Quantum(bs)|
      ensures IsSymbol(Quantum(bs)[i]) && SextetOf(Quantum(bs)[i]) == Sextets(bs)[i]
    {
      SymbolRoundTrip(Sextets(bs)[i]);
      assert Quantum(bs)[i] == Symbol(Sextets(bs)[i]);
    }
  }

  lemma {:induction false} SymbolsRoundTrip(bs: seq<Byte>)
    ensures AllSymbols(Base64(bs)) && |Base64(bs)| == (4 * |bs| + 2) / 3
    ensures FromSymbols(Base64(bs)) == bs
  {
    if |bs| <= 3 {
      QuantumRoundTrip(bs);
    } else {
      QuantumRoundTrip(bs[..3]);
      SymbolsRoundTrip(bs[3..]);
      assert Base64(bs)[..4] == Quantum(bs[..3]) && Base64(bs)[4..] == Base64(bs[3..]);
      assert bs == bs[..3] + bs[3..];
    }
  }

  /** Line breaks go, and nothing else does or moves. */
  lemma {:induction false} OnlyBreaksAreSkipped(s: string, t: string)
    ensures SkipBreaks(s + t) == SkipBreaks(s) + SkipBreaks(t)
    decreases s
  {
    if s == "" {
      assert s + t == t;
    } else {
      var rest := s[1..];
      OnlyBreaksAreSkipped(rest, t);
      SkipOne(s[0], rest);
      SkipOne(s[0], rest + t);
      Regroup([s[0]], rest, t);
      assert s == [s[0]] + rest;
      Regroup(if s[0] == '\r' || s[0] == '\n' then "" else [s[0]], SkipBreaks(rest), SkipBreaks(t));
    }
  }

  lemma Regroup(x: string, y: string, z: string)
    ensures x + (y + z) == (x + y) + z
  {
  }

  lemma SkipOne(c: char, t: string)
    ensures SkipBreaks([c] + t) == (if c == '\r' || c == '\n' then "" else [c]) + SkipBreaks(t)
  {
    assert ([c] + t)[1..] == t;
  }

  lemma {:induction false} SymbolsHaveNoBreaks(s: string)
    requires AllSymbols(s)
    ensures SkipBreaks(s) == s
  {
    if s != "" {
      SymbolsHaveNoBreaks(s[1..]);
    }
  }

  lemma {:induction false} NeverOneLeft(bs: seq<Byte>)
    ensures |Base64(bs)| % 4 != 1
  {
    if |bs| > 3 {
      NeverOneLeft(bs[3..]);
      assert |Base64(bs)| == 4 + |Base64(bs[3..])|;
    }
  }

  lemma Base64RoundTrip(bs: seq<Byte>)
    ensures FromBase64(Base64(bs)) == Some(bs)
  {
    NeverOneLeft(bs);
    SymbolsRoundTrip(bs);
    SymbolsHaveNoBreaks(Base64(bs));
  }

  /** The text with the unused bits of its last symbol cleared. */
  function ClearTail(s: string): string
    requires AllSymbols(s)
  {
    if |s| % 4 == 2 || |s| % 4 == 3 then s[|s| - 1 := Cleared(s[|s| - 1], if |s| % 4 == 2 then 16 else 4)] else s
  }

  /** A symbol without its bits below `unit`. */
  function Cleared(c: char, unit: nat): char
    requires IsSymbol(c) && unit > 0
  {
    var d := SextetOf(c); Symbol(d - d % unit)
  }

  lemma ReencodeQuantum(s: string)
    requires AllSymbols(s) && |s| <= 4 && |s| != 1
    ensures Quantum(FromQuantum(s)) == ClearTail(s)
  {
    if |s| == 2 {
      ReencodeTwo(s);
    } else if |s| == 3 {
      ReencodeThree(s);
    } else if |s| == 4 {
      ReencodeFour(s);
    }
  }

  lemma ReencodeTwo(s: string)
    requires AllSymbols(s) && |s| == 2
    ensures Quantum(FromQuantum(s)) == ClearTail(s)
  {
    var bs := FromQuantum(s);
    assert bs[0] / 4 == SextetOf(s[0]) && bs[0] % 4 == SextetOf(s[1]) / 16;
  }

  lemma ReencodeThree(s: string)
    requires AllSymbols(s) && |s| == 3
    ensures Quantum(FromQuantum(s)) == ClearTail(s)
  {
    var bs := FromQuantum(s);
    assert bs[0] / 4 == SextetOf(s[0]) && bs[0] % 4 == SextetOf(s[1]) / 16;
    assert bs[1] / 16 == SextetOf(s[1]) % 16 && bs[1] % 16 == SextetOf(s[2]) / 4;
  }

  lemma ReencodeFour(s: string)
    requires AllSymbols(s) && |s| == 4
    ensures Quantum(FromQuantum(s)) == ClearTail(s)
  {
    var bs := FromQuantum(s);
    assert bs[0] / 4 == SextetOf(s[0]) && bs[0] % 4 == SextetOf(s[1]) / 16;
    assert bs[1] / 16 == SextetOf(s[1]) % 16 && bs[1] % 16 == SextetOf(s[2]) / 4;
    assert bs[2] / 64 == SextetOf(s[2]) % 4 && bs[2] % 64 == SextetOf(s[3]);
  }

  lemma ClearTailAppend(q: string, s: string)
    requires AllSymbols(q + s) && AllSymbols(s) && |q| == 4
    ensures ClearTail(q + s) == q + ClearTail(s)
  {
    var n := |s|;
    assert |q + s| % 4 == n % 4;
    if n % 4 == 2 {
      LastOfAppend(q, s, Cleared(s[n - 1], 16));
    } else if n % 4 == 3 {
      LastOfAppend(q, s, Cleared(s[n - 1], 4));
    } else {
      assert ClearTail(q + s) == q + s;
    }
  }

  lemma LastOfAppend(q: string, s: string, c: char)
    requires s != ""
    ensures (q + s)[|q + s| - 1] == s[|s| - 1]
    ensures (q + s)[|q + s| - 1 := c] == q + s[|s| - 1 := c]
  {
  }

  lemma FullQuantum(q: string)
    requires AllSymbols(q) && |q| == 4
    ensures |FromQuantum(q)| == 3 && Quantum(FromQuantum(q)) == q
  {
    ReencodeQuantum(q);
  }

  lemma ReencodeFirst(q: string, rest: string, bs: seq<Byte>)
    requires |q| == 4 && AllSymbols(q) && AllSymbols(rest) && Base64(bs) == ClearTail(rest)
    ensures AllSymbols(q + rest) && Base64(FromQuantum(q) + bs) == ClearTail(q + rest)
  {
    FullQuantum(q);
    Base64Append(FromQuantum(q), bs);
    ClearTailAppend(q, rest);
  }

  lemma {:induction false} ReencodeSymbols(s: string)
    requires AllSymbols(s) && |s| % 4 != 1
    ensures Base64(FromSymbols(s)) == ClearTail(s)
  {
    if |s| <= 4 {
      ReencodeQuantum(s);
    } else {
      var q, rest := s[..4], s[4..];
      ReencodeSymbols(rest);
      ReencodeFirst(q, rest, FromSymbols(rest));
      assert s == q + rest;
    }
  }

  lemma Base64Append(q: seq<Byte>, bs: seq<Byte>)
    requires |q| == 3
    ensures Base64(q + bs) == Quantum(q) + Base64(bs)
  {
    if bs == [] {
      assert q + bs == q;
    } else {
      assert (q + bs)[..3] == q && (q + bs)[3..] == bs;
    }
  }

  // ----- Cursors -----

  /** Little-endian: the first byte counts ones, the next 256s, and so on. */
  lemma {:induction false} BytesCount(bs: seq<Byte>, last: Byte)
    ensures FromBytes([last]) == last
    ensures FromBytes(bs + [last]) == FromBytes(bs) + Pow256(|bs|) * last
  {
    assert [last][1..] == [];
    if bs == [] {
      assert bs + [last] == [last];
    } else {
      BytesCount(bs[1..], last);
      assert (bs + [last])[1..] == bs[1..] + [last];
      Times256(Pow256(|bs[1..]|), last);
    }
  }

  lemma Times256(x: nat, y: nat)
    ensures 256 * (x * y) == (256 * x) * y
  {
  }

  /** An instant in nanoseconds since the Unix epoch, and a row id. */
  datatype Cursor = Cursor(createdAt: int, id: int64)

  /** Go's zero time.Time, 1 January of year 1. */
  const ZERO_TIME: int := -62135596800_000000000

  const START := Cursor(ZERO_TIME, 0)

  datatype CursorError = BadText | WrongLength

  function CursorBytes(c: Cursor): (bs: seq<Byte>)
    ensures |bs| == 16
  {
    ToBytes(Unsigned(Wrap(c.createdAt)), 8) + ToBytes(Unsigned(c.id), 8)
  }

  function Encoded(c: Cursor): string {
    Base64(CursorBytes(c))
  }

  function Decoded(s: string): Result<Cursor, CursorError> {
    if s == "" then Ok(START)
    else match FromBase64(s)
      case None => Err(BadText)
      case Some(buf) =>
        if |buf| != 16 then Err(WrongLength)
        else Ok(Cursor(Wrap(FromBytes(buf[0..8])), Wrap(FromBytes(buf[8..16]))))
  }

  /** binary.LittleEndian.PutUint64 into eight cells of a buffer. */
  method PutUint64(buf: array<Byte>, at: nat, v: nat)
    requires at + 8 <= buf.Length
    modifies buf
    ensures buf[at..at + 8] == ToBytes(v, 8)
    ensures buf[..at] == old(buf[..at]) && buf[at + 8..] == old(buf[at + 8..])
  {
    var u := v;
    for i := 0 to 8
      invariant buf[at..at + i] + ToBytes(u, 8 - i) == ToBytes(v, 8)
      invariant buf[..at] == old(buf[..at]) && buf[at + 8..] == old(buf[at + 8..])
    {
      assert ToBytes(u, 8 - i) == [u % 256] + ToBytes(u / 256, 8 - i - 1);
      buf[at + i] := u % 256;
      u := u / 256;
      assert buf[at..at + i + 1] == buf[at..at + i] + [buf[at + i]];
    }
  }

  method EncodeCursor(c: Cursor) returns (s: string)
    ensures s == Encoded(c)
  {
    var buf := new Byte[16](_ => 0);
    PutUint64(buf, 0, Unsigned(Wrap(c.createdAt)));
    ghost var low := buf[..8];
    PutUint64(buf, 8, Unsigned(c.id));
    assert buf[..] == low + buf[8..16];
    s := Base64(buf[..]);
  }

  /** The layout of a cursor text, both ways: sixteen bytes, of which the first eight are the
      instant and the last eight the id, as two's-complement little-endian integers. */
  lemma CursorLayout(c: Cursor)
    ensures FromBase64(Encoded(c)).Some? && HasLayout(FromBase64(Encoded(c)).value, Wrap(c.createdAt), c.id)
  {
    Base64RoundTrip(CursorBytes(c));
    BytesLayout(c);
  }

  lemma BytesLayout(c: Cursor)
    ensures HasLayout(CursorBytes(c), Wrap(c.createdAt), c.id)
  {
    var bs := CursorBytes(c);
    assert bs[0..8] == ToBytes(Unsigned(Wrap(c.createdAt)), 8) && bs[8..16] == ToBytes(Unsigned(c.id), 8);
    assert Pow256(8) == MODULUS;
    BytesRoundTrip(Unsigned(Wrap(c.createdAt)), 8);
    BytesRoundTrip(Unsigned(c.id), 8);
  }

  lemma DecodedLayout(s: string)
    requires s != "" && Decoded(s).Ok?
    ensures FromBase64(s).Some? && HasLayout(FromBase64(s).value, Decoded(s).value.createdAt, Decoded(s).value.id)
  {
  }

  predicate HasLayout(buf: seq<Byte>, nanos: int, id: int) {
    && |buf| == 16 && Fits(nanos) && Fits(id)
    && (FromBytes(buf[0..8]) - nanos) % MODULUS == 0 && (FromBytes(buf[8..16]) - id) % MODULUS == 0
  }

  /** An encoded cursor is 22 plain symbols, and decoding it gives the cursor back exactly when
      its instant is one that int64 nanoseconds can express. */
  lemma CursorRoundTrip(c: Cursor)
    ensures |Encoded(c)| == 22 && AllSymbols(Encoded(c))
    ensures Decoded(Encoded(c)) == Ok(Cursor(Wrap(c.createdAt), c.id))
    ensures Decoded(Encoded(c)) == Ok(c) <==> Fits(c.createdAt)
  {
    var bs := CursorBytes(c);
    SymbolsRoundTrip(bs);
    SymbolsHaveNoBreaks(Base64(bs));
    assert bs[0..8] == ToBytes(Unsigned(Wrap(c.createdAt)), 8);
    assert bs[8..16] == ToBytes(Unsigned(c.id), 8);
    assert Pow256(8) == MODULUS;
    BytesRoundTrip(Unsigned(Wrap(c.createdAt)), 8);
    BytesRoundTrip(Unsigned(c.id), 8);
  }

  /** A non-empty text is accepted exactly when, line breaks aside, it is 22 symbols. What it
      decodes to is never the start marker, and encodes back to that text, line breaks dropped
      and unused bits cleared: so decoding is stable under re-encoding. */
  lemma AcceptedCursor(s: string)
    requires s != ""
    ensures Decoded(s).Ok? <==> |SkipBreaks(s)| == 22 && AllSymbols(SkipBreaks(s))
    ensures Decoded(s).Ok? ==> Fits(Decoded(s).value.createdAt) && Decoded(s).value.createdAt != ZERO_TIME
    ensures Decoded(s).Ok? ==> Encoded(Decoded(s).value) == ClearTail(SkipBreaks(s))
    ensures Decoded(s).Ok? ==> Decoded(Encoded(Decoded(s).value)) == Decoded(s)
  {
    if Decoded(s).Ok? {
      var t, c := SkipBreaks(s), Decoded(s).value;
      var buf := FromSymbols(t);
      assert buf == buf[0..8] + buf[8..16];
      WordsRoundTrip(buf[0..8], buf[8..16]);
      ReencodeSymbols(t);
      CursorRoundTrip(c);
    }
  }

  lemma WordsRoundTrip(low: seq<Byte>, high: seq<Byte>)
    requires |low| == |high| == 8
    ensures CursorBytes(Cursor(Wrap(FromBytes(low)), Wrap(FromBytes(high)))) == low + high
  {
    WordRoundTrip(low);
    WordRoundTrip(high);
  }

  lemma WordRoundTrip(bs: seq<Byte>)
    requires |bs| == 8
    ensures ToBytes(Unsigned(Wrap(FromBytes(bs))), 8) == bs
  {
    BytesBound(bs);
    assert Pow256(8) == MODULUS;
    assert Unsigned(Wrap(FromBytes(bs))) == FromBytes(bs);
    BytesOfNumber(bs);
  }

  lemma {:induction false} BytesOfNumber(bs: seq<Byte>)
    ensures ToBytes(FromBytes(bs), |bs|) == bs
  {
    if bs != [] {
      BytesOfNumber(bs[1..]);
      assert FromBytes(bs) / 256 == FromBytes(bs[1..]) && FromBytes(bs) % 256 == bs[0];
    }
  }
}
