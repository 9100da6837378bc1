/** Deriving a trace id from a request id. A request id is a sequence of bytes. */
module TraceIds {
  import opened Wrappers

  type Byte = bv8

  const DASH: Byte := 0x2D

  function Lower(c: Byte): Byte {
    if 0x41 <= c <= 0x5A then c + 0x20 else c
  }

  /** Dashes removed, ASCII letters lowered. No character beyond ASCII lowers to a hex digit, so leaving those
      alone changes nothing about what follows. */
  function Stripped(rid: seq<Byte>): seq<Byte> {
    if rid == [] then [] else Kept(rid[0]) + Stripped(rid[1..])
  }

  function Kept(c: Byte): seq<Byte> {
    if c == DASH then [] else [Lower(c)]
  }

  // ---------------------------------------------------------------- hex

  function HexValue(c: Byte): Option<Byte> {
    if 0x30 <= c <= 0x39 then Some(c - 0x30) else if 0x61 <= c <= 0x66 then Some(c - 0x57) else None
  }

  function HexDecode(s: seq<Byte>): (r: Option<seq<Byte>>)
    ensures r.Some? ==> 2 * |r.value| == |s|
  {
    if s == [] then Some([])
    else if |s| == 1 then None
    else
      var hi, lo, rest := HexValue(s[0]), HexValue(s[1]), HexDecode(s[2..]);
      if hi.None? || lo.None? || rest.None? then None
      else Some([(hi.value << 4) | lo.value] + rest.value)
  }

  function HexDigit(d: Byte): Byte {
    if d < 10 then 0x30 + d else 0x57 + d
  }

  function HexEncode(bytes: seq<Byte>): (s: seq<Byte>)
    ensures |s| == 2 * |bytes|
  {
    if bytes == [] then [] else [HexDigit(bytes[0] >> 4)] + ([HexDigit(bytes[0] & 0xF)] + HexEncode(bytes[1..]))
  }

  lemma HexDigitValue(b: Byte)
    ensures HexValue(HexDigit(b >> 4)) == Some(b >> 4) && HexValue(HexDigit(b & 0xF)) == Some(b & 0xF)
    ensures ((b >> 4) << 4) | (b & 0xF) == b
    ensures Lower(HexDigit(b >> 4)) == HexDigit(b >> 4) != DASH && Lower(HexDigit(b & 0xF)) == HexDigit(b & 0xF) != DASH
  {
  }

  lemma {:induction false} DecodeAfterEncode(bytes: seq<Byte>)
    ensures HexDecode(HexEncode(bytes)) == Some(bytes)
  {
    if bytes != [] {
      HexDigitValue(bytes[0]);
      DecodeAfterEncode(bytes[1..]);
      var s := HexEncode(bytes);
      assert s[2..] == HexEncode(bytes[1..]) && s[0] == HexDigit(bytes[0] >> 4) && s[1] == HexDigit(bytes[0] & 0xF);
      assert bytes == [bytes[0]] + bytes[1..];
    }
  }

  lemma StrippedHead(c: Byte, rest: seq<Byte>)
    requires c != DASH && Lower(c) == c
    ensures Stripped([c] + rest) == [c] + Stripped(rest)
  {
    assert ([c] + rest)[1..] == rest;
  }

  lemma EncodeCons(bytes: seq<Byte>)
    requires bytes != []
    ensures HexEncode(bytes) == [HexDigit(bytes[0] >> 4)] + ([HexDigit(bytes[0] & 0xF)] + HexEncode(bytes[1..]))
  {
  }

  lemma {:induction false} StrippedHex(bytes: seq<Byte>)
    ensures Stripped(HexEncode(bytes)) == HexEncode(bytes)
  {
    if bytes != [] {
      EncodeCons(bytes);
      HexDigitValue(bytes[0]);
      hide Stripped, HexEncode, HexDigit, Lower;
      StrippedHex(bytes[1..]);
      var rest := HexEncode(bytes[1..]);
      StrippedHead(HexDigit(bytes[0] >> 4), [HexDigit(bytes[0] & 0xF)] + rest);
      StrippedHead(HexDigit(bytes[0] & 0xF), rest);
    }
  }

  // ---------------------------------------------------------------- the fold

  predicate Zeroes(b: seq<Byte>) {
    forall i :: 0 <= i < |b| ==> b[i] == 0
  }

  function Xor(x: Byte, y: Byte): Byte {
    x ^ y
  }

  /** The XOR of the first n bytes at positions congruent to j modulo 16. */
  function Fold(rid: seq<Byte>, j: nat, n: nat): Byte
    requires n <= |rid|
  {
    if n == 0 then 0
    else if (n - 1) % 16 == j then Xor(Fold(rid, j, n - 1), rid[n - 1])
    else Fold(rid, j, n - 1)
  }

  function Folded(rid: seq<Byte>): seq<Byte> {
    seq(16, j requires 0 <= j < 16 => Fold(rid, j, |rid|))
  }

  const LAST_BIT: seq<Byte> := [0, 0, 0, 0, 0, 0, 0, 0, 0, 0, 0, 0, 0, 0, 0, 1]

  /** The id of a request id that is 32 hex digits, dashes aside, and not zero. */
  function Direct(rid: seq<Byte>): Option<seq<Byte>> {
    var s := Stripped(rid);
    if |s| != 32 || HexDecode(s).None? || Zeroes(HexDecode(s).value) then None else HexDecode(s)
  }

  function TraceId(rid: seq<Byte>): seq<Byte> {
    if Direct(rid).Some? then Direct(rid).value
    else if Zeroes(Folded(rid)) then LAST_BIT
    else Folded(rid)
  }

  method AllZero(b: seq<Byte>) returns (zero: bool)
    ensures zero <==> Zeroes(b)
  {
    for i := 0 to |b|
      invariant Zeroes(b[..i])
    {
      if b[i] != 0 { return false; }
    }
    assert b[..|b|] == b;
    zero := true;
  }

  /** traceIDFromRequestID; the error it guards against cannot occur. */
  method TraceIdFromRequestId(rid: seq<Byte>) returns (r: Result<seq<Byte>>)
    ensures r == Ok(TraceId(rid))
    ensures |r.value| == 16 && !Zeroes(r.value)
  {
    var stripped := Stripped(rid);
    if |stripped| == 32 {
      var decoded := HexDecode(stripped);
      if decoded.Some? {
        var zero := AllZero(decoded.value);
        if !zero { return Ok(decoded.value); }
      }
    }
    var out := new Byte[16](_ => 0);
    for i := 0 to |rid|
      invariant forall j :: 0 <= j < 16 ==> out[j] == Fold(rid, j, i)
    {
      out[i % 16] := out[i % 16] ^ rid[i];
    }
    assert out[..] == Folded(rid);
    var zero := AllZero(out[..]);
    if zero {
      out[15] := 1;
      assert out[..] == LAST_BIT;
    }
    assert out[15] == 1 || !Zeroes(Folded(rid));
    zero := AllZero(out[..]);
    r := if zero then Err("trace: derived trace_id is zero") else Ok(out[..]);
  }

  // ---------------------------------------------------------------- main results

  /** Sixteen bytes, never all zero: a valid trace id by section 3.2.2.3 of W3C Trace Context. */
  lemma TraceIdIsValid(rid: seq<Byte>)
    ensures |TraceId(rid)| == 16 && !Zeroes(TraceId(rid))
  {
    assert LAST_BIT[15] == 1;
  }

  /** A trace id written in lower-case hex gives that trace id back. */
  lemma HexRequestIdIsKept(bytes: seq<Byte>)
    requires |bytes| == 16 && !Zeroes(bytes)
    ensures TraceId(HexEncode(bytes)) == bytes
  {
    DecodeAfterEncode(bytes);
    StrippedHex(bytes);
  }

  lemma StrippedCons(s: seq<Byte>)
    requires s != []
    ensures Stripped(s) == Kept(s[0]) + Stripped(s[1..])
  {
  }

  lemma Associates(a: seq<Byte>, b: seq<Byte>, c: seq<Byte>)
    ensures a + (b + c) == (a + b) + c
  {
  }

  lemma StrippedOne(c: Byte)
    requires c != DASH
    ensures Stripped([c]) == [Lower(c)]
  {
    assert Stripped([]) == [];
    StrippedCons([c]);
    assert [c][1..] == [];
  }

  lemma {:induction false} StrippedConcat(a: seq<Byte>, b: seq<Byte>)
    ensures Stripped(a + b) == Stripped(a) + Stripped(b)
  {
    if a == [] {
      assert a + b == b;
      assert Stripped(a) == [];
    } else {
      assert (a + b)[0] == a[0] && (a + b)[1..] == a[1..] + b;
      StrippedCons(a + b);
      StrippedCons(a);
      hide Stripped, Kept;
      StrippedConcat(a[1..], b);
      Associates(Kept(a[0]), Stripped(a[1..]), Stripped(b));
    }
  }

  /** On the hex path the id depends on the stripped form alone. */
  lemma SameStripped(rid: seq<Byte>, other: seq<Byte>)
    requires Stripped(rid) == Stripped(other) && Direct(rid).Some?
    ensures TraceId(rid) == TraceId(other)
  {
  }

  /** For request ids on the hex path a dash may stand anywhere. */
  lemma DashesDoNotMatter(a: seq<Byte>, b: seq<Byte>)
    requires Direct(a + b).Some?
    ensures TraceId(a + [0x2D] + b) == TraceId(a + b)
  {
    assert Stripped([DASH]) == [];
    StrippedConcat(a, b);
    StrippedConcat(a, [DASH]);
    StrippedConcat(a + [DASH], b);
    hide Stripped;
    assert Stripped(a) + [] == Stripped(a);
    SameStripped(a + b, a + [DASH] + b);
  }

  /** For request ids on the hex path a letter may have either case. */
  lemma CaseDoesNotMatter(a: seq<Byte>, c: Byte, b: seq<Byte>)
    requires 0x41 <= c <= 0x5A && (Direct(a + [c] + b).Some? || Direct(a + [c + 0x20] + b).Some?)
    ensures TraceId(a + [c + 0x20] + b) == TraceId(a + [c] + b)
  {
    hide Stripped;
    var d := c + 0x20;
    UpperLower(c);
    StrippedOne(c);
    StrippedOne(d);
    StrippedConcat(a, [c]);
    StrippedConcat(a, [d]);
    StrippedConcat(a + [c], b);
    StrippedConcat(a + [d], b);
    if Direct(a + [c] + b).Some? {
      SameStripped(a + [c] + b, a + [d] + b);
    } else {
      SameStripped(a + [d] + b, a + [c] + b);
    }
  }

  lemma UpperLower(c: Byte)
    requires 0x41 <= c <= 0x5A
    ensures Lower(c) == Lower(c + 0x20) && c != DASH && c + 0x20 != DASH
  {
  }

  // ---------------------------------------------------------------- the hex path, byte by byte

  /** The byte is the hex digit of the value, a letter in either case. */
  predicate Writes(c: Byte, d: Byte) {
    if d < 10 then c == 0x30 + d else d < 16 && (c == 0x61 + (d - 10) || c == 0x41 + (d - 10))
  }

  /** The bytes other than 0x2D are, in order, the hex digits of the values. */
  predicate Spells(rid: seq<Byte>, digits: seq<Byte>) {
    if rid == [] then digits == []
    else if rid[0] == 0x2D then Spells(rid[1..], digits)
    else digits != [] && Writes(rid[0], digits[0]) && Spells(rid[1..], digits[1..])
  }

  /** The bytes that consecutive pairs of values make up. */
  predicate Pairs(digits: seq<Byte>, bytes: seq<Byte>) {
    && |digits| == 2 * |bytes|
    && forall i :: 0 <= i < |bytes| ==> bytes[i] == (digits[2 * i] << 4) | digits[2 * i + 1]
  }

  lemma DigitWritten(c: Byte, d: Byte)
    requires Writes(c, d)
    ensures c != DASH && HexValue(Lower(c)) == Some(d) && d < 16
  {
  }

  lemma WrittenDigit(c: Byte)
    requires c != DASH && HexValue(Lower(c)).Some?
    ensures Writes(c, HexValue(Lower(c)).value)
  {
  }

  lemma {:induction false} SpelledStripped(rid: seq<Byte>, digits: seq<Byte>)
    requires Spells(rid, digits)
    ensures |Stripped(rid)| == |digits|
    ensures forall i :: 0 <= i < |digits| ==> HexValue(Stripped(rid)[i]) == Some(digits[i])
  {
    if rid != [] {
      if rid[0] == 0x2D {
        SpelledStripped(rid[1..], digits);
      } else {
        DigitWritten(rid[0], digits[0]);
        SpelledStripped(rid[1..], digits[1..]);
        hide HexValue, Lower, Writes;
        assert Stripped(rid) == [Lower(rid[0])] + Stripped(rid[1..]);
      }
    }
  }

  lemma {:induction false} StrippedSpelled(rid: seq<Byte>) returns (digits: seq<Byte>)
    requires forall i :: 0 <= i < |Stripped(rid)| ==> HexValue(Stripped(rid)[i]).Some?
    ensures Spells(rid, digits) && |digits| == |Stripped(rid)|
    ensures forall i :: 0 <= i < |digits| ==> HexValue(Stripped(rid)[i]) == Some(digits[i])
  {
    if rid == [] {
      digits := [];
    } else if rid[0] == DASH {
      assert Stripped(rid) == Stripped(rid[1..]);
      digits := StrippedSpelled(rid[1..]);
    } else {
      var c := rid[0];
      assert Stripped(rid) == [Lower(c)] + Stripped(rid[1..]);
      assert Stripped(rid)[0] == Lower(c);
      assert forall i :: 0 <= i < |Stripped(rid[1..])| ==> Stripped(rid[1..])[i] == Stripped(rid)[i + 1];
      var rest := StrippedSpelled(rid[1..]);
      WrittenDigit(c);
      hide HexValue, Lower, Writes;
      digits := [HexValue(Lower(c)).value] + rest;
      assert digits[1..] == rest;
    }
  }

  /** Decoding succeeds exactly on pairs of hex digits, and gives their bytes. */
  lemma {:induction false} DecodePairs(s: seq<Byte>, digits: seq<Byte>)
    requires |s| == |digits| && |s| % 2 == 0
    requires forall i :: 0 <= i < |s| ==> HexValue(s[i]) == Some(digits[i])
    ensures HexDecode(s).Some? && Pairs(digits, HexDecode(s).value)
  {
    hide HexValue;
    if s != [] {
      DecodePairs(s[2..], digits[2..]);
      var bytes := HexDecode(s).value;
      assert bytes == [(digits[0] << 4) | digits[1]] + HexDecode(s[2..]).value;
      forall i | 0 <= i < |bytes|
        ensures bytes[i] == (digits[2 * i] << 4) | digits[2 * i + 1]
      {
        if i > 0 {
          assert digits[2..][2 * (i - 1)] == digits[2 * i] && digits[2..][2 * (i - 1) + 1] == digits[2 * i + 1];
        }
      }
    }
  }

  lemma {:induction false} DecodedAreDigits(s: seq<Byte>)
    requires HexDecode(s).Some?
    ensures forall i :: 0 <= i < |s| ==> HexValue(s[i]).Some?
  {
    hide HexValue;
    if s != [] {
      DecodedAreDigits(s[2..]);
      assert forall i :: 2 <= i < |s| ==> s[i] == s[2..][i - 2];
    }
  }

  lemma PairsUnique(digits: seq<Byte>, a: seq<Byte>, b: seq<Byte>)
    requires Pairs(digits, a) && Pairs(digits, b)
    ensures a == b
  {
  }

  /** A request id that, dashes aside, spells the 32 hex digits of a non-zero value in any mixture of cases has that
      value as its trace id. */
  lemma SpelledIdIsKept(rid: seq<Byte>, digits: seq<Byte>, bytes: seq<Byte>)
    requires Spells(rid, digits) && |bytes| == 16 && Pairs(digits, bytes) && exists i :: 0 <= i < 16 && bytes[i] != 0
    ensures TraceId(rid) == bytes && Direct(rid) == Some(bytes)
  {
    SpelledStripped(rid, digits);
    DecodePairs(Stripped(rid), digits);
    PairsUnique(digits, HexDecode(Stripped(rid)).value, bytes);
    hide HexDecode, Stripped, Pairs, Spells;
  }

  /** And only those take the hex path. */
  lemma OnlySpelledIdsAreDirect(rid: seq<Byte>)
    requires Direct(rid).Some?
    ensures exists digits :: Spells(rid, digits) && |digits| == 32 && Pairs(digits, Direct(rid).value)
  {
    DecodedAreDigits(Stripped(rid));
    var digits := StrippedSpelled(rid);
    DecodePairs(Stripped(rid), digits);
  }

  // ---------------------------------------------------------------- the fold, bit by bit

  predicate Has(x: Byte, mask: Byte) {
    x & mask != 0
  }

  predicate Congruent(i: int, j: nat) {
    i % 16 == j
  }

  predicate IsBit(mask: Byte) {
    mask in {1, 2, 4, 8, 16, 32, 64, 128}
  }

  /** The positions before n, congruent to j modulo 16, whose byte has the bit set. */
  ghost function Lit(rid: seq<Byte>, j: nat, mask: Byte, n: nat): set<int>
    requires n <= |rid|
  {
    set i | 0 <= i < n && Congruent(i, j) && Has(rid[i], mask)
  }

  lemma XorBit(x: Byte, y: Byte, mask: Byte)
    requires IsBit(mask)
    ensures Has(Xor(x, y), mask) <==> Has(x, mask) != Has(y, mask)
  {
  }

  lemma ZeroBits(x: Byte)
    requires forall mask :: IsBit(mask) ==> !Has(x, mask)
    ensures x == 0
  {
    assert IsBit(1) && IsBit(2) && IsBit(4) && IsBit(8) && IsBit(16) && IsBit(32) && IsBit(64) && IsBit(128);
    assert !Has(x, 1) && !Has(x, 2) && !Has(x, 4) && !Has(x, 8) && !Has(x, 16) && !Has(x, 32) && !Has(x, 64) && !Has(x, 128);
  }

  lemma LitNext(rid: seq<Byte>, j: nat, mask: Byte, n: nat)
    requires 0 < n <= |rid|
    ensures |Lit(rid, j, mask, n)| == |Lit(rid, j, mask, n - 1)| + (if Congruent(n - 1, j) && Has(rid[n - 1], mask) then 1 else 0)
  {
    hide Has, Congruent;
    if Congruent(n - 1, j) && Has(rid[n - 1], mask) {
      assert Lit(rid, j, mask, n) == Lit(rid, j, mask, n - 1) + {n - 1};
    } else {
      assert Lit(rid, j, mask, n) == Lit(rid, j, mask, n - 1);
    }
  }

  lemma NoneLit(rid: seq<Byte>, j: nat, mask: Byte)
    ensures Lit(rid, j, mask, 0) == {} && !Has(0, mask)
  {
  }

  /** The fold is bitwise parity over the residue class. */
  lemma {:induction false} FoldIsParity(rid: seq<Byte>, j: nat, mask: Byte, n: nat)
    requires n <= |rid| && IsBit(mask)
    ensures Has(Fold(rid, j, n), mask) <==> |Lit(rid, j, mask, n)| % 2 == 1
  {
    hide Xor, IsBit, Has, Lit;
    NoneLit(rid, j, mask);
    if n > 0 {
      FoldIsParity(rid, j, mask, n - 1);
      LitNext(rid, j, mask, n);
      XorBit(Fold(rid, j, n - 1), rid[n - 1], mask);
    }
  }

  /** Every bit cancels. */
  ghost predicate AllEven(rid: seq<Byte>) {
    forall j: nat, mask: Byte :: j < 16 && IsBit(mask) ==> |Lit(rid, j, mask, |rid|)| % 2 == 0
  }

  lemma ZeroesIffAllEven(rid: seq<Byte>)
    ensures Zeroes(Folded(rid)) <==> AllEven(rid)
  {
    forall j: nat, mask: Byte | j < 16 && IsBit(mask)
      ensures Has(Folded(rid)[j], mask) <==> |Lit(rid, j, mask, |rid|)| % 2 == 1
    {
      FoldIsParity(rid, j, mask, |rid|);
    }
    hide Fold, Lit;
    assert !Has(0, 1) && forall mask :: !Has(0, mask);
    if AllEven(rid) {
      forall j | 0 <= j < 16
        ensures Folded(rid)[j] == 0
      {
        ZeroBits(Folded(rid)[j]);
      }
    }
  }

  /** Off the hex path a bit of byte j is set exactly when an odd number of the bytes at positions congruent to j
      modulo 16 have it; only if every bit cancels is the id the fixed one. */
  lemma FoldPath(rid: seq<Byte>, j: nat, mask: Byte)
    requires j < 16 && IsBit(mask) && Direct(rid).None?
    ensures if AllEven(rid) then TraceId(rid)[j] == (if j == 15 then 1 else 0)
            else Has(TraceId(rid)[j], mask) <==> |Lit(rid, j, mask, |rid|)| % 2 == 1
  {
    ZeroesIffAllEven(rid);
    FoldIsParity(rid, j, mask, |rid|);
    hide Fold, Lit, AllEven, Direct;
  }

  lemma XorLaws(f: Byte, x: Byte, y: Byte, z: Byte)
    ensures Xor(Xor(Xor(f, x), y), z) == Xor(Xor(Xor(f, z), x), y)
    ensures Xor(Xor(f, x), x) == f && Xor(0, x) == x && Xor(f, 0) == f
    ensures Xor(Xor(f, x), y) == f <==> x == y
  {
  }

  /** Changing byte i of the request id changes byte i modulo 16 of the fold, by exactly the difference, and no
      other byte. */
  lemma {:induction false} OneByteMovesOneByte(rid: seq<Byte>, i: nat, b: Byte, j: nat, n: nat)
    requires i < |rid| && n <= |rid|
    ensures Fold(rid[i := b], j, n) == if j == i % 16 && i < n then Xor(Xor(Fold(rid, j, n), rid[i]), b) else Fold(rid, j, n)
    ensures Fold(rid[i := b], j, n) != Fold(rid, j, n) <==> j == i % 16 && i < n && b != rid[i]
  {
    hide Xor;
    if n > 0 {
      OneByteMovesOneByte(rid, i, b, j, n - 1);
      XorLaws(Fold(rid, j, n - 1), rid[i], b, rid[n - 1]);
    }
    XorLaws(Fold(rid, j, n), rid[i], b, 0);
  }

  /** A request id of at most sixteen bytes that is no hex id is its own trace id, padded with zeros. */
  lemma ShortIdsAreKept(rid: seq<Byte>, j: nat)
    requires j < 16 && |rid| <= 16 && !Zeroes(rid)
    ensures TraceId(rid)[j] == if j < |rid| then rid[j] else 0
  {
    StrippedShorter(rid);
    forall k: nat | k < 16
      ensures Folded(rid)[k] == if k < |rid| then rid[k] else 0
    {
      ShortFold(rid, k, |rid|);
    }
    var i :| 0 <= i < |rid| && rid[i] != 0;
    assert Folded(rid)[i] != 0;
    hide Fold, Stripped;
  }

  lemma {:induction false} ShortFold(rid: seq<Byte>, k: nat, n: nat)
    requires n <= |rid| <= 16
    ensures Fold(rid, k, n) == if k < n then rid[k] else 0
  {
    if n > 0 {
      ShortFold(rid, k, n - 1);
      XorLaws(0, rid[n - 1], 0, 0);
    }
  }

  lemma {:induction false} StrippedShorter(rid: seq<Byte>)
    ensures |Stripped(rid)| <= |rid|
  {
    if rid != [] {
      StrippedShorter(rid[1..]);
    }
  }
}
