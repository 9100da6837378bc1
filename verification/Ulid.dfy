/** The ULID generator of the load-test helpers and the runtime's ULID check. */
module Ulids {
  const ALPHABET := "0123456789ABCDEFGHJKMNPQRSTVWXYZ"

  type Byte = b: int | 0 <= b < 256

  type Digit = d: int | 0 <= d < 32

  /** ^[0-9A-HJKMNP-TV-Z]{26}$ */
  predicate IsUlidChar(c: char) {
    '0' <= c <= '9' || 'A' <= c <= 'H' || c == 'J' || c == 'K' || c == 'M' || c == 'N' || 'P' <= c <= 'T' || 'V' <= c <= 'Z'
  }

  predicate IsUlid(s: string) {
    |s| == 26 && forall i :: 0 <= i < |s| ==> IsUlidChar(s[i])
  }

  function Symbol(d: Digit): char {
    ALPHABET[d]
  }

  lemma SymbolsAscend(d: Digit, e: Digit)
    requires d < e
    ensures IsUlidChar(Symbol(d)) && IsUlidChar(Symbol(e)) && Symbol(d) < Symbol(e)
  {
    assert Symbol(d) as int == 48 + d + (if d < 10 then 0 else if d < 18 then 7 else if d < 20 then 8 else if d < 22 then 9 else if d < 27 then 10 else 11);
    assert Symbol(e) as int == 48 + e + (if e < 10 then 0 else if e < 18 then 7 else if e < 20 then 8 else if e < 22 then 9 else if e < 27 then 10 else 11);
  }

  function Render(ds: seq<Digit>): (s: string)
    ensures |s| == |ds| && forall i :: 0 <= i < |ds| ==> s[i] == Symbol(ds[i])
  {
    if ds == [] then "" else [Symbol(ds[0])] + Render(ds[1..])
  }

  // ---------------------------------------------------------------- numbers

  function Pow(base: nat, n: nat): (p: nat)
    ensures base > 0 ==> p > 0
  {
    if n == 0 then 1 else base * Pow(base, n - 1)
  }

  /** The big-endian number a digit string denotes. */
  function Value(ds: seq<Digit>): nat {
    if ds == [] then 0 else Value(ds[..|ds| - 1]) * 32 + ds[|ds| - 1]
  }

  /** The big-endian number denoted by the first `n` bytes. */
  function BigEndian(bytes: seq<Byte>, n: nat): nat
    requires n <= |bytes|
  {
    if n == 0 then 0 else BigEndian(bytes, n - 1) * 256 + bytes[n - 1]
  }

  /** The last `len` base-32 digits of `n`. */
  function DigitsOf(n: nat, len: nat): (ds: seq<Digit>)
    ensures |ds| == len
  {
    if len == 0 then [] else DigitsOf(n / 32, len - 1) + [n % 32]
  }

  lemma ValueSnoc(ds: seq<Digit>, d: Digit)
    ensures Value(ds + [d]) == Value(ds) * 32 + d
  {
    assert (ds + [d])[..|ds|] == ds;
  }

  /** A digit string is determined by its length and its value. */
  lemma {:induction false} DigitsOfValue(ds: seq<Digit>)
    ensures DigitsOf(Value(ds), |ds|) == ds
  {
    if ds != [] {
      var front := ds[..|ds| - 1];
      DigitsOfValue(front);
      assert ds == front + [ds[|ds| - 1]];
    }
  }

  lemma {:induction false} ValueOfDigits(n: nat, len: nat)
    requires n < Pow(32, len)
    ensures Value(DigitsOf(n, len)) == n
  {
    if len > 0 {
      ValueOfDigits(n / 32, len - 1);
      ValueSnoc(DigitsOf(n / 32, len - 1), n % 32);
    }
  }

  lemma {:induction false} BigEndianInjective(a: seq<Byte>, b: seq<Byte>, n: nat)
    requires n <= |a| && n <= |b| && BigEndian(a, n) == BigEndian(b, n)
    ensures forall i :: 0 <= i < n ==> a[i] == b[i]
  {
    if n > 0 {
      BigEndianInjective(a, b, n - 1);
    }
  }

  lemma {:induction false} BigEndianBound(a: seq<Byte>, n: nat)
    requires n <= |a|
    ensures BigEndian(a, n) < Pow(256, n)
  {
    if n > 0 {
      BigEndianBound(a, n - 1);
    }
  }

  // ---------------------------------------------------------------- the encoders

  method EncodeTime(ms: nat, len: nat) returns (out: string)
    ensures out == Render(DigitsOf(ms, len))
  {
    hide DigitsOf, Render;
    out := "";
    var n := ms;
    ghost var tail: seq<Digit> := [];
    NoDigits(n, [], DigitsOf(n, len));
    for i := 0 to len
      invariant |tail| == i && out == Render(tail)
      invariant DigitsOf(n, len - i) + tail == DigitsOf(ms, len)
    {
      PeelDigit(n, len - i, tail);
      RenderCons(n % 32, tail);
      out := [ALPHABET[n % 32]] + out;
      tail := [n % 32] + tail;
      n := n / 32;
    }
    NoDigits(n, tail, []);
  }

  lemma PeelDigit(n: nat, len: nat, tail: seq<Digit>)
    requires len > 0
    ensures DigitsOf(n, len) + tail == DigitsOf(n / 32, len - 1) + ([n % 32] + tail)
  {
  }

  lemma NoDigits(n: nat, tail: seq<Digit>, head: seq<Digit>)
    ensures DigitsOf(n, 0) + tail == tail && head + [] == head && Render([]) == ""
  {
  }

  lemma RenderCons(d: Digit, tail: seq<Digit>)
    ensures Render([d] + tail) == [Symbol(d)] + Render(tail)
  {
    assert ([d] + tail)[1..] == tail;
  }

  /** The bit operations of the packer on 32-bit words are the arithmetic used below: shifting in a byte,
      reading five bits at an offset (FiveBits), and keeping the low bits (LowBits). */
  lemma BitOperations(a: bv32, b: bv32, x: bv32)
    requires a < 16 && b < 256 && x < 4096
    ensures (a << 8) | b == a * 256 + b < 4096
    ensures (x >> 0) & 0x1F == x % 32 && (x >> 1) & 0x1F == x / 2 % 32 && (x >> 2) & 0x1F == x / 4 % 32
    ensures (x >> 3) & 0x1F == x / 8 % 32 && (x >> 4) & 0x1F == x / 16 % 32 && (x >> 5) & 0x1F == x / 32 % 32
    ensures (x >> 6) & 0x1F == x / 64 % 32 && (x >> 7) & 0x1F == x / 128 % 32
    ensures x & ((1 << 0) - 1) == x % 1 && x & ((1 << 1) - 1) == x % 2 && x & ((1 << 2) - 1) == x % 4
    ensures x & ((1 << 3) - 1) == x % 8 && x & ((1 << 4) - 1) == x % 16
  {
  }

  /** acc & ((1 << bits) - 1) */
  function LowBits(acc: nat, bits: nat): nat
    requires bits <= 12
  {
    if bits == 0 then 0 else if bits == 1 then acc % 2 else if bits == 2 then acc % 4 else if bits == 3 then acc % 8
    else if bits == 4 then acc % 16 else if bits == 5 then acc % 32 else if bits == 6 then acc % 64
    else if bits == 7 then acc % 128 else if bits == 8 then acc % 256 else if bits == 9 then acc % 512
    else if bits == 10 then acc % 1024 else if bits == 11 then acc % 2048 else acc % 4096
  }

  /** (acc >> bits) & 0x1F */
  function FiveBits(acc: nat, bits: nat): Digit
    requires bits <= 7
  {
    if bits == 0 then acc % 32 else if bits == 1 then acc / 2 % 32 else if bits == 2 then acc / 4 % 32
    else if bits == 3 then acc / 8 % 32 else if bits == 4 then acc / 16 % 32 else if bits == 5 then acc / 32 % 32
    else if bits == 6 then acc / 64 % 32 else acc / 128 % 32
  }

  /** v << bits */
  function Shift(v: nat, bits: nat): nat {
    if bits == 0 then v else 2 * Shift(v, bits - 1)
  }

  lemma ShiftNibble(v: nat, bits: nat)
    ensures Shift(v, bits + 4) == 16 * Shift(v, bits)
  {
    assert Shift(v, bits + 2) == 4 * Shift(v, bits);
  }

  lemma ShiftByte(v: nat, bits: nat)
    ensures Shift(v, bits + 8) == 256 * Shift(v, bits)
  {
    ShiftNibble(v, bits);
    ShiftNibble(v, bits + 4);
  }

  lemma {:induction false} ShiftDigit(v: nat, d: Digit, bits: nat)
    ensures Shift(v * 32 + d, bits) == Shift(v, bits + 5) + Shift(d, bits)
  {
    if bits == 0 {
      ShiftNibble(v, 0);
    } else {
      ShiftDigit(v, d, bits - 1);
    }
  }

  lemma ShiftSmall(d: Digit, bits: nat)
    requires bits <= 7
    ensures Shift(d, bits) == d * (if bits == 0 then 1 else if bits == 1 then 2 else if bits == 2 then 4 else if bits == 3 then 8
                                   else if bits == 4 then 16 else if bits == 5 then 32 else if bits == 6 then 64 else 128)
  {
    if bits >= 4 {
      ShiftNibble(d, bits - 4);
    }
  }

  lemma Remainder64(w: nat, a: nat, x: nat)
    requires w == 64 * a + x && x < 64
    ensures w % 64 == x
  {
  }

  lemma Remainder128(w: nat, a: nat, x: nat)
    requires w == 128 * a + x && x < 128
    ensures w % 128 == x
  {
  }

  lemma Remainder256(w: nat, a: nat, x: nat)
    requires w == 256 * a + x && x < 256
    ensures w % 256 == x
  {
  }

  lemma Remainder512(w: nat, a: nat, x: nat)
    requires w == 512 * a + x && x < 512
    ensures w % 512 == x
  {
  }

  lemma Remainder1024(w: nat, a: nat, x: nat)
    requires w == 1024 * a + x && x < 1024
    ensures w % 1024 == x
  {
  }

  lemma Remainder2048(w: nat, a: nat, x: nat)
    requires w == 2048 * a + x && x < 2048
    ensures w % 2048 == x
  {
  }

  lemma Remainder4096(w: nat, a: nat, x: nat)
    requires w == 4096 * a + x && x < 4096
    ensures w % 4096 == x
  {
  }

  lemma Split2(w: nat)
    ensures w % 64 == w / 2 % 32 * 2 + w % 2
  {
    Remainder64(w, w / 2 / 32, 2 * (w / 2 % 32) + w % 2);
  }

  lemma Split4(w: nat)
    ensures w % 128 == w / 4 % 32 * 4 + w % 4
  {
    Remainder128(w, w / 4 / 32, 4 * (w / 4 % 32) + w % 4);
  }

  lemma Split8(w: nat)
    ensures w % 256 == w / 8 % 32 * 8 + w % 8
  {
    Remainder256(w, w / 8 / 32, 8 * (w / 8 % 32) + w % 8);
  }

  lemma Split16(w: nat)
    ensures w % 512 == w / 16 % 32 * 16 + w % 16
  {
    Remainder512(w, w / 16 / 32, 16 * (w / 16 % 32) + w % 16);
  }

  lemma Split32(w: nat)
    ensures w % 1024 == w / 32 % 32 * 32 + w % 32
  {
    Remainder1024(w, w / 32 / 32, 32 * (w / 32 % 32) + w % 32);
  }

  lemma Split64(w: nat)
    ensures w % 2048 == w / 64 % 32 * 64 + w % 64
  {
    Remainder2048(w, w / 64 / 32, 64 * (w / 64 % 32) + w % 64);
  }

  lemma Split128(w: nat)
    ensures w % 4096 == w / 128 % 32 * 128 + w % 128
  {
    Remainder4096(w, w / 128 / 32, 128 * (w / 128 % 32) + w % 128);
  }

  /** The next five bits and the bits below them make up the word's lowest `bits + 5`. */
  lemma SplitWord(word: nat, bits: nat)
    requires bits <= 7
    ensures LowBits(word, bits + 5) == Shift(FiveBits(word, bits), bits) + LowBits(word, bits)
  {
    ShiftSmall(FiveBits(word, bits), bits);
    if bits == 1 {
      Split2(word);
    } else if bits == 2 {
      Split4(word);
    } else if bits == 3 {
      Split8(word);
    } else if bits == 4 {
      Split16(word);
    } else if bits == 5 {
      Split32(word);
    } else if bits == 6 {
      Split64(word);
    } else if bits == 7 {
      Split128(word);
    }
  }

  /** The symbols so far, followed by the low `bits` bits of the accumulator, denote `total`. */
  ghost predicate Packed(ds: seq<Digit>, bits: nat, acc: nat, total: nat) {
    bits <= 12 && Shift(Value(ds), bits) + LowBits(acc, bits) == total
  }

  lemma TakeFive(ds: seq<Digit>, bits: nat, acc: nat, total: nat)
    requires bits <= 7 && Packed(ds, bits + 5, acc, total)
    ensures Packed(ds + [FiveBits(acc, bits)], bits, acc, total)
  {
    SplitWord(acc, bits);
    ValueSnoc(ds, FiveBits(acc, bits));
    ShiftDigit(Value(ds), FiveBits(acc, bits), bits);
  }

  /** Shifting a byte in keeps the accumulator below 2^12 and appends the byte to the number. */
  lemma ShiftIn(ds: seq<Digit>, bits: nat, acc: nat, b: Byte, total: nat)
    requires bits < 5 && Packed(ds, bits, acc, total) && acc == LowBits(acc, bits)
    ensures acc * 256 + b < 4096
    ensures Packed(ds, bits + 8, acc * 256 + b, total * 256 + b)
  {
    ShiftByte(Value(ds), bits);
    assert LowBits(acc * 256 + b, bits + 8) == acc * 256 + b;
  }

  /** The inner loop: emit five bits at a time while there are five. `ds` is the digits behind `out`. */
  method EmitSymbols(out: string, acc: nat, bits: nat, ghost ds: seq<Digit>, ghost total: nat)
    returns (out': string, bits': nat, ghost ds': seq<Digit>)
    requires bits <= 12 && Packed(ds, bits, acc, total) && acc < 4096 && out == Render(ds)
    ensures bits' < 5 && 5 * |ds'| + bits' == 5 * |ds| + bits && out' == Render(ds')
    ensures Packed(ds', bits', acc, total)
  {
    hide Packed, FiveBits, LowBits, Value, Render, Shift;
    out', bits', ds' := out, bits, ds;
    while bits' >= 5
      invariant bits' <= 12 && out' == Render(ds') && 5 * |ds'| + bits' == 5 * |ds| + bits
      invariant Packed(ds', bits', acc, total)
    {
      bits' := bits' - 5;
      var d := FiveBits(acc, bits');
      TakeFive(ds', bits', acc, total);
      RenderSnoc(ds', d);
      out' := out' + [ALPHABET[d]];
      ds' := ds' + [d];
    }
  }

  /** Between bytes: fewer than five bits pending, and the accumulator holds exactly those. */
  ghost predicate Pending(ds: seq<Digit>, bits: nat, acc: nat, total: nat) {
    && bits < 5 && acc < (if bits == 0 then 1 else if bits == 1 then 2 else if bits == 2 then 4 else if bits == 3 then 8 else 16)
    && Shift(Value(ds), bits) + acc == total
  }

  lemma PendingIsPacked(ds: seq<Digit>, bits: nat, acc: nat, total: nat)
    requires bits < 5
    ensures Pending(ds, bits, acc, total) ==> Packed(ds, bits, acc, total) && acc == LowBits(acc, bits)
    ensures Packed(ds, bits, acc, total) ==> Pending(ds, bits, LowBits(acc, bits), total)
  {
  }

  /** One round of the outer loop. */
  method PushByte(out: string, acc: nat, bits: nat, b: Byte, ghost ds: seq<Digit>, ghost total: nat)
    returns (out': string, acc': nat, bits': nat, ghost ds': seq<Digit>)
    requires Pending(ds, bits, acc, total) && out == Render(ds)
    ensures Pending(ds', bits', acc', total * 256 + b) && out' == Render(ds')
    ensures 5 * |ds'| + bits' == 5 * |ds| + bits + 8
  {
    hide Packed, LowBits, Value, Render, Shift;
    PendingIsPacked(ds, bits, acc, total);
    ShiftIn(ds, bits, acc, b, total);
    out', bits', ds' := EmitSymbols(out, acc * 256 + b, bits + 8, ds, total * 256 + b);
    PendingIsPacked(ds', bits', acc * 256 + b, total * 256 + b);
    acc' := LowBits(acc * 256 + b, bits');
  }

  lemma BigEndianNext(bytes: seq<Byte>, i: nat)
    requires i < |bytes|
    ensures BigEndian(bytes, i + 1) == BigEndian(bytes, i) * 256 + bytes[i]
  {
  }

  lemma NothingYet(bytes: seq<Byte>)
    ensures Pending([], 0, 0, 0) && BigEndian(bytes, 0) == 0 && Render([]) == ""
  {
  }

  lemma NothingPending(ds: seq<Digit>, bits: nat, acc: nat, total: nat, n: nat)
    requires Pending(ds, bits, acc, total) && 5 * |ds| + bits == 5 * n
    ensures ds == DigitsOf(total, n)
  {
    DigitsOfValue(ds);
  }

  /** The packing loop: a streaming repacking of bytes into base-32 symbols through a 12-bit accumulator. */
  method EncodeBytes(bytes: seq<Byte>, ghost n: nat) returns (out: string)
    requires 8 * |bytes| == 5 * n
    ensures out == Render(DigitsOf(BigEndian(bytes, |bytes|), n))
  {
    hide Pending, BigEndian, DigitsOf, Value, Render;
    NothingYet(bytes);
    out := "";
    var acc: nat, bits: nat := 0, 0;
    ghost var ds: seq<Digit> := [];
    ghost var total: nat := 0;
    for i := 0 to |bytes|
      invariant 5 * |ds| + bits == 8 * i && out == Render(ds)
      invariant total == BigEndian(bytes, i) && Pending(ds, bits, acc, total)
    {
      BigEndianNext(bytes, i);
      out, acc, bits, ds := PushByte(out, acc, bits, bytes[i], ds, total);
      total := total * 256 + bytes[i];
    }
    NothingPending(ds, bits, acc, total, n);
  }

  /** encodeRandom16 with its entropy as input. */
  method EncodeRandom16(bytes: seq<Byte>) returns (out: string)
    requires |bytes| == 10
    ensures out == Render(DigitsOf(BigEndian(bytes, 10), 16))
  {
    out := EncodeBytes(bytes, 16);
  }

  lemma RenderSnoc(ds: seq<Digit>, d: Digit)
    ensures Render(ds + [d]) == Render(ds) + [Symbol(d)]
  {
  }

  /** newULID with the clock and the entropy as inputs. */
  method NewUlid(ms: nat, bytes: seq<Byte>) returns (id: string)
    requires |bytes| == 10
    ensures id == Ulid(ms, bytes)
  {
    var time := EncodeTime(ms, 10);
    var random := EncodeRandom16(bytes);
    id := time + random;
  }

  function Ulid(ms: nat, bytes: seq<Byte>): string
    requires |bytes| == 10
  {
    Render(DigitsOf(ms, 10)) + Render(DigitsOf(BigEndian(bytes, 10), 16))
  }

  // ---------------------------------------------------------------- main results

  /** The runtime's pattern accepts exactly the 26-symbol strings over the generator's alphabet. */
  lemma PatternIsAlphabet(c: char)
    ensures IsUlidChar(c) <==> c in "0123456789ABCDEFGHJKMNPQRSTVWXYZ"
    ensures forall s :: IsUlid(s) <==> |s| == 26 && forall i :: 0 <= i < 26 ==> IsUlidChar(s[i])
  {
    var a := "0123456789ABCDEFGHJKMNPQRSTVWXYZ";
    if c in a {
      var d :| 0 <= d < |a| && a[d] == c;
    }
    if IsUlidChar(c) {
      var n := c as int;
      assert a[if n < 58 then n - 48 else if n < 73 then n - 55 else if n < 76 then n - 56 else if n < 79 then n - 57 else if n < 85 then n - 58 else n - 59] == c;
    }
  }

  /** Every generated id passes the runtime's check, even when the clock overflows ten digits. */
  lemma UlidIsValid(ms: nat, bytes: seq<Byte>)
    requires |bytes| == 10
    ensures IsUlid(Ulid(ms, bytes))
  {
    forall d: Digit
      ensures IsUlidChar(Symbol(d))
    {
      if d < 31 {
        SymbolsAscend(d, 31);
      } else {
        SymbolsAscend(0, d);
      }
    }
  }

  lemma RenderInjective(a: seq<Digit>, b: seq<Digit>)
    requires Render(a) == Render(b)
    ensures a == b
  {
    forall i | 0 <= i < |a|
      ensures a[i] == b[i]
    {
      assert Render(a)[i] == Render(b)[i];
      if a[i] < b[i] {
        SymbolsAscend(a[i], b[i]);
      } else if b[i] < a[i] {
        SymbolsAscend(b[i], a[i]);
      }
    }
  }

  /** 2^50 milliseconds and 2^80 random values fit their digits. */
  lemma Capacities(bytes: seq<Byte>)
    requires |bytes| == 10
    ensures BigEndian(bytes, 10) < Pow(32, 16)
  {
    BigEndianBound(bytes, 10);
    assert Pow(256, 5) == Pow(32, 8);
    PowAdd(256, 5, 5);
    PowAdd(32, 8, 8);
  }

  lemma Associates(x: nat, y: nat, z: nat)
    ensures x * (y * z) == (x * y) * z
  {
  }

  lemma {:induction false} PowAdd(base: nat, a: nat, b: nat)
    ensures Pow(base, a + b) == Pow(base, a) * Pow(base, b)
  {
    if a > 0 {
      assert Pow(base, a + b) == base * Pow(base, a - 1 + b) && Pow(base, a) == base * Pow(base, a - 1);
      hide Pow;
      PowAdd(base, a - 1, b);
      Associates(base, Pow(base, a - 1), Pow(base, b));
    }
  }

  /** Distinct (time, entropy) pairs give distinct ids while the clock fits ten digits. */
  lemma UlidInjective(ms: nat, bytes: seq<Byte>, ms': nat, bytes': seq<Byte>)
    requires |bytes| == |bytes'| == 10
    requires ms < Pow(32, 10) && ms' < Pow(32, 10)
    requires Ulid(ms, bytes) == Ulid(ms', bytes')
    ensures ms == ms' && bytes == bytes'
  {
    var a, b := Ulid(ms, bytes), Ulid(ms', bytes');
    assert a[..10] == Render(DigitsOf(ms, 10)) && b[..10] == Render(DigitsOf(ms', 10));
    assert a[10..] == Render(DigitsOf(BigEndian(bytes, 10), 16)) && b[10..] == Render(DigitsOf(BigEndian(bytes', 10), 16));
    RenderInjective(DigitsOf(ms, 10), DigitsOf(ms', 10));
    RenderInjective(DigitsOf(BigEndian(bytes, 10), 16), DigitsOf(BigEndian(bytes', 10), 16));
    ValueOfDigits(ms, 10);
    ValueOfDigits(ms', 10);
    Capacities(bytes);
    Capacities(bytes');
    ValueOfDigits(BigEndian(bytes, 10), 16);
    ValueOfDigits(BigEndian(bytes', 10), 16);
    BigEndianInjective(bytes, bytes', 10);
  }

  /** Byte-wise string order, as Go and JavaScript compare strings of equal length. */
  ghost predicate LexLess(s: string, t: string) {
    exists i :: 0 <= i < |s| && i < |t| && s[..i] == t[..i] && s[i] < t[i]
  }

  /** The smaller number differs first in a smaller digit. */
  lemma {:induction false} DigitsOrdered(n: nat, m: nat, len: nat) returns (i: nat)
    requires n < m < Pow(32, len)
    ensures i < len && DigitsOf(n, len)[..i] == DigitsOf(m, len)[..i] && DigitsOf(n, len)[i] < DigitsOf(m, len)[i]
  {
    var a, b := DigitsOf(n / 32, len - 1), DigitsOf(m / 32, len - 1);
    if n / 32 == m / 32 {
      i := len - 1;
      assert DigitsOf(n, len)[..i] == a && DigitsOf(m, len)[..i] == b;
    } else {
      i := DigitsOrdered(n / 32, m / 32, len - 1);
      assert DigitsOf(n, len)[..i] == a[..i] && DigitsOf(m, len)[..i] == b[..i];
    }
  }

  /** An earlier millisecond gives a lexicographically smaller id, whatever the entropy. */
  lemma UlidTimeOrdered(ms: nat, bytes: seq<Byte>, ms': nat, bytes': seq<Byte>)
    requires |bytes| == |bytes'| == 10
    requires ms < ms' < Pow(32, 10)
    ensures LexLess(Ulid(ms, bytes), Ulid(ms', bytes'))
  {
    var i := DigitsOrdered(ms, ms', 10);
    var s, t := Ulid(ms, bytes), Ulid(ms', bytes');
    var a, b := DigitsOf(ms, 10), DigitsOf(ms', 10);
    SymbolsAscend(a[i], b[i]);
    forall j | 0 <= j < i
      ensures s[j] == t[j]
    {
      assert a[j] == a[..i][j] && b[j] == b[..i][j];
    }
    assert s[..i] == t[..i] && s[i] < t[i];
  }
}
