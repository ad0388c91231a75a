/**
 The base-32 codec of packages/auth/src/TwoFactorService.ts, against the bit-string reading of section 6 of
 RFC 4648 (without padding): encoding regroups the octets' bits by five, decoding regroups them by eight.

 The accumulator is a 32-bit word that is never masked: old bits are shifted out at the top. `value` is the
 word read as unsigned, so `<<` wraps at 2^32, `>>>` and `&` are division and remainder, and `|` of a value
 smaller than the shift is addition.
 */
module Base32 {
  import opened Wrappers

  type Bits = seq<bool>

  const ALPHABET := "ABCDEFGHIJKLMNOPQRSTUVWXYZ234567"
  const WORD: nat := 0x1_0000_0000

  /** The low `w` bits of `v`, most significant first. */
  ghost function BitsOf(v: nat, w: nat): (b: Bits)
    ensures |b| == w
  {
    if w == 0 then [] else BitsOf(v / 2, w - 1) + [v % 2 == 1]
  }

  ghost function NumberOf(b: Bits): nat {
    if b == [] then 0 else NumberOf(b[..|b| - 1]) * 2 + if b[|b| - 1] then 1 else 0
  }

  /** The bits of a sequence of `w`-bit digits. */
  ghost function Spread(digits: seq<nat>, w: nat): Bits {
    if digits == [] then [] else Spread(digits[..|digits| - 1], w) + BitsOf(digits[|digits| - 1], w)
  }

  ghost function Zeros(n: nat): Bits {
    seq(n, i => false)
  }

  /** Whole groups of `w` bits, read as numbers; a shorter tail is dropped. */
  ghost function Regroup(b: Bits, w: nat): seq<nat>
    requires w > 0
    decreases |b|
  {
    if |b| < w then [] else [NumberOf(b[..w])] + Regroup(b[w..], w)
  }

  function Pow2(n: nat): (p: nat)
    ensures p > 0
  {
    if n == 0 then 1 else 2 * Pow2(n - 1)
  }

  // ---------------------------------------------------------------- 32-bit word operations

  function Shl(v: nat, n: nat): nat {
    (v * Pow2(n)) % WORD
  }

  function Shr(v: nat, n: nat): nat {
    if n == 0 then v else Shr(v / 2, n - 1)
  }

  function Low(v: nat, n: nat): (r: nat)
    ensures r < Pow2(n)
  {
    v % Pow2(n)
  }

  // ---------------------------------------------------------------- arithmetic of bits

  lemma {:induction false} LowBits(v: nat, n: nat, w: nat)
    requires w <= n
    ensures BitsOf(v % Pow2(n), w) == BitsOf(v, w)
  {
    if w > 0 {
      HalfOfLow(v, n);
      LowBits(v / 2, n - 1, w - 1);
    }
  }

  lemma HalfOfLow(v: nat, n: nat)
    requires n > 0
    ensures v % Pow2(n) / 2 == v / 2 % Pow2(n - 1)
    ensures v % Pow2(n) % 2 == v % 2
  {
    var p := Pow2(n - 1);
    var q, r := v / 2 / p, v / 2 % p;
    assert v == (q * p + r) * 2 + v % 2;
    assert (q * p + r) * 2 == q * (2 * p) + 2 * r;
    Remainder(v, q, 2 * p, 2 * r + v % 2);
  }

  lemma Remainder(v: nat, q: nat, d: nat, r: nat)
    requires d > 0 && r < d && v == q * d + r
    ensures v % d == r && v / d == q
  {
    assert (v / d) * d + v % d == v;
    var k := q - v / d;
    assert k * d == v % d - r;
    if k > 0 {
      AtLeast(k, d);
    } else if k < 0 {
      AtLeast(-k, d);
    }
  }

  lemma AtLeast(k: int, d: int)
    requires k >= 1 && d >= 0
    ensures k * d >= d && -k * d == -(k * d)
  {
  }

  /** Shifting in `m` bits puts them behind the bits that were there. */
  lemma {:induction false} ShiftIn(v: nat, m: nat, d: nat, w: nat)
    requires d < Pow2(m)
    ensures BitsOf(v * Pow2(m) + d, w + m) == BitsOf(v, w) + BitsOf(d, m)
  {
    if m > 0 {
      HalfShifted(v, Pow2(m - 1), d);
      ShiftIn(v, m - 1, d / 2, w);
      assert BitsOf(d, m) == BitsOf(d / 2, m - 1) + [d % 2 == 1];
      Assoc(BitsOf(v, w), BitsOf(d / 2, m - 1), [d % 2 == 1]);
    }
  }

  lemma HalfShifted(v: nat, p: nat, d: nat)
    ensures (v * (2 * p) + d) / 2 == v * p + d / 2 && (v * (2 * p) + d) % 2 == d % 2
  {
    assert v * (2 * p) == 2 * (v * p);
  }

  /** Dropping the low `m` bits. */
  lemma {:induction false} ShiftOut(v: nat, m: nat, w: nat)
    ensures BitsOf(v, w + m) == BitsOf(Shr(v, m), w) + BitsOf(v, m)
  {
    if m > 0 {
      ShiftOut(v / 2, m - 1, w);
    }
  }

  lemma {:induction false} NumberOfBits(v: nat, w: nat)
    requires v < Pow2(w)
    ensures NumberOf(BitsOf(v, w)) == v
  {
    if w > 0 {
      NumberOfBits(v / 2, w - 1);
      assert BitsOf(v, w)[..w - 1] == BitsOf(v / 2, w - 1);
    }
  }

  lemma WordIsPow2()
    ensures WORD == Pow2(32)
  {
    assert Pow2(8) == 256;
    assert Pow2(16) == 65536 by { assert Pow2(12) == 4096; }
    assert Pow2(24) == 16777216 by { assert Pow2(20) == 1048576; }
    assert Pow2(28) == 268435456;
  }

  lemma SmallPowers()
    ensures Pow2(5) == 32 && Pow2(8) == 256
  {
  }

  /** One accumulation step: the pending bits, then the new digit's. */
  lemma Accumulate(v: nat, w: nat, d: nat, m: nat)
    requires d < Pow2(m) && w + m <= 32
    ensures BitsOf(Shl(v, m) + d, w + m) == BitsOf(v, w) + BitsOf(d, m)
  {
    hide *;
    var a := v * Pow2(m);
    ShlIs(v, m);
    WordIsPow2();
    ShiftIn(v, m, d, w);
    LowBits(a + d, 32, w + m);
    LowBits(a % WORD + d, 32, w + m);
    SameRemainder(a, d, WORD);
  }

  lemma ShlIs(v: nat, m: nat)
    ensures Shl(v, m) == v * Pow2(m) % WORD && WORD > 0
  {
  }

  lemma SameRemainder(a: nat, d: nat, n: nat)
    requires n > 0
    ensures (a % n + d) % n == (a + d) % n
  {
    var p, q, r := a / n, (a % n + d) / n, (a % n + d) % n;
    assert a == p * n + a % n && a % n + d == q * n + r;
    Together(p, q, n);
    Remainder(a + d, p + q, n, r);
  }

  lemma Together(p: nat, q: nat, n: nat)
    ensures p * n + q * n == (p + q) * n
  {
  }

  /** Taking the digit at the top of the pending bits. */
  lemma TakeTop(v: nat, w: nat, m: nat)
    ensures BitsOf(v, m + w) == BitsOf(Low(Shr(v, w), m), m) + BitsOf(v, w)
  {
    ShiftOut(v, w, m);
    LowBits(Shr(v, w), m, m);
  }

  lemma {:induction false} SpreadLength(digits: seq<nat>, w: nat)
    ensures |Spread(digits, w)| == |digits| * w
  {
    if digits != [] {
      SpreadLength(digits[..|digits| - 1], w);
      assert |digits| * w == (|digits| - 1) * w + w;
    }
  }

  lemma {:induction false} SpreadAppend(digits: seq<nat>, d: nat, w: nat)
    ensures Spread(digits + [d], w) == Spread(digits, w) + BitsOf(d, w)
  {
    assert (digits + [d])[..|digits|] == digits;
  }

  lemma {:induction false} SpreadFront(d: nat, digits: seq<nat>, w: nat)
    ensures Spread([d] + digits, w) == BitsOf(d, w) + Spread(digits, w)
  {
    if digits == [] {
      assert [d] + digits == [] + [d];
      SpreadAppend([], d, w);
    } else {
      var init, last := digits[..|digits| - 1], digits[|digits| - 1];
      SpreadFront(d, init, w);
      hide BitsOf;
      assert [d] + digits == ([d] + init) + [last];
      SpreadAppend([d] + init, last, w);
      assert digits == init + [last];
      Assoc(BitsOf(d, w), Spread(init, w), BitsOf(last, w));
    }
  }

  /** Regrouping the bits of `w`-bit digits, with fewer than `w` bits after them, gives the digits back. */
  lemma {:induction false} RegroupSpread(digits: seq<nat>, w: nat, tail: Bits)
    requires w > 0 && |tail| < w
    requires forall i :: 0 <= i < |digits| ==> digits[i] < Pow2(w)
    ensures Regroup(Spread(digits, w) + tail, w) == digits
    decreases |digits|
  {
    if digits == [] {
      assert Spread(digits, w) + tail == tail;
    } else {
      hide *;
      var d, rest := digits[0], digits[1..];
      FrontBits(digits, w, tail);
      RegroupHead(Spread(digits, w) + tail, w);
      NumberOfBits(d, w);
      RegroupSpread(rest, w, tail);
      assert digits == [d] + rest;
    }
  }

  lemma FrontBits(digits: seq<nat>, w: nat, tail: Bits)
    requires digits != []
    ensures var b := Spread(digits, w) + tail;
            |b| >= w && b[..w] == BitsOf(digits[0], w) && b[w..] == Spread(digits[1..], w) + tail
  {
    SpreadFront(digits[0], digits[1..], w);
    hide *;
    assert digits == [digits[0]] + digits[1..];
    CutAfter(BitsOf(digits[0], w), Spread(digits[1..], w), tail);
  }

  lemma CutAfter(a: Bits, b: Bits, c: Bits)
    ensures (a + b + c)[..|a|] == a && (a + b + c)[|a|..] == b + c
  {
  }

  // ---------------------------------------------------------------- characters

  function Symbol(d: nat): (c: char)
    requires d < 32
  {
    ALPHABET[d]
  }

  /** `toUpperCase` on the letters the alphabet has. */
  function Upper(c: char): char {
    if 'a' <= c <= 'z' then c - 'a' + 'A' else c
  }

  /** `B32_ALPHABET.indexOf`, after upper-casing. */
  function Digit(c: char): (r: Option<nat>)
    ensures r.Some? ==> r.value < 32
  {
    var u := Upper(c);
    if 'A' <= u <= 'Z' then Some((u - 'A') as nat)
    else if '2' <= u <= '7' then Some((u - '2') as nat + 26)
    else None
  }

  /** A character's digit is its place in the alphabet, and characters outside have none. */
  lemma DigitIsIndex(c: char)
    ensures Digit(c).Some? <==> Upper(c) in ALPHABET
    ensures Digit(c).Some? ==> Symbol(Digit(c).value) == Upper(c)
  {
    SymbolOfDigit(c);
    NoDigitOutside(c);
    hide *;
    if Digit(c).Some? {
      InAlphabet(Digit(c).value);
    }
  }

  lemma InAlphabet(d: nat)
    requires d < 32
    ensures Symbol(d) in ALPHABET
  {
    assert ALPHABET[d] == Symbol(d);
  }

  lemma SymbolOfDigit(c: char)
    ensures Digit(c).Some? ==> Symbol(Digit(c).value) == Upper(c)
  {
  }

  lemma NoDigitOutside(c: char)
    ensures Digit(c).None? ==> Upper(c) !in ALPHABET
  {
  }

  lemma DigitOfSymbol(d: nat)
    requires d < 32
    ensures Digit(Symbol(d)) == Some(d)
  {
  }

  function Symbols(digits: seq<nat>): (s: string)
    requires forall i :: 0 <= i < |digits| ==> digits[i] < 32
    ensures |s| == |digits|
    ensures forall i :: 0 <= i < |s| ==> s[i] == Symbol(digits[i])
  {
    seq(|digits|, i requires 0 <= i < |digits| => Symbol(digits[i]))
  }

  /** The digits of a text; a character outside the alphabet, `=` included, is skipped. */
  function Digits(s: string): (d: seq<nat>)
    ensures forall i :: 0 <= i < |d| ==> d[i] < 32
  {
    if s == [] then []
    else
      var last := Digit(s[|s| - 1]);
      Digits(s[..|s| - 1]) + if last.Some? then [last.value] else []
  }

  lemma SymbolsAppend(digits: seq<nat>, d: nat)
    requires d < 32 && forall i :: 0 <= i < |digits| ==> digits[i] < 32
    ensures Symbols(digits + [d]) == Symbols(digits) + [Symbol(d)]
  {
    hide Symbol;
  }

  lemma DigitsAppend(s: string, c: char)
    ensures Digits(s + [c]) == Digits(s) + if Digit(c).Some? then [Digit(c).value] else []
  {
    hide Digit;
    assert (s + [c])[..|s|] == s;
  }

  lemma {:induction false} DigitsOfSymbols(digits: seq<nat>)
    requires forall i :: 0 <= i < |digits| ==> digits[i] < 32
    ensures Digits(Symbols(digits)) == digits
  {
    if digits != [] {
      hide *;
      var init, last := digits[..|digits| - 1], digits[|digits| - 1];
      assert digits == init + [last];
      DigitsOfSymbols(init);
      SymbolsAppend(init, last);
      DigitsAppend(Symbols(init), Symbol(last));
      DigitOfSymbol(last);
    }
  }

  // ---------------------------------------------------------------- the codec

  lemma Assoc<T>(a: seq<T>, b: seq<T>, c: seq<T>)
    ensures a + (b + c) == a + b + c
  {
  }

  /** Reading one more digit into the accumulator. */
  lemma Absorb(out: seq<nat>, w: nat, value: nat, bits: nat, d: nat, m: nat)
    requires d < Pow2(m) && bits + m <= 32
    ensures Spread(out, w) + BitsOf(Shl(value, m) + d, bits + m) == Spread(out, w) + BitsOf(value, bits) + BitsOf(d, m)
  {
    Accumulate(value, bits, d, m);
    Assoc(Spread(out, w), BitsOf(value, bits), BitsOf(d, m));
  }

  /** Writing out the oldest pending digit. */
  lemma Emit(out: seq<nat>, w: nat, value: nat, bits: nat)
    requires bits >= w
    ensures var d := Low(Shr(value, bits - w), w);
            Spread(out + [d], w) + BitsOf(value, bits - w) == Spread(out, w) + BitsOf(value, bits)
  {
    TakeTop(value, bits - w, w);
    SpreadAppend(out, Low(Shr(value, bits - w), w), w);
    Assoc(Spread(out, w), BitsOf(Low(Shr(value, bits - w), w), w), BitsOf(value, bits - w));
  }

  ghost predicate Octets(b: seq<nat>) {
    forall i :: 0 <= i < |b| ==> b[i] < 256
  }

  function PadLength(n: nat): nat {
    (5 - n % 5) % 5
  }

  /** The bits of the octets, zeros up to a multiple of five, read in fives. */
  ghost function EncodedDigits(b: seq<nat>): seq<nat> {
    Regroup(Spread(b, 8) + Zeros(PadLength(8 * |b|)), 5)
  }

  method Base32Encode(buffer: seq<nat>) returns (output: string)
    requires Octets(buffer)
    ensures Digits(output) == EncodedDigits(buffer)
    ensures |output| == |Digits(output)| == (8 * |buffer| + 4) / 5
    ensures forall i :: 0 <= i < |output| ==> Digit(output[i]).Some?
  {
    hide *;
    var bits: nat, value: nat := 0, 0;
    var digits: seq<nat> := [];
    SmallPowers();
    NothingSpread();
    assert buffer[..0] == [];
    for i := 0 to |buffer|
      invariant 0 <= bits < 5 && (forall k :: 0 <= k < |digits| ==> digits[k] < 32)
      invariant Spread(digits, 5) + BitsOf(value, bits) == Spread(buffer[..i], 8)
    {
      OctetAt(buffer, i);
      Absorb(digits, 5, value, bits, buffer[i], 8);
      SpreadAppend(buffer[..i], buffer[i], 8);
      assert buffer[..i + 1] == buffer[..i] + [buffer[i]];
      value := Shl(value, 8) + buffer[i];
      bits := bits + 8;
      while bits >= 5
        invariant 0 <= bits <= 12 && (forall k :: 0 <= k < |digits| ==> digits[k] < 32)
        invariant Spread(digits, 5) + BitsOf(value, bits) == Spread(buffer[..i + 1], 8)
      {
        Emit(digits, 5, value, bits);
        digits := digits + [Low(Shr(value, bits - 5), 5)];
        bits := bits - 5;
      }
    }
    assert buffer[..|buffer|] == buffer;
    ghost var whole, pending := digits, BitsOf(value, bits);
    if bits > 0 {
      digits := digits + [Low(Shl(value, 5 - bits), 5)];
    }
    Flushed(buffer, whole, value, bits, digits);
    output := Symbols(digits);
  }

  lemma NothingSpread()
    ensures Spread([], 5) + BitsOf(0, 0) == [] == Spread([], 8)
    ensures Spread([], 8) + BitsOf(0, 0) == []
  {
  }

  lemma OctetAt(b: seq<nat>, i: nat)
    requires Octets(b) && i < |b|
    ensures b[i] < 256
  {
  }

  lemma FlushedBits(buffer: seq<nat>, whole: seq<nat>, value: nat, bits: nat, digits: seq<nat>)
    requires bits < 5 && Spread(whole, 5) + BitsOf(value, bits) == Spread(buffer, 8)
    requires digits == if bits > 0 then whole + [Low(Shl(value, 5 - bits), 5)] else whole
    ensures Spread(digits, 5) == Spread(buffer, 8) + Zeros(if bits > 0 then 5 - bits else 0)
  {
    if bits > 0 {
      LastDigit(value, bits);
      SpreadAppend(whole, Low(Shl(value, 5 - bits), 5), 5);
      Assoc(Spread(whole, 5), BitsOf(value, bits), Zeros(5 - bits));
    } else {
      assert BitsOf(value, 0) == [] && Zeros(0) == [];
      assert Spread(whole, 5) + [] == Spread(whole, 5);
    }
  }

  lemma EncodedIs(b: seq<nat>)
    ensures EncodedDigits(b) == Regroup(Spread(b, 8) + Zeros(PadLength(8 * |b|)), 5)
  {
  }

  lemma ZerosLength(n: nat)
    ensures |Zeros(n)| == n
  {
  }

  /** After the last, possibly partial, digit the encoding is the RFC's. */
  lemma Flushed(buffer: seq<nat>, whole: seq<nat>, value: nat, bits: nat, digits: seq<nat>)
    requires bits < 5 && Spread(whole, 5) + BitsOf(value, bits) == Spread(buffer, 8)
    requires digits == if bits > 0 then whole + [Low(Shl(value, 5 - bits), 5)] else whole
    requires forall k :: 0 <= k < |digits| ==> digits[k] < 32
    ensures digits == EncodedDigits(buffer) && |digits| == (8 * |buffer| + 4) / 5
    ensures Digits(Symbols(digits)) == digits && forall i :: 0 <= i < |digits| ==> Digit(Symbols(digits)[i]).Some?
  {
    hide *;
    FlushedBits(buffer, whole, value, bits, digits);
    EncodedIs(buffer);
    ZerosLength(if bits > 0 then 5 - bits else 0);
    SmallPowers();
    SpreadLength(digits, 5);
    SpreadLength(buffer, 8);
    PaddedLength(8 * |buffer|, |digits|, if bits > 0 then 5 - bits else 0);
    RegroupSpread(digits, 5, []);
    assert Spread(digits, 5) + [] == Spread(digits, 5);
    DigitsOfSymbols(digits);
    forall i | 0 <= i < |digits| ensures Digit(Symbols(digits)[i]).Some? {
      DigitOfSymbol(digits[i]);
    }
  }

  /** The final partial group: the pending bits, then zeros. */
  lemma LastDigit(v: nat, w: nat)
    requires 0 < w < 5
    ensures BitsOf(Low(Shl(v, 5 - w), 5), 5) == BitsOf(v, w) + Zeros(5 - w)
  {
    Accumulate(v, w, 0, 5 - w);
    LowBits(Shl(v, 5 - w), 5, 5);
    ZeroBits(5 - w);
  }

  lemma {:induction false} ZeroBits(n: nat)
    ensures BitsOf(0, n) == Zeros(n)
  {
    if n > 0 {
      ZeroBits(n - 1);
    }
  }

  lemma PaddedLength(n: nat, digits: nat, pad: nat)
    requires pad < 5 && digits * 5 == n + pad
    ensures PadLength(n) == pad && digits == (n + 4) / 5
  {
    if pad == 0 {
      assert n % 5 == 0;
    } else {
      assert n == 5 * (digits - 1) + (5 - pad);
      assert n % 5 == 5 - pad;
    }
  }

  method Base32Decode(input: string) returns (output: seq<nat>)
    ensures output == Regroup(Spread(Digits(input), 5), 8)
    ensures Octets(output)
  {
    hide *;
    var bits: nat, value: nat := 0, 0;
    output := [];
    SmallPowers();
    NothingSpread();
    DigitsFrom(input, 0);
    for i := 0 to |input|
      invariant 0 <= bits < 8 && forall k :: 0 <= k < |output| ==> output[k] < 256
      invariant Spread(output, 8) + BitsOf(value, bits) == Spread(Digits(input[..i]), 5)
    {
      DigitsFrom(input, i + 1);
      var idx := Digit(input[i]);
      if idx.None? {
        continue;
      }
      Absorb(output, 8, value, bits, idx.value, 5);
      SpreadAppend(Digits(input[..i]), idx.value, 5);
      value := Shl(value, 5) + idx.value;
      bits := bits + 5;
      if bits >= 8 {
        Emit(output, 8, value, bits);
        output := output + [Low(Shr(value, bits - 8), 8)];
        bits := bits - 8;
      }
    }
    assert input[..|input|] == input;
    RegroupSpread(output, 8, BitsOf(value, bits));
    AreOctets(output);
  }

  lemma DigitsFrom(s: string, i: nat)
    requires i <= |s|
    ensures i == 0 ==> Digits(s[..i]) == []
    ensures i > 0 ==> Digits(s[..i]) == if Digit(s[i - 1]).Some? then Digits(s[..i - 1]) + [Digit(s[i - 1]).value] else Digits(s[..i - 1])
  {
    if i > 0 {
      assert s[..i][..i - 1] == s[..i - 1];
      assert Digits(s[..i - 1]) + [] == Digits(s[..i - 1]);
    }
  }

  lemma AreOctets(b: seq<nat>)
    requires forall i :: 0 <= i < |b| ==> b[i] < 256
    ensures Octets(b)
  {
  }

  /** The bits behind the last whole octet of an encoding are fewer than eight, so decoding drops exactly them. */
  lemma RoundTrip(b: seq<nat>)
    requires Octets(b)
    ensures Regroup(Spread(EncodedDigits(b), 5), 8) == b
  {
    OctetsBelow(b);
    PadFills(8 * |b|);
    EncodedIs(b);
    hide *;
    SmallPowers();
    var pad := PadLength(8 * |b|);
    ZerosLength(pad);
    SpreadLength(b, 8);
    SpreadRegroup(Spread(b, 8) + Zeros(pad), 5, (8 * |b| + pad) / 5);
    RegroupSpread(b, 8, Zeros(pad));
  }

  lemma OctetsBelow(b: seq<nat>)
    requires Octets(b)
    ensures forall i :: 0 <= i < |b| ==> b[i] < 256
  {
  }

  lemma PadFills(n: nat)
    ensures PadLength(n) < 5 && (n + PadLength(n)) % 5 == 0
  {
  }

  lemma {:induction false} SpreadRegroup(b: Bits, w: nat, groups: nat)
    requires w > 0 && |b| == groups * w
    ensures Spread(Regroup(b, w), w) == b
    decreases groups
  {
    if groups == 0 {
      assert Spread([], w) == [] && Regroup(b, w) == [];
    } else {
      hide *;
      OneGroupLess(|b|, groups, w);
      SpreadRegroup(b[w..], w, groups - 1);
      RegroupHead(b, w);
      SpreadFront(NumberOf(b[..w]), Regroup(b[w..], w), w);
      BitsOfNumber(b[..w]);
      TakeAndDrop(b, w);
    }
  }

  lemma TakeAndDrop(b: Bits, w: nat)
    requires w <= |b|
    ensures b[..w] + b[w..] == b
  {
  }

  lemma OneGroupLess(n: nat, groups: nat, w: nat)
    requires n == groups * w && groups > 0
    ensures n >= w && n - w == (groups - 1) * w
  {
  }

  lemma RegroupHead(b: Bits, w: nat)
    requires 0 < w <= |b|
    ensures Regroup(b, w) == [NumberOf(b[..w])] + Regroup(b[w..], w)
  {
  }

  lemma {:induction false} BitsOfNumber(b: Bits)
    ensures BitsOf(NumberOf(b), |b|) == b
  {
    if b != [] {
      BitsOfNumber(b[..|b| - 1]);
      assert b == b[..|b| - 1] + [b[|b| - 1]];
    }
  }

  /** What a user may type around the code: padding, separators and lower case change nothing. */
  lemma {:induction false} JunkIsSkipped(s: string, t: string, junk: string)
    requires forall i :: 0 <= i < |junk| ==> Digit(junk[i]).None?
    ensures Digits(s + junk + t) == Digits(s + t)
    decreases |t|, |junk|
  {
    if t != [] {
      var init := t[..|t| - 1];
      assert (s + junk + t)[..|s + junk + t| - 1] == s + junk + init;
      assert (s + t)[..|s + t| - 1] == s + init;
      JunkIsSkipped(s, init, junk);
    } else if junk != [] {
      var init := junk[..|junk| - 1];
      assert s + junk + t == s + init + [junk[|junk| - 1]];
      assert (s + init + [junk[|junk| - 1]])[..|s + init|] == s + init + [];
      JunkIsSkipped(s, [], init);
      assert s + [] == s;
    } else {
      assert s + junk + t == s + t;
    }
  }

  /** Encoding then decoding returns the buffer, through whatever characters surround the symbols. */
  method EncodeThenDecode(buffer: seq<nat>) returns (decoded: seq<nat>)
    requires Octets(buffer)
    ensures decoded == buffer
  {
    var text := Base32Encode(buffer);
    decoded := Base32Decode(text);
    RoundTrip(buffer);
  }
}
