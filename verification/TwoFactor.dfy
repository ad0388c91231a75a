/**
 One-time codes of packages/auth/src/TwoFactorService.ts: HOTP truncation, the TOTP window with its replay
 counter, and single-use recovery codes. HMAC-SHA-1 and SHA-256 are parameters.
 */
module TwoFactor {
  import opened Text
  import Base32
  import opened Wrappers

  /** The 20-byte digest of a key and a message. */
  type Hmac = (seq<nat>, seq<nat>) -> seq<nat>

  ghost predicate Digests(hmac: Hmac) {
    forall key, message :: |hmac(key, message)| == 20 && forall i :: 0 <= i < 20 ==> hmac(key, message)[i] < 256
  }

  const DIGITS: nat := 6
  const CODES: nat := 1000000

  // ---------------------------------------------------------------- HOTP

  /** The low `n` bytes of `c`, big-endian; `n` is 8 for a counter. */
  function BytesOf(c: nat, n: nat): (b: seq<nat>)
    ensures |b| == n && forall i :: 0 <= i < n ==> b[i] < 256
  {
    if n == 0 then [] else BytesOf(c / 256, n - 1) + [c % 256]
  }

  function Hotp(hmac: Hmac, key: seq<nat>, counter: nat): (code: nat)
    requires Digests(hmac)
    ensures code < CODES
  {
    var h := hmac(key, BytesOf(counter, 8));
    var offset := h[19] % 16;
    ((h[offset] % 128) * 0x100_0000 + h[offset + 1] * 0x1_0000 + h[offset + 2] * 0x100 + h[offset + 3]) % CODES
  }

  ghost function Power256(n: nat): nat {
    if n == 0 then 1 else 256 * Power256(n - 1)
  }

  /** Two counters below 2^64 are never the same message. */
  lemma {:induction false} CountersDiffer(c: nat, d: nat, n: nat)
    requires c < Power256(n) && d < Power256(n) && BytesOf(c, n) == BytesOf(d, n)
    ensures c == d
  {
    if n > 0 {
      var b, e := BytesOf(c, n), BytesOf(d, n);
      assert b[..n - 1] == BytesOf(c / 256, n - 1) && e[..n - 1] == BytesOf(d / 256, n - 1);
      assert b[n - 1] == c % 256 && e[n - 1] == d % 256;
      CountersDiffer(c / 256, d / 256, n - 1);
    }
  }

  // ---------------------------------------------------------------- six digits

  function Zeros(n: nat): (s: string)
    ensures |s| == n && forall i :: 0 <= i < n ==> s[i] == '0'
  {
    seq(n, i => '0')
  }

  /** `String(code).padStart(6, "0")`. */
  function CodeText(code: nat): string {
    var s := Decimal(code);
    if |s| < DIGITS then Zeros(DIGITS - |s|) + s else s
  }

  predicate SixDigits(s: string) {
    |s| == DIGITS && forall i :: 0 <= i < |s| ==> IsDigit(s[i])
  }

  function PowerOfTen(k: nat): nat {
    if k == 0 then 1 else 10 * PowerOfTen(k - 1)
  }

  lemma {:induction false} AtMostDigits(n: nat, k: nat)
    requires k >= 1 && n < PowerOfTen(k)
    ensures |Decimal(n)| <= k
  {
    if n >= 10 {
      assert k >= 2 by {
        assert PowerOfTen(1) == 10 * PowerOfTen(0) == 10;
      }
      AtMostDigits(n / 10, k - 1);
    }
  }

  lemma DecimalLength(n: nat)
    requires n < CODES
    ensures |Decimal(n)| <= DIGITS
  {
    assert PowerOfTen(2) == 10 * PowerOfTen(1) == 100;
    assert PowerOfTen(4) == 10 * PowerOfTen(3) == 10000;
    assert PowerOfTen(6) == 10 * PowerOfTen(5) == 1000000;
    AtMostDigits(n, DIGITS);
  }

  lemma {:induction false} LeadingZeros(z: nat, s: string)
    requires forall i :: 0 <= i < |s| ==> IsDigit(s[i])
    ensures ValueOf(Zeros(z) + s) == ValueOf(s)
  {
    if s != [] {
      var init := s[..|s| - 1];
      assert (Zeros(z) + s)[..z + |s| - 1] == Zeros(z) + init;
      LeadingZeros(z, init);
    } else if z > 0 {
      assert Zeros(z) + s == Zeros(z);
      assert Zeros(z)[..z - 1] == Zeros(z - 1) + [];
      LeadingZeros(z - 1, []);
    } else {
      assert Zeros(z) + s == s;
    }
  }

  lemma CodeTextIs(code: nat)
    requires code < CODES
    ensures SixDigits(CodeText(code)) && ValueOf(CodeText(code)) == code
  {
    DecimalLength(code);
    ValueOfDecimal(code);
    LeadingZeros(DIGITS - |Decimal(code)|, Decimal(code));
  }

  lemma SameLastDigit(a: nat, x: nat, b: nat, y: nat)
    requires x < 10 && y < 10 && a * 10 + x == b * 10 + y
    ensures a == b && x == y
  {
  }

  lemma SameDigit(c: char, d: char)
    requires IsDigit(c) && IsDigit(d) && DigitValue(c) == DigitValue(d)
    ensures c == d
  {
  }

  /** Texts of digits of one length are equal when they denote the same number. */
  lemma {:induction false} SameNumberSameText(s: string, t: string)
    requires |s| == |t| && forall i :: 0 <= i < |s| ==> IsDigit(s[i]) && IsDigit(t[i])
    requires ValueOf(s) == ValueOf(t)
    ensures s == t
  {
    if s != [] {
      var n := |s| - 1;
      assert ValueOf(s) == ValueOf(s[..n]) * 10 + DigitValue(s[n]);
      assert ValueOf(t) == ValueOf(t[..n]) * 10 + DigitValue(t[n]);
      hide *;
      SameLastDigit(ValueOf(s[..n]), DigitValue(s[n]), ValueOf(t[..n]), DigitValue(t[n]));
      SameNumberSameText(s[..n], t[..n]);
      SameDigit(s[n], t[n]);
      assert s == s[..n] + [s[n]] && t == t[..n] + [t[n]];
    }
  }

  /** A padded code is a six-digit text, and of the six-digit texts exactly the one that denotes the code. */
  lemma CodeTextDenotes(code: nat, text: string)
    requires code < CODES
    ensures text == CodeText(code) <==> SixDigits(text) && ValueOf(text) == code
  {
    CodeTextIs(code);
    if SixDigits(text) && ValueOf(text) == code {
      SameNumberSameText(text, CodeText(code));
    }
  }

  // ---------------------------------------------------------------- the window

  function WithoutSpaces(s: string): (r: string)
    ensures forall i :: 0 <= i < |r| ==> !IsSpace(r[i])
  {
    if s == [] then [] else (if IsSpace(s[0]) then [] else [s[0]]) + WithoutSpaces(s[1..])
  }

  predicate Produces(hmac: Hmac, key: seq<nat>, slot: int, code: string)
    requires Digests(hmac)
  {
    slot >= 0 && CodeText(Hotp(hmac, key, slot)) == code
  }

  /** The newest slot of `lo..hi` that shows `code`. */
  function Newest(hmac: Hmac, key: seq<nat>, code: string, lo: int, hi: int): Option<nat>
    requires Digests(hmac)
    decreases hi - lo
  {
    if hi < lo then None
    else if Produces(hmac, key, hi, code) then Some(hi)
    else Newest(hmac, key, code, lo, hi - 1)
  }

  lemma {:induction false} NewestIs(hmac: Hmac, key: seq<nat>, code: string, lo: int, hi: int)
    requires Digests(hmac)
    ensures var r := Newest(hmac, key, code, lo, hi);
            && (r.None? ==> forall s :: lo <= s <= hi ==> !Produces(hmac, key, s, code))
            && (r.Some? ==> lo <= r.value <= hi && Produces(hmac, key, r.value, code))
            && (r.Some? ==> forall s :: r.value < s <= hi ==> !Produces(hmac, key, s, code))
    decreases hi - lo
  {
    hide Digests, Produces, Newest;
    if hi < lo {
      NewestOfNone(hmac, key, code, lo, hi);
    } else {
      NewestStep(hmac, key, code, lo, hi);
      if Produces(hmac, key, hi, code) {
        OnlyRealSlots(hmac, key, hi, code);
      } else {
        NewestIs(hmac, key, code, lo, hi - 1);
      }
    }
  }

  /** The counter an attempt is accepted with, if it is. */
  function Decision(hmac: Hmac, key: seq<nat>, window: int, now: int, last: Option<int>, token: string): Option<nat>
    requires Digests(hmac)
  {
    var code := WithoutSpaces(token);
    if !SixDigits(code) then None
    else
      var matched := Newest(hmac, key, code, now - window, now + window);
      if matched.Some? && last.Some? && matched.value <= last.value then None else matched
  }

  ghost function KeyOf(secret: string): seq<nat> {
    Base32.Regroup(Base32.Spread(Base32.Digits(secret), 5), 8)
  }

  /** Every slot of the window is tried, oldest first; the last match is kept. */
  method Scan(hmac: Hmac, key: seq<nat>, code: string, window: int, now: int) returns (matched: Option<nat>)
    requires Digests(hmac)
    ensures matched == Newest(hmac, key, code, now - window, now + window)
  {
    hide *;
    matched := None;
    NewestOfNone(hmac, key, code, now - window, now - window - 1);
    if window < 0 {
      NewestOfNone(hmac, key, code, now - window, now + window);
    }
    for i := -window to (if window < 0 then -window else window + 1)
      invariant matched == Newest(hmac, key, code, now - window, now + i - 1)
    {
      NewestStep(hmac, key, code, now - window, now + i);
      if Produces(hmac, key, now + i, code) {
        OnlyRealSlots(hmac, key, now + i, code);
        matched := Some(now + i);
      }
    }
  }

  lemma OnlyRealSlots(hmac: Hmac, key: seq<nat>, slot: int, code: string)
    requires Digests(hmac) && Produces(hmac, key, slot, code)
    ensures slot >= 0
  {
  }

  lemma NewestStep(hmac: Hmac, key: seq<nat>, code: string, lo: int, hi: int)
    requires Digests(hmac) && lo <= hi
    ensures Newest(hmac, key, code, lo, hi) == if Produces(hmac, key, hi, code) then Some(hi) else Newest(hmac, key, code, lo, hi - 1)
  {
  }

  lemma NewestOfNone(hmac: Hmac, key: seq<nat>, code: string, lo: int, hi: int)
    requires Digests(hmac) && hi < lo
    ensures Newest(hmac, key, code, lo, hi) == None
  {
  }

  /** `now` is the clock's time step. */
  method VerifyCodeWithCounter(hmac: Hmac, secret: string, token: string, last: Option<int>, window: int, now: int)
    returns (valid: bool, counter: Option<nat>)
    requires Digests(hmac)
    ensures counter == Decision(hmac, KeyOf(secret), window, now, last, token)
    ensures valid == counter.Some?
  {
    hide Digests, Newest, WithoutSpaces;
    var code := WithoutSpaces(token);
    if !SixDigits(code) {
      return false, None;
    }
    var key := Base32.Base32Decode(secret);
    var matched := Scan(hmac, key, code, window, now);
    if matched.None? || (last.Some? && matched.value <= last.value) {
      return false, None;
    }
    return true, matched;
  }

  lemma ProducesNumber(hmac: Hmac, key: seq<nat>, slot: int, code: string)
    requires Digests(hmac) && SixDigits(code)
    ensures Produces(hmac, key, slot, code) <==> slot >= 0 && Hotp(hmac, key, slot) == ValueOf(code)
  {
    if slot >= 0 {
      CodeTextDenotes(Hotp(hmac, key, slot), code);
    }
  }

  /**
   Accepted exactly when the token is six digits around white space and its number is the code of some slot of the
   window that is not negative and newer than the last used.
   */
  lemma AcceptedIff(hmac: Hmac, key: seq<nat>, window: int, now: int, last: Option<int>, token: string)
    requires Digests(hmac)
    ensures Decision(hmac, key, window, now, last, token).Some?
            <==> && SixDigits(WithoutSpaces(token))
                 && exists slot: nat :: && now - window <= slot <= now + window
                                        && (last.Some? ==> slot > last.value)
                                        && Hotp(hmac, key, slot) == ValueOf(WithoutSpaces(token))
  {
    var code := WithoutSpaces(token);
    hide WithoutSpaces, ValueOf, Hotp, Digests, Newest;
    if SixDigits(code) {
      NewestIs(hmac, key, code, now - window, now + window);
      forall slot | now - window <= slot <= now + window
        ensures Produces(hmac, key, slot, code) <==> slot >= 0 && Hotp(hmac, key, slot) == ValueOf(code)
      {
        ProducesNumber(hmac, key, slot, code);
      }
    }
  }

  datatype Attempt = Attempt(now: int, token: string)

  /** The counters accepted over a run whose caller stores each one and passes it to the next check. */
  function Accepted(hmac: Hmac, key: seq<nat>, window: int, last: Option<int>, attempts: seq<Attempt>): seq<nat>
    requires Digests(hmac)
    decreases |attempts|
  {
    if attempts == [] then []
    else
      var d := Decision(hmac, key, window, attempts[0].now, last, attempts[0].token);
      if d.Some? then [d.value] + Accepted(hmac, key, window, Some(d.value), attempts[1..])
      else Accepted(hmac, key, window, last, attempts[1..])
  }

  /** `s` strictly increases and starts after `last`. */
  ghost predicate IncreasesAfter(last: Option<int>, s: seq<nat>) {
    && (last.Some? && s != [] ==> s[0] > last.value)
    && forall i, j :: 0 <= i < j < |s| ==> s[i] < s[j]
  }

  lemma IncreasesFrom(last: Option<int>, d: nat, rest: seq<nat>)
    requires IncreasesAfter(Some(d), rest) && (last.Some? ==> d > last.value)
    ensures IncreasesAfter(last, [d] + rest)
  {
    var s := [d] + rest;
    forall i, j | 0 <= i < j < |s| ensures s[i] < s[j] {
      assert s[j] == rest[j - 1] && rest[0] <= rest[j - 1];
    }
  }

  /** Whatever the clock does, accepted counters strictly increase: no time step is ever accepted twice. */
  lemma {:induction false} AcceptedCountersIncrease(hmac: Hmac, key: seq<nat>, window: int, last: Option<int>, attempts: seq<Attempt>)
    requires Digests(hmac)
    ensures IncreasesAfter(last, Accepted(hmac, key, window, last, attempts))
    decreases |attempts|
  {
    if attempts != [] {
      var d := Decision(hmac, key, window, attempts[0].now, last, attempts[0].token);
      NewerThanLast(hmac, key, window, attempts[0].now, last, attempts[0].token);
      hide IncreasesAfter;
      if d.Some? {
        AcceptedCountersIncrease(hmac, key, window, Some(d.value), attempts[1..]);
        IncreasesFrom(last, d.value, Accepted(hmac, key, window, Some(d.value), attempts[1..]));
      } else {
        AcceptedCountersIncrease(hmac, key, window, last, attempts[1..]);
      }
    }
  }

  lemma NewerThanLast(hmac: Hmac, key: seq<nat>, window: int, now: int, last: Option<int>, token: string)
    requires Digests(hmac)
    ensures var d := Decision(hmac, key, window, now, last, token);
            d.Some? && last.Some? ==> d.value > last.value
  {
  }

  // ---------------------------------------------------------------- recovery codes

  /** The hashes without the last one equal to `target`. */
  function WithoutLast(hashes: seq<string>, target: string): seq<string> {
    if hashes == [] then []
    else if hashes[|hashes| - 1] == target then hashes[..|hashes| - 1]
    else WithoutLast(hashes[..|hashes| - 1], target) + [hashes[|hashes| - 1]]
  }

  /** `target` is the hash of the normalised input. */
  method VerifyRecoveryCode(hashes: seq<string>, target: string) returns (valid: bool, remaining: seq<string>)
    ensures valid == (target in hashes)
    ensures remaining == WithoutLast(hashes, target)
  {
    var matched := -1;
    for i := 0 to |hashes|
      invariant -1 <= matched < i
      invariant matched == -1 ==> target !in hashes[..i]
      invariant matched >= 0 ==> hashes[matched] == target && forall k :: matched < k < i ==> hashes[k] != target
    {
      if hashes[i] == target {
        matched := i;
      }
    }
    if matched == -1 {
      NothingRemoved(hashes, target);
      return false, hashes;
    }
    remaining := [];
    for i := 0 to |hashes|
      invariant remaining == if i <= matched then hashes[..i] else hashes[..matched] + hashes[matched + 1..i]
    {
      if i != matched {
        remaining := remaining + [hashes[i]];
      }
    }
    LastRemoved(hashes, target, matched);
    valid := true;
  }

  lemma {:induction false} NothingRemoved(hashes: seq<string>, target: string)
    requires target !in hashes
    ensures WithoutLast(hashes, target) == hashes
  {
    if hashes != [] {
      NothingRemoved(hashes[..|hashes| - 1], target);
      assert hashes == hashes[..|hashes| - 1] + [hashes[|hashes| - 1]];
    }
  }

  lemma {:induction false} LastRemoved(hashes: seq<string>, target: string, k: nat)
    requires k < |hashes| && hashes[k] == target && forall i :: k < i < |hashes| ==> hashes[i] != target
    ensures WithoutLast(hashes, target) == hashes[..k] + hashes[k + 1..]
  {
    var init := hashes[..|hashes| - 1];
    if k < |hashes| - 1 {
      LastRemoved(init, target, k);
      assert hashes[k + 1..] == init[k + 1..] + [hashes[|hashes| - 1]];
      assert hashes[..k] == init[..k];
    }
  }

  lemma {:induction false} OneHashLess(hashes: seq<string>, target: string)
    ensures multiset(WithoutLast(hashes, target)) == multiset(hashes) - multiset{target}
  {
    if hashes != [] {
      var init, last := hashes[..|hashes| - 1], hashes[|hashes| - 1];
      assert hashes == init + [last];
      if last == target {
        assert WithoutLast(hashes, target) == init;
      } else {
        OneHashLess(init, target);
        assert WithoutLast(hashes, target) == WithoutLast(init, target) + [last];
      }
    }
  }

  /** The hashes accepted over a run that stores what remains, and what is left at the end. */
  function Redeemed(hashes: seq<string>, targets: seq<string>): (seq<string>, seq<string>) {
    if targets == [] then ([], hashes)
    else
      var before := Redeemed(hashes, targets[..|targets| - 1]);
      var target := targets[|targets| - 1];
      (if target in before.1 then before.0 + [target] else before.0, WithoutLast(before.1, target))
  }

  /** Every stored hash is either still stored or was redeemed once: a code works as often as it was issued. */
  lemma {:induction false} RecoveryCodesConserved(hashes: seq<string>, targets: seq<string>)
    ensures var r := Redeemed(hashes, targets);
            multiset(r.0) + multiset(r.1) == multiset(hashes)
  {
    if targets != [] {
      var init, target := targets[..|targets| - 1], targets[|targets| - 1];
      RecoveryCodesConserved(hashes, init);
      var before := Redeemed(hashes, init);
      OneHashLess(before.1, target);
      if target !in before.1 {
        NothingRemoved(before.1, target);
      } else {
        assert target in multiset(before.1);
      }
    }
  }
}
