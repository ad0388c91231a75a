/**
 The e-mail one-time codes of packages/auth/src/EmailOtpBroker.ts.

 One string column holds the code's hash and the wrong guesses so far. The hash is a parameter, assumed
 injective. The application's `storeCode` is handed an expiry but `findCode` must answer with a creation time, so
 there are three kinds of store: one that derives it from the expiry, one that stamps the time of storing, and one
 that leaves it as first written.
 */
module EmailOtp {
  import opened Text
  import opened Wrappers

  // ---------------------------------------------------------------- the stored column

  /** `String(n)` for an integer. */
  function Numeral(n: int): string {
    if n < 0 then "-" + Decimal(-n) else Decimal(n)
  }

  function EncodeStored(hash: string, attempts: int): string {
    hash + "." + Numeral(attempts)
  }

  /** The longest run of digits `s` starts with. */
  function LeadingDigits(s: string): (r: string)
    ensures |r| <= |s| && r == s[..|r|] && (forall i :: 0 <= i < |r| ==> IsDigit(r[i]))
    ensures |r| < |s| ==> !IsDigit(s[|r|])
  {
    if s == [] || !IsDigit(s[0]) then []
    else
      var rest := LeadingDigits(s[1..]);
      assert s[..|rest| + 1] == [s[0]] + s[1..][..|rest|];
      [s[0]] + rest
  }

  /** `Number.parseInt(s, 10)`, `None` for NaN. */
  function ParseInt(s: string): Option<int> {
    var t := TrimStart(s);
    var negative := t != [] && t[0] == '-';
    var digits := LeadingDigits(if t != [] && (t[0] == '-' || t[0] == '+') then t[1..] else t);
    if digits == [] then None
    else
      var value: int := ValueOf(digits);
      Some(if negative then -value else value)
  }

  function DecodeStored(stored: string): (string, int) {
    var dot := LastIndexOf(stored, '.');
    if dot.None? then (stored, 0)
    else
      var attempts := ParseInt(stored[dot.value + 1..]);
      (stored[..dot.value], if attempts.Some? then attempts.value else 0)
  }

  lemma AllDigits(s: string)
    requires forall i :: 0 <= i < |s| ==> IsDigit(s[i])
    ensures LeadingDigits(s) == s
  {
  }

  lemma DigitIsNoSpace(c: char)
    requires IsDigit(c)
    ensures !IsSpace(c) && c != '-' && c != '+'
  {
  }

  lemma NothingTrimmed(s: string)
    requires s != "" && !IsSpace(s[0])
    ensures TrimStart(s) == s
  {
  }

  lemma ParseIntNumeral(n: int)
    ensures ParseInt(Numeral(n)) == Some(n)
  {
    var magnitude: nat := if n < 0 then -n else n;
    var s := Decimal(magnitude);
    ValueOfDecimal(magnitude);
    AllDigits(s);
    DigitIsNoSpace(s[0]);
    var text := Numeral(n);
    assert text == if n < 0 then "-" + s else s;
    assert !IsSpace('-');
    NothingTrimmed(text);
    hide *;
    assert n < 0 ==> text[1..] == s;
  }

  lemma NumeralHasNoDot(n: int)
    ensures '.' !in Numeral(n)
  {
    var s := Decimal(if n < 0 then -n else n);
    hide Decimal;
    assert forall i :: 0 <= i < |s| ==> IsDigit(s[i]);
  }

  lemma OnlyLast(s: string, i: nat, j: nat)
    requires i < |s| && j < |s| && s[j] == '.' && '.' !in s[j + 1..]
    requires s[i] == '.' && '.' !in s[i + 1..]
    ensures i == j
  {
    assert forall k :: i < k < |s| ==> s[k] in s[i + 1..];
    assert forall k :: j < k < |s| ==> s[k] in s[j + 1..];
  }

  lemma LastDot(hash: string, digits: string)
    requires '.' !in digits
    ensures LastIndexOf(hash + "." + digits, '.') == Some(|hash|)
  {
    hide LastIndexOf;
    var s := hash + "." + digits;
    assert s[|hash|] == '.' && s[|hash| + 1..] == digits;
    OnlyLast(s, LastIndexOf(s, '.').value, |hash|);
  }

  /** Whatever the hash is, dots and all. */
  lemma DecodeInvertsEncode(hash: string, attempts: int)
    ensures DecodeStored(EncodeStored(hash, attempts)) == (hash, attempts)
  {
    NumeralHasNoDot(attempts);
    LastDot(hash, Numeral(attempts));
    ParseIntNumeral(attempts);
    hide LastIndexOf, ParseInt, Numeral;
    CutAtDot(hash, Numeral(attempts));
  }

  lemma CutAtDot(hash: string, digits: string)
    ensures var s := hash + "." + digits; s[..|hash|] == hash && s[|hash| + 1..] == digits
  {
  }

  /** A column written before attempts were counted starts with the whole budget. */
  lemma BareHashHasNoAttempts(hash: string)
    ensures '.' !in hash ==> DecodeStored(hash) == (hash, 0)
  {
  }

  // ---------------------------------------------------------------- one attempt

  datatype Record = Record(code: string, createdAt: int)

  /** Where the creation time of a row comes from. */
  datatype StoreKind = Derives | Stamps | KeepsFirst

  datatype Settings = Settings(expireMs: int, maxAttempts: int, kind: StoreKind, hash: string -> string) {
    ghost predicate Sound() {
      forall a, b :: hash(a) == hash(b) ==> a == b
    }

    /** What a code stored at `now` to expire at `expiresAt`, over what was there before, is later found with. */
    function Kept(before: Option<Record>, code: string, expiresAt: int, now: int): Record {
      Record(code, match kind
                   case Derives => expiresAt - expireMs
                   case Stamps => now
                   case KeepsFirst => if before.Some? then before.value.createdAt else now)
    }

    /** Wrong guesses that are compared before the code is deleted. */
    function Budget(): (n: int)
      ensures n >= 1 && n >= maxAttempts
    {
      if maxAttempts > 1 then maxAttempts else 1
    }
  }

  /** What became of a guess. */
  datatype Outcome = Missing | Expired | Right | Wrong

  function Judge(o: Settings, r: Option<Record>, code: string, now: int): Outcome {
    if r.None? then Missing
    else if r.value.createdAt + o.expireMs < now then Expired
    else if o.hash(code) == DecodeStored(r.value.code).0 then Right
    else Wrong
  }

  class EmailOtpBroker {
    const o: Settings
    var store: map<string, Record>

    constructor (o: Settings)
      ensures this.o == o && store == map[]
    {
      this.o, store := o, map[];
    }

    function Found(email: string): Option<Record>
      reads this
    {
      if email in store then Some(store[email]) else None
    }

    method StoreCode(email: string, code: string, expiresAt: int, now: int)
      modifies this
      ensures store == old(store)[email := o.Kept(old(Found(email)), code, expiresAt, now)]
    {
      store := store[email := o.Kept(Found(email), code, expiresAt, now)];
    }

    method DeleteCode(email: string)
      modifies this
      ensures store == old(store) - {email}
    {
      store := store - {email};
    }

    method Send(email: string, code: string, now: int)
      modifies this
      ensures store == old(store)[email := Issued(o, code, StartOf(o, old(Found(email)), now))]
    {
      hide EncodeStored;
      StoreCode(email, EncodeStored(o.hash(code), 0), now + o.expireMs, now);
    }

    method Attempt(email: string, code: string, now: int) returns (ok: bool)
      modifies this
      ensures ok <==> Judge(o, old(Found(email)), code, now) == Right
      ensures Found(email) == AfterAttempt(o, old(Found(email)), code, now)
      ensures forall other :: other != email ==> Found(other) == old(Found(other))
    {
      if email !in store {
        return false;
      }
      var record := store[email];
      var expiresAt := record.createdAt + o.expireMs;
      if expiresAt < now {
        DeleteCode(email);
        return false;
      }
      var (hash, attempts) := DecodeStored(record.code);
      if o.hash(code) == hash {
        DeleteCode(email);
        return true;
      }
      var nextAttempts := attempts + 1;
      if nextAttempts >= o.maxAttempts {
        DeleteCode(email);
      } else {
        StoreCode(email, EncodeStored(hash, nextAttempts), expiresAt, now);
      }
      return false;
    }
  }

  /** The time a code sent at `sent` counts as created, over what was stored before. */
  function StartOf(o: Settings, before: Option<Record>, sent: int): int {
    if o.kind.KeepsFirst? && before.Some? then before.value.createdAt else sent
  }

  function Issued(o: Settings, code: string, start: int): Record {
    Record(EncodeStored(o.hash(code), 0), start)
  }

  /** The record a guess leaves behind. */
  function AfterAttempt(o: Settings, r: Option<Record>, code: string, now: int): Option<Record> {
    match Judge(o, r, code, now)
    case Missing => None
    case Expired => None
    case Right => None
    case Wrong =>
      var (hash, attempts) := DecodeStored(r.value.code);
      if attempts + 1 >= o.maxAttempts then None
      else Some(o.Kept(r, EncodeStored(hash, attempts + 1), r.value.createdAt + o.expireMs, now))
  }

  // ---------------------------------------------------------------- every attempt at one issued code

  datatype Guess = Guess(code: string, now: int)

  /** The record after the guesses at a code created at `start`. */
  function After(o: Settings, code: string, start: int, guesses: seq<Guess>): Option<Record> {
    if guesses == [] then Some(Issued(o, code, start))
    else
      var last := guesses[|guesses| - 1];
      AfterAttempt(o, After(o, code, start, guesses[..|guesses| - 1]), last.code, last.now)
  }

  function OutcomeOf(o: Settings, code: string, start: int, guesses: seq<Guess>, k: nat): Outcome
    requires k < |guesses|
  {
    Judge(o, After(o, code, start, guesses[..k]), guesses[k].code, guesses[k].now)
  }

  /** When the code runs out, as the `k`-th guess sees it. */
  function ExpiryAt(o: Settings, start: int, guesses: seq<Guess>, k: nat): int
    requires k <= |guesses|
  {
    if !o.kind.Stamps? || k == 0 then start + o.expireMs else guesses[k - 1].now + o.expireMs
  }

  /** Every guess so far was wrong, in time, and within the budget. */
  ghost predicate Survives(o: Settings, code: string, start: int, guesses: seq<Guess>) {
    && |guesses| < o.Budget()
    && forall j :: 0 <= j < |guesses| ==> guesses[j].code != code && guesses[j].now <= ExpiryAt(o, start, guesses, j)
  }

  lemma SurvivesInit(o: Settings, code: string, start: int, guesses: seq<Guess>)
    requires guesses != []
    ensures var init, last := guesses[..|guesses| - 1], guesses[|guesses| - 1];
            Survives(o, code, start, guesses) <==>
            && Survives(o, code, start, init) && |guesses| < o.Budget()
            && last.code != code && last.now <= ExpiryAt(o, start, init, |init|)
  {
    var init := guesses[..|guesses| - 1];
    assert forall j :: 0 <= j < |init| ==> init[j] == guesses[j] && ExpiryAt(o, start, init, j) == ExpiryAt(o, start, guesses, j);
    assert ExpiryAt(o, start, init, |init|) == ExpiryAt(o, start, guesses, |init|);
  }

  /** What is stored after some guesses: their count and the right expiry, or nothing. */
  lemma {:induction false} StoredAfter(o: Settings, code: string, start: int, guesses: seq<Guess>)
    requires o.Sound()
    ensures var r := After(o, code, start, guesses);
            && (r.Some? <==> Survives(o, code, start, guesses))
            && (r.Some? ==> r.value.code == EncodeStored(o.hash(code), |guesses|))
            && (r.Some? ==> r.value.createdAt + o.expireMs == ExpiryAt(o, start, guesses, |guesses|))
  {
    hide EncodeStored, DecodeStored, Survives;
    if guesses == [] {
      Untouched(o, code, start);
    } else {
      var init := guesses[..|guesses| - 1];
      StoredAfter(o, code, start, init);
      SurvivesInit(o, code, start, guesses);
      DecodeInvertsEncode(o.hash(code), |init|);
    }
  }

  lemma Untouched(o: Settings, code: string, start: int)
    ensures Survives(o, code, start, [])
  {
  }

  lemma SurvivesPrefix(o: Settings, code: string, start: int, guesses: seq<Guess>, k: nat)
    requires k < |guesses|
    ensures ExpiryAt(o, start, guesses[..k], k) == ExpiryAt(o, start, guesses, k)
    ensures Survives(o, code, start, guesses[..k]) <==>
            k < o.Budget() && forall j :: 0 <= j < k ==> guesses[j].code != code && guesses[j].now <= ExpiryAt(o, start, guesses, j)
  {
    var before := guesses[..k];
    assert forall j :: 0 <= j < k ==> before[j] == guesses[j] && ExpiryAt(o, start, before, j) == ExpiryAt(o, start, guesses, j);
  }

  /**
   The guess that is let in: the right code, in time, no right code before it, and fewer than the budget of wrong
   ones. Nothing else is, whatever the clock does.
   */
  lemma AcceptedIff(o: Settings, code: string, start: int, guesses: seq<Guess>, k: nat)
    requires o.Sound() && k < |guesses|
    ensures OutcomeOf(o, code, start, guesses, k) == Right <==>
            && guesses[k].code == code && k < o.Budget()
            && (forall j :: 0 <= j < k ==> guesses[j].code != code)
            && forall j :: 0 <= j <= k ==> guesses[j].now <= ExpiryAt(o, start, guesses, j)
  {
    hide EncodeStored, DecodeStored, After;
    var before := guesses[..k];
    StoredAfter(o, code, start, before);
    DecodeInvertsEncode(o.hash(code), k);
    SurvivesPrefix(o, code, start, guesses, k);
  }

  /** How many of the guesses were compared with the code and found wrong. */
  function WrongGuesses(o: Settings, code: string, start: int, guesses: seq<Guess>): nat {
    if guesses == [] then 0
    else
      var k := |guesses| - 1;
      WrongGuesses(o, code, start, guesses[..k]) + if OutcomeOf(o, code, start, guesses, k) == Wrong then 1 else 0
  }

  function RightGuesses(o: Settings, code: string, start: int, guesses: seq<Guess>): nat {
    if guesses == [] then 0
    else
      var k := |guesses| - 1;
      RightGuesses(o, code, start, guesses[..k]) + if OutcomeOf(o, code, start, guesses, k) == Right then 1 else 0
  }

  /** While the code is still stored every guess has been wrong; afterwards the counts stand still. */
  lemma {:induction false} Budgeted(o: Settings, code: string, start: int, guesses: seq<Guess>)
    requires o.Sound()
    ensures WrongGuesses(o, code, start, guesses) <= o.Budget() && RightGuesses(o, code, start, guesses) <= 1
    ensures After(o, code, start, guesses).Some? ==>
              WrongGuesses(o, code, start, guesses) == |guesses| && RightGuesses(o, code, start, guesses) == 0
  {
    hide EncodeStored, DecodeStored, Survives;
    if guesses != [] {
      var k := |guesses| - 1;
      Budgeted(o, code, start, guesses[..k]);
      StoredAfter(o, code, start, guesses[..k]);
      OneGuess(o, code, start, guesses);
      WithinBudget(o, code, start, guesses[..k]);
    }
  }

  /** What one guess does: a code that is gone stays gone, a right guess consumes it, a wrong one may. */
  lemma OneGuess(o: Settings, code: string, start: int, guesses: seq<Guess>)
    requires guesses != []
    ensures var k := |guesses| - 1; var before, after := After(o, code, start, guesses[..k]), After(o, code, start, guesses);
            && (before.None? ==> after.None? && OutcomeOf(o, code, start, guesses, k) == Missing)
            && (after.Some? ==> OutcomeOf(o, code, start, guesses, k) == Wrong)
  {
    hide DecodeStored, EncodeStored;
  }

  lemma WithinBudget(o: Settings, code: string, start: int, guesses: seq<Guess>)
    ensures Survives(o, code, start, guesses) ==> |guesses| < o.Budget()
  {
  }

  /** A code can be accepted past the lifetime it starts with exactly when storing re-stamps it and a wrong guess is forgiven. */
  lemma LifetimeSlidesIff(o: Settings, code: string, start: int)
    requires o.Sound()
    ensures (exists guesses, k: nat :: AcceptedLate(o, code, start, guesses, k)) <==>
            o.kind.Stamps? && o.expireMs > 0 && o.maxAttempts > 1
  {
    hide OutcomeOf;
    if o.kind.Stamps? && o.expireMs > 0 && o.maxAttempts > 1 {
      var late := [Guess(code + "x", start + o.expireMs), Guess(code, start + 2 * o.expireMs)];
      AcceptedIff(o, code, start, late, 1);
      assert AcceptedLate(o, code, start, late, 1);
    }
    forall guesses, k: nat | AcceptedLate(o, code, start, guesses, k)
      ensures o.kind.Stamps? && o.expireMs > 0 && o.maxAttempts > 1
    {
      AcceptedIff(o, code, start, guesses, k);
      NoSlide(o, start, guesses, k);
    }
  }

  ghost predicate AcceptedLate(o: Settings, code: string, start: int, guesses: seq<Guess>, k: nat) {
    k < |guesses| && guesses[k].now > start + o.expireMs && OutcomeOf(o, code, start, guesses, k) == Right
  }

  /** Each wrong guess re-stamps at most one more lifetime. */
  lemma {:induction false} NoSlide(o: Settings, start: int, guesses: seq<Guess>, k: nat)
    requires k < |guesses|
    requires forall j :: 0 <= j <= k ==> guesses[j].now <= ExpiryAt(o, start, guesses, j)
    ensures !o.kind.Stamps? || k == 0 || o.expireMs <= 0 ==> guesses[k].now <= start + o.expireMs
    ensures guesses[k].now <= start + (k + 1) * o.expireMs || (!o.kind.Stamps? && o.expireMs <= 0)
  {
    assert guesses[k].now <= ExpiryAt(o, start, guesses, k);
    if k > 0 {
      NoSlide(o, start, guesses, k - 1);
    }
  }

  /** A code is already dead when it is sent exactly when the store kept an older row's creation time and that has run out. */
  lemma DeadOnArrivalIff(o: Settings, before: Option<Record>, code: string, sent: int)
    requires o.Sound() && o.expireMs >= 0
    ensures OutcomeOf(o, code, StartOf(o, before, sent), [Guess(code, sent)], 0) != Right <==>
            o.kind.KeepsFirst? && before.Some? && before.value.createdAt + o.expireMs < sent
  {
    AcceptedIff(o, code, StartOf(o, before, sent), [Guess(code, sent)], 0);
  }

  // ---------------------------------------------------------------- the code's digits

  type Byte = b: nat | b < 256

  /** The digits of the bytes that are not discarded. */
  function DigitsOf(bytes: seq<Byte>): string {
    if bytes == [] then ""
    else
      var b := bytes[|bytes| - 1];
      DigitsOf(bytes[..|bytes| - 1]) + if b < 250 then Decimal(b % 10) else ""
  }

  function Joined(rounds: seq<seq<Byte>>): seq<Byte> {
    if rounds == [] then [] else Joined(rounds[..|rounds| - 1]) + rounds[|rounds| - 1]
  }

  function Shortened(s: string, length: nat): string {
    if |s| <= length then s else s[..length]
  }

  lemma OneDigit(b: Byte)
    ensures |Decimal(b % 10)| == 1 && ValueOf(Decimal(b % 10)) == b % 10
  {
    ValueOfDecimal(b % 10);
  }

  lemma DigitsStep(bytes: seq<Byte>, b: Byte, length: nat)
    ensures DigitsOf(bytes + [b]) == DigitsOf(bytes) + if b < 250 then Decimal(b % 10) else ""
    ensures |DigitsOf(bytes)| >= length ==> Shortened(DigitsOf(bytes + [b]), length) == Shortened(DigitsOf(bytes), length)
  {
    assert (bytes + [b])[..|bytes|] == bytes;
  }

  lemma {:induction false} MoreDigitsChangeNothing(bytes: seq<Byte>, more: seq<Byte>, length: nat)
    requires |DigitsOf(bytes)| >= length
    ensures Shortened(DigitsOf(bytes + more), length) == Shortened(DigitsOf(bytes), length)
    ensures |DigitsOf(bytes + more)| >= length
  {
    hide Decimal, Shortened;
    if more == [] {
      assert bytes + more == bytes;
    } else {
      var init := more[..|more| - 1];
      MoreDigitsChangeNothing(bytes, init, length);
      assert bytes + more == bytes + init + [more[|more| - 1]];
      DigitsStep(bytes + init, more[|more| - 1], length);
    }
  }

  /** The inner loop: one fill of the buffer, until the code is long enough. */
  method TakeDigits(length: nat, buf: seq<Byte>, ghost before: seq<Byte>, sofar: string) returns (out: string)
    requires sofar == Shortened(DigitsOf(before), length)
    ensures out == Shortened(DigitsOf(before + buf), length)
  {
    hide Decimal, DigitsOf;
    out := sofar;
    var i := 0;
    assert before + buf[..0] == before;
    while i < |buf| && |out| < length
      invariant i <= |buf| && |out| <= length
      invariant out == Shortened(DigitsOf(before + buf[..i]), length)
    {
      DigitsStep(before + buf[..i], buf[i], length);
      assert before + buf[..i + 1] == before + buf[..i] + [buf[i]];
      OneDigit(buf[i]);
      if buf[i] < 250 {
        out := out + Decimal(buf[i] % 10);
      }
      i := i + 1;
    }
    EndOfBuffer(before, buf, i, length);
  }

  /** `rounds` are the successive fills of the buffer, as many as there were. */
  method NumericCode(length: nat, rounds: seq<seq<Byte>>) returns (out: string)
    ensures out == Shortened(DigitsOf(Joined(rounds)), length)
    ensures |out| == length <==> |DigitsOf(Joined(rounds))| >= length
  {
    out := "";
    var n := 0;
    assert DigitsOf(Joined(rounds[..0])) == "";
    hide DigitsOf;
    while |out| < length && n < |rounds|
      invariant n <= |rounds|
      invariant out == Shortened(DigitsOf(Joined(rounds[..n])), length)
      decreases |rounds| - n
    {
      assert rounds[..n + 1][..n] == rounds[..n];
      out := TakeDigits(length, rounds[n], Joined(rounds[..n]), out);
      n := n + 1;
    }
    if n < |rounds| {
      RestOfRounds(rounds, n, length);
    }
    assert rounds[..|rounds|] == rounds;
  }

  lemma EndOfBuffer(before: seq<Byte>, buf: seq<Byte>, i: nat, length: nat)
    requires i <= |buf| && (i == |buf| || |DigitsOf(before + buf[..i])| >= length)
    ensures Shortened(DigitsOf(before + buf), length) == Shortened(DigitsOf(before + buf[..i]), length)
  {
    hide *;
    if i == |buf| {
      assert buf[..i] == buf;
    } else {
      MoreDigitsChangeNothing(before + buf[..i], buf[i..], length);
      assert before + buf[..i] + buf[i..] == before + buf;
    }
  }

  lemma {:induction false} RestOfRounds(rounds: seq<seq<Byte>>, n: nat, length: nat)
    requires n <= |rounds| && |DigitsOf(Joined(rounds[..n]))| >= length
    ensures Shortened(DigitsOf(Joined(rounds)), length) == Shortened(DigitsOf(Joined(rounds[..n])), length)
    ensures |DigitsOf(Joined(rounds))| >= length
  {
    if n == |rounds| {
      assert rounds[..n] == rounds;
    } else {
      var init := rounds[..|rounds| - 1];
      assert init[..n] == rounds[..n];
      RestOfRounds(init, n, length);
      MoreDigitsChangeNothing(Joined(init), rounds[|rounds| - 1], length);
    }
  }

  // ---------------------------------------------------------------- residues

  function Preimages(limit: nat, n: nat, r: nat): set<nat>
    requires n > 0
  {
    set b | 0 <= b < limit && b % n == r
  }

  /** How many of the first `limit` numbers leave the remainder `r`. */
  lemma {:induction false} CountOfResidue(limit: nat, n: nat, r: nat)
    requires r < n
    ensures |Preimages(limit, n, r)| == limit / n + if r < limit % n then 1 else 0
  {
    if limit == 0 {
      assert Preimages(limit, n, r) == {};
    } else {
      var b := limit - 1;
      CountOfResidue(b, n, r);
      OneMorePreimage(b, n, r);
      NextQuotient(b, n);
      hide *;
    }
  }

  lemma OneMorePreimage(b: nat, n: nat, r: nat)
    requires r < n
    ensures |Preimages(b + 1, n, r)| == |Preimages(b, n, r)| + if b % n == r then 1 else 0
  {
    if b % n == r {
      assert Preimages(b + 1, n, r) == Preimages(b, n, r) + {b};
    } else {
      assert Preimages(b + 1, n, r) == Preimages(b, n, r);
    }
  }

  lemma NextQuotient(b: nat, n: nat)
    requires n > 0
    ensures if b % n == n - 1 then (b + 1) / n == b / n + 1 && (b + 1) % n == 0 else (b + 1) / n == b / n && (b + 1) % n == b % n + 1
  {
    var q, r := b / n, b % n;
    assert b == q * n + r;
    if r == n - 1 {
      QuotientIs(b + 1, n, q + 1, 0);
    } else {
      QuotientIs(b + 1, n, q, r + 1);
    }
  }

  lemma Multiples(d: int, n: nat)
    ensures d >= 1 ==> d * n >= n
    ensures d <= -1 ==> d * n + n <= 0
  {
  }

  lemma QuotientIs(a: nat, n: nat, q: nat, r: nat)
    requires n > 0 && r < n && a == q * n + r
    ensures a / n == q && a % n == r
  {
    var d := q - a / n;
    assert d * n == a % n - r;
    Multiples(d, n);
  }

  /** Folding the numbers below `limit` favours no residue exactly when `n` divides `limit`. */
  lemma UniformIff(limit: nat, n: nat)
    requires n > 0
    ensures (forall r, q :: 0 <= r < n && 0 <= q < n ==> |Preimages(limit, n, r)| == |Preimages(limit, n, q)|) <==> limit % n == 0
  {
    forall r | 0 <= r < n ensures |Preimages(limit, n, r)| == limit / n + if r < limit % n then 1 else 0 {
      CountOfResidue(limit, n, r);
    }
    assert |Preimages(limit, n, 0)| == limit / n + (if 0 < limit % n then 1 else 0);
    assert |Preimages(limit, n, n - 1)| == limit / n;
  }

  /** One-time codes: bytes below 250 give every digit 25 times. */
  lemma DigitsAreUniform(d: nat)
    requires d < 10
    ensures |Preimages(250, 10, d)| == 25
  {
    CountOfResidue(250, 10, d);
  }

  /** Recovery codes: bytes below 248 give the first 24 symbols 8 times and the last 8 only 7 times. */
  lemma RecoverySymbolsAreNot(d: nat)
    requires d < 32
    ensures |Preimages(248, 32, d)| == if d < 24 then 8 else 7
  {
    CountOfResidue(248, 32, d);
  }
}
