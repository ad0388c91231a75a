/**
 Guesses at e-mailed codes of one address that overlap, with each other and with a new code being sent
 (packages/auth/src/EmailOtpBroker.ts). A guess reads the record and is compared at once; what it makes of the record
 is written later. Clocks and hashes are left to `EmailOtp`; here a guess is right, wrong or too late for the code it
 finds, and every write arrives.
 */
module OtpGuesses {
  import opened EmailOtp
  import opened Wrappers

  /** The record: which code it holds, and the wrong guesses so far. */
  datatype Row = Row(code: nat, count: nat)

  /** A write on its way: the record with a new count, or its deletion. */
  datatype Write = Put(row: Row) | Delete

  /** Codes are numbered in the order they are sent; `sent` is the number of the next. */
  datatype State = State(stored: Option<Row>, writes: seq<Write>, sent: nat)

  datatype Verdict = RightCode | WrongCode | TooLate

  datatype Step = Send | Look(verdict: Verdict) | Land(i: nat)

  const NONE_SENT := State(None, [], 0)

  function WriteOf(maxAttempts: int, verdict: Verdict, row: Row): Write {
    if verdict.WrongCode? && row.count + 1 < maxAttempts then Put(Row(row.code, row.count + 1)) else Delete
  }

  function Next(maxAttempts: int, s: State, step: Step): State {
    match step
    case Send => s.(stored := Some(Row(s.sent, 0)), sent := s.sent + 1)
    case Look(v) =>
      if s.stored.None? then s else s.(writes := s.writes + [WriteOf(maxAttempts, v, s.stored.value)])
    case Land(i) =>
      if i >= |s.writes| then s
      else
        s.(stored := if s.writes[i].Put? then Some(s.writes[i].row) else None,
           writes := s.writes[..i] + s.writes[i + 1..])
  }

  function Exec(maxAttempts: int, s: State, steps: seq<Step>): State {
    if steps == [] then s else Next(maxAttempts, Exec(maxAttempts, s, steps[..|steps| - 1]), steps[|steps| - 1])
  }

  /** The step compares a guess with code `n`. */
  predicate Compares(s: State, step: Step, n: nat) {
    step.Look? && !step.verdict.TooLate? && s.stored.Some? && s.stored.value.code == n
  }

  /** The guesses of a run that are compared with code `n`, the right ones included. */
  function Compared(maxAttempts: int, s: State, steps: seq<Step>, n: nat): nat {
    if steps == [] then 0
    else
      var init, last := steps[..|steps| - 1], steps[|steps| - 1];
      Compared(maxAttempts, s, init, n) + if Compares(Exec(maxAttempts, s, init), last, n) then 1 else 0
  }

  function Accepted(maxAttempts: int, s: State, steps: seq<Step>, n: nat): nat {
    if steps == [] then 0
    else
      var init, last := steps[..|steps| - 1], steps[|steps| - 1];
      Accepted(maxAttempts, s, init, n) +
      if Compares(Exec(maxAttempts, s, init), last, n) && last.verdict.RightCode? then 1 else 0
  }

  lemma {:induction false} RunAppend(maxAttempts: int, s: State, a: seq<Step>, b: seq<Step>, n: nat)
    ensures var mid := Exec(maxAttempts, s, a);
            && Exec(maxAttempts, s, a + b) == Exec(maxAttempts, mid, b)
            && Compared(maxAttempts, s, a + b, n) == Compared(maxAttempts, s, a, n) + Compared(maxAttempts, mid, b, n)
            && Accepted(maxAttempts, s, a + b, n) == Accepted(maxAttempts, s, a, n) + Accepted(maxAttempts, mid, b, n)
  {
    if b == [] {
      assert a + b == a;
    } else {
      RunAppend(maxAttempts, s, a, b[..|b| - 1], n);
      assert (a + b)[..|a + b| - 1] == a + b[..|b| - 1];
    }
  }

  lemma OneStep(maxAttempts: int, s: State, step: Step, n: nat)
    ensures Exec(maxAttempts, s, [step]) == Next(maxAttempts, s, step)
    ensures Compared(maxAttempts, s, [step], n) == if Compares(s, step, n) then 1 else 0
    ensures Accepted(maxAttempts, s, [step], n) == if Compares(s, step, n) && step.verdict.RightCode? then 1 else 0
  {
    assert [step][..0] == [];
  }

  // ---------------------------------------------------------------- one call that nothing overlaps

  function VerdictOf(outcome: Outcome): Verdict {
    match outcome
    case Right => RightCode
    case Wrong => WrongCode
    case _ => TooLate
  }

  /** The record holds the hash of the code of that number and the count, or there is none. */
  ghost predicate Stands(o: Settings, codes: nat -> string, r: Option<Record>, stored: Option<Row>) {
    && (r.Some? <==> stored.Some?)
    && (r.Some? ==> DecodeStored(r.value.code) == (o.hash(codes(stored.value.code)), stored.value.count))
  }

  /** `send` is one step. */
  lemma SendIsSend(o: Settings, codes: nat -> string, start: int, s: State)
    ensures Stands(o, codes, Some(Issued(o, codes(s.sent), start)), Next(o.maxAttempts, s, Send).stored)
  {
    DecodeInvertsEncode(o.hash(codes(s.sent)), 0);
  }

  function RowAfter(maxAttempts: int, v: Verdict, stored: Option<Row>): Option<Row> {
    if stored.Some? && WriteOf(maxAttempts, v, stored.value).Put? then Some(WriteOf(maxAttempts, v, stored.value).row) else None
  }

  lemma Landed(maxAttempts: int, s: State, v: Verdict)
    requires s.writes == []
    ensures var t := Next(maxAttempts, Next(maxAttempts, s, Look(v)), Land(0));
            && t.writes == []
            && t.stored == RowAfter(maxAttempts, v, s.stored)
  {
  }

  /** What a wrong guess leaves, in terms of what was decoded. */
  lemma AfterWrong(o: Settings, r: Option<Record>, guess: string, now: int, hash: string, count: nat)
    requires Judge(o, r, guess, now) == Wrong && DecodeStored(r.value.code) == (hash, count)
    ensures var after := AfterAttempt(o, r, guess, now);
            && (after.Some? <==> count + 1 < o.maxAttempts)
            && (after.Some? ==> after.value.code == EncodeStored(hash, count + 1))
  {
    hide EncodeStored, DecodeStored;
  }

  lemma WrongWrites(o: Settings, codes: nat -> string, r: Option<Record>, guess: string, now: int, stored: Option<Row>)
    requires Stands(o, codes, r, stored) && Judge(o, r, guess, now) == Wrong
    ensures Stands(o, codes, AfterAttempt(o, r, guess, now), RowAfter(o.maxAttempts, WrongCode, stored))
  {
    hide EncodeStored, DecodeStored, AfterAttempt;
    var hash, count := o.hash(codes(stored.value.code)), stored.value.count;
    AfterWrong(o, r, guess, now, hash, count);
    DecodeInvertsEncode(hash, count + 1);
  }

  lemma AttemptWrites(o: Settings, codes: nat -> string, r: Option<Record>, guess: string, now: int, stored: Option<Row>)
    requires Stands(o, codes, r, stored)
    ensures var v := VerdictOf(Judge(o, r, guess, now));
            Stands(o, codes, AfterAttempt(o, r, guess, now), RowAfter(o.maxAttempts, v, stored))
    ensures Judge(o, r, guess, now) == Right ==> stored.Some?
  {
    hide DecodeStored, EncodeStored;
    if Judge(o, r, guess, now) == Wrong {
      WrongWrites(o, codes, r, guess, now, stored);
    }
  }

  /** `attempt` is a look and its write, when nothing comes between them. */
  lemma AttemptIsLookAndLand(o: Settings, codes: nat -> string, r: Option<Record>, guess: string, now: int, s: State)
    requires o.Sound() && Stands(o, codes, r, s.stored) && s.writes == []
    ensures var look := Look(VerdictOf(Judge(o, r, guess, now)));
            var t := Next(o.maxAttempts, Next(o.maxAttempts, s, look), Land(0));
            && Stands(o, codes, AfterAttempt(o, r, guess, now), t.stored) && t.writes == []
            && ((s.stored.Some? && Compares(s, look, s.stored.value.code) && look.verdict.RightCode?) <==> Judge(o, r, guess, now) == Right)
  {
    AttemptWrites(o, codes, r, guess, now, s.stored);
    hide Stands, Judge, AfterAttempt, WriteOf, RowAfter;
    Landed(o.maxAttempts, s, VerdictOf(Judge(o, r, guess, now)));
  }

  // ---------------------------------------------------------------- binomial coefficients

  /** The ways to choose `a` of `a + b`. */
  function Paths(a: nat, b: nat): (n: nat)
    ensures n >= 1
  {
    if a == 0 || b == 0 then 1 else Paths(a - 1, b) + Paths(a, b - 1)
  }

  lemma {:induction false} PathsMonotone(a: nat, b: nat, c: nat)
    requires b <= c
    ensures Paths(a, b) <= Paths(a, c)
  {
    if b < c {
      PathsMonotone(a, b, c - 1);
    }
  }

  lemma {:induction false} PathsOfOne(a: nat)
    ensures Paths(a, 1) == a + 1
  {
    if a > 0 {
      PathsOfOne(a - 1);
    }
  }

  lemma PathsOfNone(a: nat)
    ensures Paths(a, 0) == 1 == Paths(0, a)
  {
  }

  /** `Paths(1, b) + ... + Paths(t, b)`. */
  function Column(t: nat, b: nat): nat {
    if t == 0 then 0 else Column(t - 1, b) + Paths(t, b)
  }

  lemma {:induction false} ColumnIs(t: nat, b: nat)
    ensures 1 + Column(t, b) + Paths(t + 1, b) == Paths(t + 1, b + 1)
  {
    if t > 0 {
      ColumnIs(t - 1, b);
    }
  }

  /** `Paths(t, a) + ... + Paths(t, a + m - 1)`. */
  function Rise(t: nat, a: nat, m: nat): nat
    decreases m
  {
    if m == 0 then 0 else Paths(t, a) + Rise(t, a + 1, m - 1)
  }

  lemma {:induction false} RiseMonotone(t: nat, a: nat, b: nat, m: nat)
    requires a <= b
    ensures Rise(t, a, m) <= Rise(t, b, m)
    decreases m
  {
    if m > 0 {
      PathsMonotone(t, a, b);
      RiseMonotone(t, a + 1, b + 1, m - 1);
    }
  }

  function Lift(t: nat, a: nat, m: nat): nat {
    if t == 0 then 0 else Lift(t - 1, a, m) + Rise(t, a, m)
  }

  lemma {:induction false} LiftSplit(t: nat, a: nat, m: nat)
    requires m > 0
    ensures Lift(t, a, m) == Column(t, a) + Lift(t, a + 1, m - 1)
  {
    if t > 0 {
      LiftSplit(t - 1, a, m);
    }
  }

  lemma {:induction false} LiftOfNothing(t: nat, a: nat)
    ensures Lift(t, a, 0) == 0
  {
    if t > 0 {
      LiftOfNothing(t - 1, a);
    }
  }

  lemma {:induction false} LiftIs(t: nat, a: nat, m: nat)
    ensures m + Lift(t, a, m) + Paths(t + 1, a) == Paths(t + 1, a + m)
    decreases m
  {
    hide Paths;
    if m == 0 {
      LiftOfNothing(t, a);
    } else {
      LiftIs(t, a + 1, m - 1);
      LiftSplit(t, a, m);
      ColumnIs(t, a);
      assert a + 1 + (m - 1) == a + m;
    }
  }

  // ---------------------------------------------------------------- what can still be compared

  function Budget(maxAttempts: int): (b: nat)
    ensures b >= 1
  {
    if maxAttempts > 1 then maxAttempts else 1
  }

  /** The guesses left, one at a time, once a write with code `n` has landed. */
  function Left(maxAttempts: int, n: nat, w: Write): (l: nat)
    ensures l <= Budget(maxAttempts)
  {
    if w.Put? && w.row.code == n then Budget(maxAttempts - w.row.count) else 0
  }

  /** How many of the writes leave at least `t` guesses. */
  function AtLeast(maxAttempts: int, n: nat, ws: seq<Write>, t: nat): (k: nat)
    ensures k <= |ws|
  {
    if ws == [] then 0
    else AtLeast(maxAttempts, n, ws[..|ws| - 1], t) + if Left(maxAttempts, n, ws[|ws| - 1]) >= t then 1 else 0
  }

  lemma {:induction false} AtLeastAppend(maxAttempts: int, n: nat, a: seq<Write>, b: seq<Write>, t: nat)
    ensures AtLeast(maxAttempts, n, a + b, t) == AtLeast(maxAttempts, n, a, t) + AtLeast(maxAttempts, n, b, t)
  {
    if b == [] {
      assert a + b == a;
    } else {
      AtLeastAppend(maxAttempts, n, a, b[..|b| - 1], t);
      assert (a + b)[..|a + b| - 1] == a + b[..|b| - 1];
    }
  }

  lemma AtLeastOne(maxAttempts: int, n: nat, w: Write, t: nat)
    ensures AtLeast(maxAttempts, n, [w], t) == if Left(maxAttempts, n, w) >= t then 1 else 0
  {
    assert [w][..0] == [];
  }

  lemma AtLeastWithout(maxAttempts: int, n: nat, ws: seq<Write>, i: nat, t: nat)
    requires i < |ws|
    ensures AtLeast(maxAttempts, n, ws, t)
            == AtLeast(maxAttempts, n, ws[..i] + ws[i + 1..], t) + if Left(maxAttempts, n, ws[i]) >= t then 1 else 0
  {
    hide AtLeast, Left;
    assert ws == ws[..i] + [ws[i]] + ws[i + 1..];
    AtLeastAppend(maxAttempts, n, ws[..i] + [ws[i]], ws[i + 1..], t);
    AtLeastAppend(maxAttempts, n, ws[..i], [ws[i]], t);
    AtLeastAppend(maxAttempts, n, ws[..i], ws[i + 1..], t);
    AtLeastOne(maxAttempts, n, ws[i], t);
  }

  lemma {:induction false} AtLeastFalls(maxAttempts: int, n: nat, ws: seq<Write>, t: nat, u: nat)
    requires t <= u
    ensures AtLeast(maxAttempts, n, ws, u) <= AtLeast(maxAttempts, n, ws, t)
  {
    if ws != [] {
      AtLeastFalls(maxAttempts, n, ws[..|ws| - 1], t, u);
    }
  }

  /** What `k` writes that leave `t` guesses add over leaving `t - 1`, when they land one after another. */
  function Tier(c: nat, t: nat, k: nat): nat
    requires k <= c
  {
    if k == 0 then 0 else Tier(c, t, k - 1) + Paths(t, c - k)
  }

  lemma {:induction false} TierMonotone(c: nat, t: nat, k: nat, l: nat)
    requires k <= l <= c
    ensures Tier(c, t, k) <= Tier(c, t, l)
  {
    if k < l {
      TierMonotone(c, t, k, l - 1);
    }
  }

  lemma {:induction false} TierRise(c: nat, t: nat, k: nat, m: nat)
    requires k + m <= c
    ensures Tier(c, t, k + m) == Tier(c, t, k) + Rise(t, c - k - m, m)
  {
    if m > 0 {
      TierRise(c, t, k, m - 1);
    }
  }

  /** The writes on their way, and `free` more that could still be made from a record that leaves `r` guesses. */
  function Count(maxAttempts: int, n: nat, ws: seq<Write>, free: nat, r: nat, t: nat): (k: nat)
    ensures k <= |ws| + free
  {
    AtLeast(maxAttempts, n, ws, t) + if t < r then free else 0
  }

  function Reserve(maxAttempts: int, c: nat, n: nat, ws: seq<Write>, free: nat, r: nat, top: nat): nat
    requires |ws| + free <= c
  {
    if top == 0 then 0
    else Reserve(maxAttempts, c, n, ws, free, r, top - 1) + Tier(c, top, Count(maxAttempts, n, ws, free, r, top))
  }

  lemma {:induction false} ReserveMonotone(
      maxAttempts: int, c: nat, n: nat, ws: seq<Write>, free: nat, r: nat, vs: seq<Write>, free': nat, r': nat, top: nat)
    requires |ws| + free <= c && |vs| + free' <= c
    requires forall t :: 1 <= t <= top ==> Count(maxAttempts, n, ws, free, r, t) <= Count(maxAttempts, n, vs, free', r', t)
    ensures Reserve(maxAttempts, c, n, ws, free, r, top) <= Reserve(maxAttempts, c, n, vs, free', r', top)
  {
    hide Count;
    if top > 0 {
      ReserveMonotone(maxAttempts, c, n, ws, free, r, vs, free', r', top - 1);
      TierMonotone(c, top, Count(maxAttempts, n, ws, free, r, top), Count(maxAttempts, n, vs, free', r', top));
    }
  }

  /** The guesses the record leaves for code `n`, and the places free for them. */
  function Remaining(maxAttempts: int, n: nat, s: State): nat {
    if s.stored.None? then 0 else Left(maxAttempts, n, Put(s.stored.value))
  }

  function Free(c: nat, n: nat, s: State): nat {
    if s.stored.Some? && s.stored.value.code == n && |s.writes| <= c then c - |s.writes| else 0
  }

  /** The most guesses at code `n` that can still be compared. */
  function Potential(maxAttempts: int, c: nat, n: nat, s: State): nat
    requires |s.writes| <= c
  {
    Free(c, n, s) + Reserve(maxAttempts, c, n, s.writes, Free(c, n, s), Remaining(maxAttempts, n, s), Budget(maxAttempts))
  }

  lemma WrongLeavesOneLess(maxAttempts: int, v: Verdict, row: Row, n: nat)
    ensures var w := WriteOf(maxAttempts, v, row);
            && (row.code == n ==> Left(maxAttempts, n, w) < Left(maxAttempts, n, Put(row)))
            && (row.code == n && v.WrongCode? ==> Left(maxAttempts, n, w) == Left(maxAttempts, n, Put(row)) - 1)
            && (row.code != n ==> Left(maxAttempts, n, w) == 0 == Left(maxAttempts, n, Put(row)))
  {
  }

  lemma LookBound(maxAttempts: int, c: nat, n: nat, s: State, v: Verdict)
    requires s.stored.Some? && |s.writes| < c
    ensures Potential(maxAttempts, c, n, Next(maxAttempts, s, Look(v))) + (if Compares(s, Look(v), n) then 1 else 0)
            <= Potential(maxAttempts, c, n, s)
  {
    var t := Next(maxAttempts, s, Look(v));
    var w := WriteOf(maxAttempts, v, s.stored.value);
    WrongLeavesOneLess(maxAttempts, v, s.stored.value, n);
    var r, r' := Remaining(maxAttempts, n, s), Remaining(maxAttempts, n, t);
    hide Left, WriteOf, Reserve;
    forall l | 1 <= l <= Budget(maxAttempts)
      ensures Count(maxAttempts, n, t.writes, Free(c, n, t), r', l) <= Count(maxAttempts, n, s.writes, Free(c, n, s), r, l)
    {
      AtLeastAppend(maxAttempts, n, s.writes, [w], l);
      AtLeastOne(maxAttempts, n, w, l);
    }
    ReserveMonotone(maxAttempts, c, n, t.writes, Free(c, n, t), r', s.writes, Free(c, n, s), r, Budget(maxAttempts));
  }

  /** One tier below what a landing write leaves: it keeps its write and gets the places that are free. */
  lemma TierLift(maxAttempts: int, c: nat, n: nat, ws: seq<Write>, i: nat, t: nat)
    requires i < |ws| <= c && 1 <= t < Left(maxAttempts, n, ws[i])
    ensures var rest := ws[..i] + ws[i + 1..]; var l := Left(maxAttempts, n, ws[i]); var m := c - |ws|;
            var k := AtLeast(maxAttempts, n, ws, l);
            && Count(maxAttempts, n, rest, m + 1, l, t) == AtLeast(maxAttempts, n, ws, t) + m <= c && k + m <= c
            && Tier(c, t, AtLeast(maxAttempts, n, ws, t) + m) <= Tier(c, t, AtLeast(maxAttempts, n, ws, t)) + Rise(t, c - k - m, m)
  {
    var l, m := Left(maxAttempts, n, ws[i]), c - |ws|;
    hide Left, AtLeast, Tier, Rise;
    AtLeastWithout(maxAttempts, n, ws, i, t);
    AtLeastFalls(maxAttempts, n, ws, t, l);
    var at := AtLeast(maxAttempts, n, ws, t);
    TierRise(c, t, at, m);
    RiseMonotone(t, c - at - m, c - AtLeast(maxAttempts, n, ws, l) - m, m);
  }

  lemma NoneExtra(maxAttempts: int, n: nat, ws: seq<Write>, t: nat)
    ensures Count(maxAttempts, n, ws, 0, 0, t) == AtLeast(maxAttempts, n, ws, t)
  {
  }

  lemma NextLift(t: nat, a: nat, m: nat)
    requires t > 0
    ensures Lift(t, a, m) == Lift(t - 1, a, m) + Rise(t, a, m)
  {
  }

  lemma LiftStart(a: nat, m: nat)
    ensures Lift(0, a, m) == 0
  {
  }

  lemma {:induction false} LandLift(maxAttempts: int, c: nat, n: nat, ws: seq<Write>, i: nat, top: nat)
    requires i < |ws| <= c && top < Left(maxAttempts, n, ws[i])
    ensures var rest := ws[..i] + ws[i + 1..]; var l := Left(maxAttempts, n, ws[i]); var m := c - |ws|;
            var k := AtLeast(maxAttempts, n, ws, l);
            && k + m <= c
            && Reserve(maxAttempts, c, n, rest, m + 1, l, top) <= Reserve(maxAttempts, c, n, ws, 0, 0, top) + Lift(top, c - k - m, m)
  {
    hide *;
    var rest := ws[..i] + ws[i + 1..];
    var l, m := Left(maxAttempts, n, ws[i]), c - |ws|;
    var k := AtLeast(maxAttempts, n, ws, l);
    if top == 0 {
      ReserveOfNone(maxAttempts, c, n, rest, m + 1, l);
      LiftStart(c - k - m, m);
    } else {
      LandLift(maxAttempts, c, n, ws, i, top - 1);
      TierLift(maxAttempts, c, n, ws, i, top);
      NoneExtra(maxAttempts, n, ws, top);
      NextTier(maxAttempts, c, n, rest, m + 1, l, top);
      NextTier(maxAttempts, c, n, ws, 0, 0, top);
      NextLift(top, c - k - m, m);
    }
  }

  lemma ReserveOfNone(maxAttempts: int, c: nat, n: nat, ws: seq<Write>, free: nat, r: nat)
    requires |ws| + free <= c
    ensures Reserve(maxAttempts, c, n, ws, free, r, 0) == 0
  {
  }

  lemma NextTier(maxAttempts: int, c: nat, n: nat, ws: seq<Write>, free: nat, r: nat, top: nat)
    requires |ws| + free <= c && top > 0
    ensures Reserve(maxAttempts, c, n, ws, free, r, top)
            == Reserve(maxAttempts, c, n, ws, free, r, top - 1) + Tier(c, top, Count(maxAttempts, n, ws, free, r, top))
  {
  }

  /** At the tier a landing write reaches, it gives up its place, and that pays for the places it frees below. */
  lemma OwnTier(maxAttempts: int, c: nat, n: nat, ws: seq<Write>, i: nat)
    requires i < |ws| <= c && Left(maxAttempts, n, ws[i]) >= 1
    ensures var rest := ws[..i] + ws[i + 1..]; var l := Left(maxAttempts, n, ws[i]); var m := c - |ws|;
            var k := AtLeast(maxAttempts, n, ws, l);
            && Count(maxAttempts, n, rest, m + 1, l, l) == k - 1 && k + m <= c
            && m + 1 + Lift(l - 1, c - k - m, m) + Tier(c, l, k - 1) <= Tier(c, l, k)
  {
    var l, m := Left(maxAttempts, n, ws[i]), c - |ws|;
    hide *;
    OwnPlace(maxAttempts, n, ws, i, m + 1);
    var k := AtLeast(maxAttempts, n, ws, l);
    LiftIs(l - 1, c - k - m, m);
    assert c - k - m + m == c - k;
    LastOfTier(c, l, k);
  }

  lemma LastOfTier(c: nat, t: nat, k: nat)
    requires 1 <= k <= c
    ensures Tier(c, t, k) == Tier(c, t, k - 1) + Paths(t, c - k)
  {
  }

  lemma OwnPlace(maxAttempts: int, n: nat, ws: seq<Write>, i: nat, free: nat)
    requires i < |ws| && Left(maxAttempts, n, ws[i]) >= 1
    ensures var l := Left(maxAttempts, n, ws[i]); var k := AtLeast(maxAttempts, n, ws, l);
            Count(maxAttempts, n, ws[..i] + ws[i + 1..], free, l, l) == k - 1 && 1 <= k <= |ws|
  {
    AtLeastWithout(maxAttempts, n, ws, i, Left(maxAttempts, n, ws[i]));
  }

  lemma UpperTier(maxAttempts: int, c: nat, n: nat, ws: seq<Write>, i: nat, t: nat)
    requires i < |ws| <= c && t > Left(maxAttempts, n, ws[i])
    ensures var rest := ws[..i] + ws[i + 1..]; var l := Left(maxAttempts, n, ws[i]); var m := c - |ws|;
            Count(maxAttempts, n, rest, m + 1, l, t) == AtLeast(maxAttempts, n, ws, t)
  {
    AtLeastWithout(maxAttempts, n, ws, i, t);
  }

  /** So a write that lands never raises what can still be compared. */
  lemma {:induction false} LandPays(maxAttempts: int, c: nat, n: nat, ws: seq<Write>, i: nat, top: nat)
    requires i < |ws| <= c && top >= Left(maxAttempts, n, ws[i]) >= 1
    ensures var rest := ws[..i] + ws[i + 1..]; var l := Left(maxAttempts, n, ws[i]); var m := c - |ws|;
            m + 1 + Reserve(maxAttempts, c, n, rest, m + 1, l, top) <= Reserve(maxAttempts, c, n, ws, 0, 0, top)
  {
    hide *;
    var rest := ws[..i] + ws[i + 1..];
    var l, m := Left(maxAttempts, n, ws[i]), c - |ws|;
    NextTier(maxAttempts, c, n, rest, m + 1, l, top);
    NextTier(maxAttempts, c, n, ws, 0, 0, top);
    NoneExtra(maxAttempts, n, ws, top);
    if top > l {
      UpperTier(maxAttempts, c, n, ws, i, top);
      LandPays(maxAttempts, c, n, ws, i, top - 1);
    } else {
      LandLift(maxAttempts, c, n, ws, i, l - 1);
      OwnTier(maxAttempts, c, n, ws, i);
    }
  }

  lemma LandBound(maxAttempts: int, c: nat, n: nat, s: State, i: nat)
    requires i < |s.writes| <= c
    ensures Potential(maxAttempts, c, n, Next(maxAttempts, s, Land(i))) <= Potential(maxAttempts, c, n, s)
  {
    var t := Next(maxAttempts, s, Land(i));
    var l, b := Left(maxAttempts, n, s.writes[i]), Budget(maxAttempts);
    Afloat(maxAttempts, c, n, s);
    if l >= 1 {
      LandPays(maxAttempts, c, n, s.writes, i, b);
    } else {
      hide Reserve, AtLeast;
      forall u | 1 <= u <= b
        ensures Count(maxAttempts, n, t.writes, 0, 0, u) <= Count(maxAttempts, n, s.writes, 0, 0, u)
      {
        AtLeastWithout(maxAttempts, n, s.writes, i, u);
      }
      ReserveMonotone(maxAttempts, c, n, t.writes, 0, 0, s.writes, 0, 0, b);
    }
  }

  /** The writes on their way are worth as much without the record. */
  lemma Afloat(maxAttempts: int, c: nat, n: nat, s: State)
    requires |s.writes| <= c
    ensures Reserve(maxAttempts, c, n, s.writes, 0, 0, Budget(maxAttempts)) <= Potential(maxAttempts, c, n, s)
  {
    ReserveMonotone(maxAttempts, c, n, s.writes, 0, 0, s.writes, Free(c, n, s), Remaining(maxAttempts, n, s), Budget(maxAttempts));
  }

  /** No code is about that has not been sent. */
  predicate Known(s: State) {
    && (s.stored.Some? ==> s.stored.value.code < s.sent)
    && forall i :: 0 <= i < |s.writes| && s.writes[i].Put? ==> s.writes[i].row.code < s.sent
  }

  lemma KnownStays(maxAttempts: int, s: State, step: Step)
    requires Known(s)
    ensures Known(Next(maxAttempts, s, step))
  {
  }

  lemma {:induction false} NothingAbout(maxAttempts: int, n: nat, ws: seq<Write>, t: nat)
    requires t >= 1 && forall i :: 0 <= i < |ws| && ws[i].Put? ==> ws[i].row.code != n
    ensures AtLeast(maxAttempts, n, ws, t) == 0
  {
    if ws != [] {
      NothingAbout(maxAttempts, n, ws[..|ws| - 1], t);
    }
  }

  lemma {:induction false} FullTiers(maxAttempts: int, c: nat, n: nat, free: nat, ws: seq<Write>, r: nat, top: nat)
    requires |ws| + free <= c && top < r
    requires forall i :: 0 <= i < |ws| && ws[i].Put? ==> ws[i].row.code != n
    ensures Reserve(maxAttempts, c, n, ws, free, r, top) <= Lift(top, 0, c)
  {
    if top > 0 {
      FullTiers(maxAttempts, c, n, free, ws, r, top - 1);
      NothingAbout(maxAttempts, n, ws, top);
      TierMonotone(c, top, free, c);
      TierRise(c, top, 0, c);
    }
  }

  lemma FreshPotential(maxAttempts: int, c: nat, s: State)
    requires Known(s) && |s.writes| <= c
    ensures Potential(maxAttempts, c, s.sent, Next(maxAttempts, s, Send)) < Paths(Budget(maxAttempts), c)
  {
    var b, n, free := Budget(maxAttempts), s.sent, c - |s.writes|;
    FullTiers(maxAttempts, c, n, free, s.writes, b, b - 1);
    NothingAbout(maxAttempts, n, s.writes, b);
    hide Paths, Lift;
    NextTier(maxAttempts, c, n, s.writes, free, b, b);
    LiftIs(b - 1, 0, c);
    PathsOfNone(b);
  }

  // ---------------------------------------------------------------- the bound, and that it is met

  /** At most `c` guesses are ever between their look and their write. */
  ghost predicate AtMostAtOnce(maxAttempts: int, steps: seq<Step>, c: nat) {
    forall k :: 0 <= k <= |steps| ==> |Exec(maxAttempts, NONE_SENT, steps[..k]).writes| <= c
  }

  lemma SendElsewhere(maxAttempts: int, c: nat, n: nat, s: State)
    requires |s.writes| <= c && n != s.sent
    ensures Potential(maxAttempts, c, n, Next(maxAttempts, s, Send)) <= Potential(maxAttempts, c, n, s)
  {
    var t := Next(maxAttempts, s, Send);
    hide Reserve;
    Afloat(maxAttempts, c, n, s);
    ReserveMonotone(maxAttempts, c, n, t.writes, 0, 0, s.writes, 0, 0, Budget(maxAttempts));
  }

  /** A step never raises what has been compared with a code and what can still be. */
  lemma StepBound(maxAttempts: int, c: nat, n: nat, s: State, step: Step)
    requires |s.writes| <= c && |Next(maxAttempts, s, step).writes| <= c && (step.Send? ==> n != s.sent)
    ensures Potential(maxAttempts, c, n, Next(maxAttempts, s, step)) + (if Compares(s, step, n) then 1 else 0)
            <= Potential(maxAttempts, c, n, s)
  {
    hide Potential;
    match step
    case Send => SendElsewhere(maxAttempts, c, n, s);
    case Look(v) =>
      if s.stored.Some? {
        LookBound(maxAttempts, c, n, s, v);
      }
    case Land(i) =>
      if i < |s.writes| {
        LandBound(maxAttempts, c, n, s, i);
      }
  }

  lemma {:induction false} ComparedBound(maxAttempts: int, steps: seq<Step>, c: nat, n: nat)
    requires AtMostAtOnce(maxAttempts, steps, c)
    ensures var s := Exec(maxAttempts, NONE_SENT, steps);
            && Known(s) && |s.writes| <= c
            && if n < s.sent
               then Compared(maxAttempts, NONE_SENT, steps, n) + Potential(maxAttempts, c, n, s) < Paths(Budget(maxAttempts), c)
               else Compared(maxAttempts, NONE_SENT, steps, n) == 0
  {
    assert steps[..|steps|] == steps;
    if steps != [] {
      var init, last := steps[..|steps| - 1], steps[|steps| - 1];
      assert forall k :: 0 <= k <= |init| ==> init[..k] == steps[..k];
      ComparedBound(maxAttempts, init, c, n);
      var s := Exec(maxAttempts, NONE_SENT, init);
      hide Potential, Paths;
      KnownStays(maxAttempts, s, last);
      if n < s.sent {
        StepBound(maxAttempts, c, n, s, last);
      } else if last.Send? && n == s.sent {
        FreshPotential(maxAttempts, c, s);
      }
    }
  }

  /**
   However guesses at the codes of an address overlap, at most `c` at once, and whatever is sent between: with each code
   fewer guesses are compared than there are ways to choose `c` of `c + max(1, maxAttempts)`.
   */
  lemma OverlappingGuessesBound(maxAttempts: int, steps: seq<Step>, c: nat, n: nat)
    requires AtMostAtOnce(maxAttempts, steps, c)
    ensures Compared(maxAttempts, NONE_SENT, steps, n) < Paths(Budget(maxAttempts), c)
  {
    ComparedBound(maxAttempts, steps, c, n);
  }

  /** With `free` places and `r` guesses left: one look is kept waiting while the other places are used up, then it lands. */
  function Greedy(r: nat, free: nat, waiting: nat): seq<Step> {
    if r == 0 || free == 0 then []
    else [Look(WrongCode)] + Greedy(r, free - 1, waiting + 1) + [Land(waiting)] + Greedy(r - 1, free, waiting)
  }

  /** The run never has more than `c` writes on their way. */
  ghost predicate Within(maxAttempts: int, s: State, steps: seq<Step>, c: nat) {
    forall k :: 0 <= k <= |steps| ==> |Exec(maxAttempts, s, steps[..k]).writes| <= c
  }

  lemma WithinAppend(maxAttempts: int, s: State, a: seq<Step>, b: seq<Step>, c: nat)
    requires Within(maxAttempts, s, a, c) && Within(maxAttempts, Exec(maxAttempts, s, a), b, c)
    ensures Within(maxAttempts, s, a + b, c)
  {
    forall k | 0 <= k <= |a + b| ensures |Exec(maxAttempts, s, (a + b)[..k]).writes| <= c {
      if k <= |a| {
        assert (a + b)[..k] == a[..k];
      } else {
        assert (a + b)[..k] == a + b[..k - |a|];
        RunAppend(maxAttempts, s, a, b[..k - |a|], 0);
      }
    }
  }

  lemma WithinOne(maxAttempts: int, s: State, step: Step, c: nat)
    requires |s.writes| <= c && |Next(maxAttempts, s, step).writes| <= c
    ensures Within(maxAttempts, s, [step], c)
  {
    assert [step][..0] == [] && [step][..1] == [step];
    OneStep(maxAttempts, s, step, 0);
  }

  /** The record leaves `r` guesses for code `n`; when that is none, there is no need for a record. */
  ghost predicate Leaves(maxAttempts: int, s: State, n: nat, r: nat) {
    r > 0 ==> s.stored.Some? && s.stored.value.code == n && Left(maxAttempts, n, Put(s.stored.value)) == r
  }

  lemma LookFirst(maxAttempts: int, s: State, n: nat, r: nat, c: nat)
    requires r > 0 && Leaves(maxAttempts, s, n, r) && |s.writes| < c
    ensures var s1 := Next(maxAttempts, s, Look(WrongCode));
            && Exec(maxAttempts, s, [Look(WrongCode)]) == s1 && |s1.writes| == |s.writes| + 1 && Leaves(maxAttempts, s1, n, r)
            && Within(maxAttempts, s, [Look(WrongCode)], c) && Compared(maxAttempts, s, [Look(WrongCode)], n) == 1
  {
    WithinOne(maxAttempts, s, Look(WrongCode), c);
    OneStep(maxAttempts, s, Look(WrongCode), n);
  }

  lemma LandOnce(maxAttempts: int, s: State, i: nat, n: nat, c: nat)
    requires i < |s.writes| <= c
    ensures Exec(maxAttempts, s, [Land(i)]) == Next(maxAttempts, s, Land(i))
    ensures Within(maxAttempts, s, [Land(i)], c) && Compared(maxAttempts, s, [Land(i)], n) == 0
  {
    WithinOne(maxAttempts, s, Land(i), c);
    OneStep(maxAttempts, s, Land(i), n);
  }

  lemma GreedyUnfold(r: nat, free: nat, waiting: nat)
    ensures Greedy(r, free, waiting)
            == if r == 0 || free == 0 then []
               else [Look(WrongCode)] + Greedy(r, free - 1, waiting + 1) + [Land(waiting)] + Greedy(r - 1, free, waiting)
    ensures r == 0 || free == 0 ==> Paths(r, free) == 1
    ensures r > 0 && free > 0 ==> Paths(r, free) == Paths(r - 1, free) + Paths(r, free - 1)
  {
  }

  lemma NoSteps(maxAttempts: int, s: State, n: nat, c: nat)
    requires |s.writes| <= c
    ensures Within(maxAttempts, s, [], c) && Exec(maxAttempts, s, []) == s && Compared(maxAttempts, s, [], n) == 0
  {
  }

  lemma {:induction false} GreedyRun(maxAttempts: int, s: State, n: nat, r: nat, free: nat)
    requires Leaves(maxAttempts, s, n, r)
    ensures var steps := Greedy(r, free, |s.writes|);
            && Within(maxAttempts, s, steps, |s.writes| + free)
            && Exec(maxAttempts, s, steps).writes == s.writes
            && Compared(maxAttempts, s, steps, n) == Paths(r, free) - 1
    decreases r, free
  {
    hide *;
    var waiting, c := |s.writes|, |s.writes| + free;
    GreedyUnfold(r, free, waiting);
    if r == 0 || free == 0 {
      NoSteps(maxAttempts, s, n, c);
    } else {
      var look, land := Look(WrongCode), Land(waiting);
      var first, rest := Greedy(r, free - 1, waiting + 1), Greedy(r - 1, free, waiting);
      var s1 := Next(maxAttempts, s, look);
      LookFirst(maxAttempts, s, n, r, c);
      GreedyRun(maxAttempts, s1, n, r, free - 1);
      var s2 := Exec(maxAttempts, s1, first);
      var s3 := Next(maxAttempts, s2, land);
      LandOnce(maxAttempts, s2, waiting, n, c);
      LandsAgain(maxAttempts, s, s2, n, r);
      GreedyRun(maxAttempts, s3, n, r - 1, free);
      Joins(maxAttempts, s, [look], first, n, c, s1);
      Joins(maxAttempts, s, [look] + first, [land], n, c, s2);
      Joins(maxAttempts, s, [look] + first + [land], rest, n, c, s3);
    }
  }

  lemma PathsUnfold(r: nat, free: nat)
    requires r > 0 && free > 0
    ensures Paths(r, free) == Paths(r - 1, free) + Paths(r, free - 1)
  {
  }

  /** The write that waited lands: the record leaves one guess less, or is gone. */
  lemma LandsAgain(maxAttempts: int, s: State, s2: State, n: nat, r: nat)
    requires r > 0 && Leaves(maxAttempts, s, n, r) && s2.writes == Next(maxAttempts, s, Look(WrongCode)).writes
    ensures var s3 := Next(maxAttempts, s2, Land(|s.writes|)); s3.writes == s.writes && Leaves(maxAttempts, s3, n, r - 1)
  {
    WrongLeavesOneLess(maxAttempts, WrongCode, s.stored.value, n);
  }

  lemma Joins(maxAttempts: int, s: State, a: seq<Step>, b: seq<Step>, n: nat, c: nat, mid: State)
    requires Exec(maxAttempts, s, a) == mid && Within(maxAttempts, s, a, c) && Within(maxAttempts, mid, b, c)
    ensures Within(maxAttempts, s, a + b, c) && Exec(maxAttempts, s, a + b) == Exec(maxAttempts, mid, b)
    ensures Compared(maxAttempts, s, a + b, n) == Compared(maxAttempts, s, a, n) + Compared(maxAttempts, mid, b, n)
  {
    WithinAppend(maxAttempts, s, a, b, c);
    RunAppend(maxAttempts, s, a, b, n);
  }

  /** The bound is met: for every `c` there is a run with as many comparisons, one short of it. */
  lemma OverlappingGuessesMeetBound(maxAttempts: int, c: nat) returns (steps: seq<Step>)
    ensures AtMostAtOnce(maxAttempts, steps, c)
    ensures Compared(maxAttempts, NONE_SENT, steps, 0) == Paths(Budget(maxAttempts), c) - 1
  {
    var sent := Next(maxAttempts, NONE_SENT, Send);
    OneStep(maxAttempts, NONE_SENT, Send, 0);
    GreedyRun(maxAttempts, sent, 0, Budget(maxAttempts), c);
    var greedy := Greedy(Budget(maxAttempts), c, 0);
    assert [Send][..0] == [] && [Send][..1] == [Send];
    Joins(maxAttempts, NONE_SENT, [Send], greedy, 0, c, sent);
    steps := [Send] + greedy;
  }

  lemma ManyPaths(b: nat, c: nat)
    requires b >= 1
    ensures Paths(b, c) - 1 <= b <==> c <= 1
  {
    PathsOfNone(b);
    PathsOfOne(b);
    if c >= 2 {
      PathsOfOne(b - 1);
      PathsUnfold(b, 2);
      PathsMonotone(b, 2, c);
    }
  }

  /** The budget of wrong guesses holds for every run with at most `c` guesses at once exactly when `c` is at most 1. */
  lemma BudgetHoldsIff(maxAttempts: int, c: nat)
    ensures (forall steps, n :: AtMostAtOnce(maxAttempts, steps, c) ==> Compared(maxAttempts, NONE_SENT, steps, n) <= Budget(maxAttempts))
            <==> c <= 1
  {
    ManyPaths(Budget(maxAttempts), c);
    hide Paths;
    if c <= 1 {
      forall steps, n | AtMostAtOnce(maxAttempts, steps, c) ensures Compared(maxAttempts, NONE_SENT, steps, n) <= Budget(maxAttempts) {
        OverlappingGuessesBound(maxAttempts, steps, c, n);
      }
    } else {
      var steps := OverlappingGuessesMeetBound(maxAttempts, c);
      assert Compared(maxAttempts, NONE_SENT, steps, 0) > Budget(maxAttempts);
    }
  }

  /** One guess at a time, the budget holds for each code. */
  lemma OneAtATimeBound(maxAttempts: int, steps: seq<Step>, n: nat)
    requires AtMostAtOnce(maxAttempts, steps, 1)
    ensures Compared(maxAttempts, NONE_SENT, steps, n) <= Budget(maxAttempts)
  {
    OverlappingGuessesBound(maxAttempts, steps, 1, n);
    PathsOfOne(Budget(maxAttempts));
  }

  lemma {:induction false} LooksAdd(maxAttempts: int, n: nat)
    ensures var steps := [Send] + seq(n, i => Look(WrongCode)); var s := Exec(maxAttempts, NONE_SENT, steps);
            s.stored == Some(Row(0, 0)) && Compared(maxAttempts, NONE_SENT, steps, 0) == n
  {
    var looks := seq(n, i => Look(WrongCode));
    if n == 0 {
      assert [Send] + looks == [Send];
      OneStep(maxAttempts, NONE_SENT, Send, 0);
    } else {
      assert ([Send] + looks)[..n] == [Send] + seq(n - 1, i => Look(WrongCode));
      LooksAdd(maxAttempts, n - 1);
    }
  }

  /** Without a limit on the overlap any number of wrong guesses is compared, whatever the budget, and then a right one accepted. */
  lemma OverlappingGuessesExceed(maxAttempts: int, n: nat)
    ensures exists steps ::
              Compared(maxAttempts, NONE_SENT, steps, 0) == n + 1 && Accepted(maxAttempts, NONE_SENT, steps, 0) >= 1
  {
    var steps := [Send] + seq(n, i => Look(WrongCode));
    LooksAdd(maxAttempts, n);
    RunAppend(maxAttempts, NONE_SENT, steps, [Look(RightCode)], 0);
    OneStep(maxAttempts, Exec(maxAttempts, NONE_SENT, steps), Look(RightCode), 0);
    assert Compared(maxAttempts, NONE_SENT, steps + [Look(RightCode)], 0) == n + 1;
  }

  // ---------------------------------------------------------------- codes that come back, codes that are lost

  /** Code `n` is stored, or a write that stores it is on its way. */
  ghost predicate MayReturn(s: State, n: nat) {
    || (s.stored.Some? && s.stored.value.code == n)
    || exists i :: 0 <= i < |s.writes| && s.writes[i].Put? && s.writes[i].row.code == n
  }

  lemma {:induction false} GoneStaysGone(maxAttempts: int, s: State, steps: seq<Step>, n: nat)
    requires !MayReturn(s, n) && n < s.sent
    ensures var t := Exec(maxAttempts, s, steps); !MayReturn(t, n) && n < t.sent && Accepted(maxAttempts, s, steps, n) == 0
  {
    if steps != [] {
      GoneStaysGone(maxAttempts, s, steps[..|steps| - 1], n);
    }
  }

  /** From any state a code that was sent can still be accepted exactly when it is stored or about to be stored again. */
  lemma AcceptableIff(maxAttempts: int, s: State, n: nat)
    requires n < s.sent
    ensures (exists more :: Accepted(maxAttempts, s, more, n) > 0) <==> MayReturn(s, n)
  {
    if s.stored.Some? && s.stored.value.code == n {
      OneStep(maxAttempts, s, Look(RightCode), n);
      assert Accepted(maxAttempts, s, [Look(RightCode)], n) > 0;
    } else if MayReturn(s, n) {
      var i: nat :| i < |s.writes| && s.writes[i].Put? && s.writes[i].row.code == n;
      OneStep(maxAttempts, s, Land(i), n);
      OneStep(maxAttempts, Next(maxAttempts, s, Land(i)), Look(RightCode), n);
      RunAppend(maxAttempts, s, [Land(i)], [Look(RightCode)], n);
      assert Accepted(maxAttempts, s, [Land(i)] + [Look(RightCode)], n) > 0;
    } else {
      forall more ensures Accepted(maxAttempts, s, more, n) == 0 {
        GoneStaysGone(maxAttempts, s, more, n);
      }
    }
  }

  lemma ThreeSteps(maxAttempts: int, s: State, a: Step, b: Step, d: Step, n: nat)
    ensures var t := Next(maxAttempts, s, a); var u := Next(maxAttempts, t, b);
            && Exec(maxAttempts, s, [a, b, d]) == Next(maxAttempts, u, d)
            && Accepted(maxAttempts, s, [a, b, d], n)
               == (if Compares(s, a, n) && a.verdict.RightCode? then 1 else 0)
                  + (if Compares(t, b, n) && b.verdict.RightCode? then 1 else 0)
                  + if Compares(u, d, n) && d.verdict.RightCode? then 1 else 0
  {
    hide Next, Compares;
    var t := Next(maxAttempts, s, a);
    OneStep(maxAttempts, s, a, n);
    OneStep(maxAttempts, t, b, n);
    OneStep(maxAttempts, Next(maxAttempts, t, b), d, n);
    RunAppend(maxAttempts, s, [a], [b], n);
    RunAppend(maxAttempts, s, [a] + [b], [d], n);
    assert [a] + [b] + [d] == [a, b, d];
  }

  /** A code that was used comes back when a wrong guess looked before the right one and writes after it. */
  lemma UsedCodeComesBack(maxAttempts: int)
    requires maxAttempts > 1
    ensures var sent := Next(maxAttempts, NONE_SENT, Send);
            var steps := [Look(WrongCode), Look(RightCode), Land(1)];
            var used := Exec(maxAttempts, sent, steps);
            && Accepted(maxAttempts, sent, steps, 0) == 1 && used.stored == None
            && exists more :: Accepted(maxAttempts, used, more, 0) > 0
  {
    var sent := Next(maxAttempts, NONE_SENT, Send);
    ThreeSteps(maxAttempts, sent, Look(WrongCode), Look(RightCode), Land(1), 0);
    var used := Exec(maxAttempts, sent, [Look(WrongCode), Look(RightCode), Land(1)]);
    assert used.writes == [Put(Row(0, 1))];
    assert used.writes[0].Put?;
    AcceptableIff(maxAttempts, used, 0);
  }

  /** A code that was sent between a wrong guess's look and its write is lost, and the code before it is back. */
  lemma LateWriteLosesCode(maxAttempts: int)
    requires maxAttempts > 1
    ensures var sent := Next(maxAttempts, NONE_SENT, Send);
            var late := Exec(maxAttempts, sent, [Look(WrongCode), Send, Land(0)]);
            && (forall more :: Accepted(maxAttempts, late, more, 1) == 0)
            && exists more :: Accepted(maxAttempts, late, more, 0) > 0
  {
    var sent := Next(maxAttempts, NONE_SENT, Send);
    ThreeSteps(maxAttempts, sent, Look(WrongCode), Send, Land(0), 0);
    var late := Exec(maxAttempts, sent, [Look(WrongCode), Send, Land(0)]);
    assert late.stored == Some(Row(0, 1)) && late.writes == [] && late.sent == 2;
    AcceptableIff(maxAttempts, late, 0);
    forall more ensures Accepted(maxAttempts, late, more, 1) == 0 {
      GoneStaysGone(maxAttempts, late, more, 1);
    }
  }
}
