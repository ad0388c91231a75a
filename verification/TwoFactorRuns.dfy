/**
 Checks of one user's authenticator codes, and of recovery codes, that overlap. `verifyCodeWithCounter` and
 `verifyRecoveryCode` of packages/auth/src/TwoFactorService.ts are handed what is stored and return what is to be stored;
 the application loads the one before the call and saves the other some time after it.
 */
module TwoFactorRuns {
  import opened TwoFactor
  import opened Wrappers

  // ---------------------------------------------------------------- authenticator codes

  datatype Checker = Checker(hmac: Hmac, key: seq<nat>, window: int)

  /** The counter on record, and the accepted counters on their way there. */
  datatype Counter = Counter(last: Option<int>, writes: seq<nat>)

  datatype Step = Look(now: int, token: string) | Land(i: nat)

  /** The counter that a step accepts a code with, if it does. */
  function Found(k: Checker, s: Counter, step: Step): Option<nat>
    requires Digests(k.hmac)
  {
    if step.Look? then Decision(k.hmac, k.key, k.window, step.now, s.last, step.token) else None
  }

  function Next(k: Checker, s: Counter, step: Step): Counter
    requires Digests(k.hmac)
  {
    match step
    case Look(_, _) => if Found(k, s, step).Some? then s.(writes := s.writes + [Found(k, s, step).value]) else s
    case Land(i) => if i < |s.writes| then Counter(Some(s.writes[i]), s.writes[..i] + s.writes[i + 1..]) else s
  }

  function Exec(k: Checker, s: Counter, steps: seq<Step>): Counter
    requires Digests(k.hmac)
  {
    if steps == [] then s else Next(k, Exec(k, s, steps[..|steps| - 1]), steps[|steps| - 1])
  }

  /** The counters accepted in a run, in order. */
  function AcceptedIn(k: Checker, s: Counter, steps: seq<Step>): seq<nat>
    requires Digests(k.hmac)
  {
    if steps == [] then []
    else
      var init, last := steps[..|steps| - 1], steps[|steps| - 1];
      var d := Found(k, Exec(k, s, init), last);
      AcceptedIn(k, s, init) + if d.Some? then [d.value] else []
  }

  lemma OneStep(k: Checker, s: Counter, step: Step)
    requires Digests(k.hmac)
    ensures Exec(k, s, [step]) == Next(k, s, step)
    ensures AcceptedIn(k, s, [step]) == if Found(k, s, step).Some? then [Found(k, s, step).value] else []
  {
    hide Found, Next, Digests;
    assert [step][..0] == [];
  }

  lemma TwoSteps(k: Checker, s: Counter, a: Step, b: Step)
    requires Digests(k.hmac)
    ensures var t := Next(k, s, a);
            && Exec(k, s, [a, b]) == Next(k, t, b)
            && AcceptedIn(k, s, [a, b]) == (if Found(k, s, a).Some? then [Found(k, s, a).value] else [])
                                           + if Found(k, t, b).Some? then [Found(k, t, b).value] else []
  {
    hide Found, Next, Digests;
    OneStep(k, s, a);
    assert [a, b][..1] == [a];
  }

  lemma NewerFound(k: Checker, s: Counter, step: Step)
    requires Digests(k.hmac)
    ensures Found(k, s, step).Some? && s.last.Some? ==> Found(k, s, step).value > s.last.value
  {
    hide Decision, Digests;
    if step.Look? {
      NewerThanLast(k.hmac, k.key, k.window, step.now, s.last, step.token);
    }
  }

  /** A check that nothing overlaps, and its save. */
  lemma CheckIsLookAndLand(k: Checker, last: Option<int>, now: int, token: string)
    requires Digests(k.hmac)
    ensures var d := Decision(k.hmac, k.key, k.window, now, last, token);
            Next(k, Next(k, Counter(last, []), Look(now, token)), Land(0)) == Counter(if d.Some? then Some(d.value) else last, [])
  {
    hide Decision, Digests;
  }

  predicate Newer(last: Option<int>, x: int) {
    last.Some? ==> last.value < x
  }

  lemma {:induction false} DigitsStay(s: string)
    requires forall i :: 0 <= i < |s| ==> Text.IsDigit(s[i])
    ensures WithoutSpaces(s) == s
  {
    if s != [] {
      DigitsStay(s[1..]);
    }
  }

  /** The code of a counter is accepted with that counter when it is the newest of its window and newer than the last used. */
  lemma CodeIsFound(k: Checker, s: Counter, x: nat)
    requires Digests(k.hmac) && k.window >= 0 && Newer(s.last, x)
    ensures Found(k, s, Look(x - k.window, CodeText(Hotp(k.hmac, k.key, x)))) == Some(x)
  {
    hide *;
    var now, code := x - k.window, CodeText(Hotp(k.hmac, k.key, x));
    CodeTextIs(Hotp(k.hmac, k.key, x));
    SixDigitsStay(code);
    ProducesOwn(k.hmac, k.key, x);
    NewestStep(k.hmac, k.key, code, now - k.window, x);
    NewestDecides(k, s.last, now, code, x);
    LookFinds(k, s, now, code);
  }

  lemma SixDigitsStay(code: string)
    requires SixDigits(code)
    ensures WithoutSpaces(code) == code
  {
    DigitsStay(code);
  }

  lemma ProducesOwn(hmac: Hmac, key: seq<nat>, x: nat)
    requires Digests(hmac)
    ensures Produces(hmac, key, x, CodeText(Hotp(hmac, key, x)))
  {
    hide CodeText, Hotp;
  }

  lemma NewestDecides(k: Checker, last: Option<int>, now: int, code: string, x: nat)
    requires Digests(k.hmac) && SixDigits(code) && WithoutSpaces(code) == code && Newer(last, x)
    requires Newest(k.hmac, k.key, code, now - k.window, now + k.window) == Some(x)
    ensures Decision(k.hmac, k.key, k.window, now, last, code) == Some(x)
  {
    hide Newest, WithoutSpaces, SixDigits;
  }

  lemma LookFinds(k: Checker, s: Counter, now: int, token: string)
    requires Digests(k.hmac)
    ensures Found(k, s, Look(now, token)) == Decision(k.hmac, k.key, k.window, now, s.last, token)
  {
    hide Decision;
  }

  /** At most `c` checks are ever between their look at the counter and their save. */
  ghost predicate AtMostAtOnce(k: Checker, last: Option<int>, steps: seq<Step>, c: nat)
    requires Digests(k.hmac)
  {
    forall n :: 0 <= n <= |steps| ==> |Exec(k, Counter(last, []), steps[..n]).writes| <= c
  }

  /** What is on record or on its way is the newest accepted. */
  ghost predicate Recorded(last: Option<int>, s: Counter, accepted: seq<nat>) {
    && IncreasesAfter(last, accepted) && |s.writes| <= 1
    && if accepted == [] then s == Counter(last, [])
       else if s.writes == [] then s.last == Some(accepted[|accepted| - 1])
       else s.writes == [accepted[|accepted| - 1]]
  }

  lemma RecordedStep(last: Option<int>, s: Counter, accepted: seq<nat>, d: nat)
    requires Recorded(last, s, accepted) && s.writes == [] && Newer(s.last, d)
    ensures Recorded(last, Counter(s.last, [d]), accepted + [d])
  {
    var all := accepted + [d];
    forall i, j | 0 <= i < j < |all| ensures all[i] < all[j] {
      assert accepted[i] <= accepted[|accepted| - 1];
    }
  }

  lemma RecordedLand(last: Option<int>, s: Counter, accepted: seq<nat>)
    requires Recorded(last, s, accepted) && s.writes != []
    ensures Recorded(last, Counter(Some(s.writes[0]), []), accepted)
  {
    hide IncreasesAfter;
  }

  lemma RecordedNext(k: Checker, last: Option<int>, s: Counter, accepted: seq<nat>, step: Step)
    requires Digests(k.hmac) && Recorded(last, s, accepted) && |s.writes| <= 1 && |Next(k, s, step).writes| <= 1
    ensures Recorded(last, Next(k, s, step), accepted + if Found(k, s, step).Some? then [Found(k, s, step).value] else [])
  {
    NewerFound(k, s, step);
    FoundByLook(k, s, step);
    hide Found, Digests, Recorded;
    assert accepted + [] == accepted;
    if Found(k, s, step).Some? {
      RecordedStep(last, s, accepted, Found(k, s, step).value);
    } else if step.Land? && step.i < |s.writes| {
      assert s.writes[..0] + s.writes[1..] == [];
      RecordedLand(last, s, accepted);
    }
  }

  lemma FoundByLook(k: Checker, s: Counter, step: Step)
    requires Digests(k.hmac)
    ensures Found(k, s, step).Some? ==> step.Look?
  {
    hide Decision;
  }

  lemma {:induction false} TurnsIncrease(k: Checker, last: Option<int>, steps: seq<Step>)
    requires Digests(k.hmac) && AtMostAtOnce(k, last, steps, 1)
    ensures Recorded(last, Exec(k, Counter(last, []), steps), AcceptedIn(k, Counter(last, []), steps))
  {
    hide Digests, Found, Next, Recorded;
    if steps == [] {
      NothingRecorded(last);
    } else {
      var init, step := steps[..|steps| - 1], steps[|steps| - 1];
      forall n | 0 <= n <= |init| ensures |Exec(k, Counter(last, []), init[..n]).writes| <= 1 {
        assert init[..n] == steps[..n];
      }
      TurnsIncrease(k, last, init);
      assert steps[..|steps|] == steps;
      OneWaits(last, Exec(k, Counter(last, []), init), AcceptedIn(k, Counter(last, []), init));
      RecordedNext(k, last, Exec(k, Counter(last, []), init), AcceptedIn(k, Counter(last, []), init), step);
    }
  }

  lemma OneWaits(last: Option<int>, s: Counter, accepted: seq<nat>)
    requires Recorded(last, s, accepted)
    ensures |s.writes| <= 1
  {
  }

  lemma NothingRecorded(last: Option<int>)
    ensures Recorded(last, Counter(last, []), [])
  {
  }

  /** Two checks that look before either saves accept one counter twice. */
  lemma AcceptedTwice(k: Checker, last: Option<int>, x: nat) returns (steps: seq<Step>)
    requires Digests(k.hmac) && k.window >= 0 && Newer(last, x)
    ensures AtMostAtOnce(k, last, steps, 2) && AcceptedIn(k, Counter(last, []), steps) == [x, x]
  {
    var look := Look(x - k.window, CodeText(Hotp(k.hmac, k.key, x)));
    var s := Counter(last, []);
    CodeIsFound(k, s, x);
    CodeIsFound(k, Counter(last, [x]), x);
    hide Found, Digests;
    TwoSteps(k, s, look, look);
    OneStep(k, s, look);
    steps := [look, look];
    assert steps[..0] == [] && steps[..1] == [look] && steps[..2] == steps;
    assert Next(k, s, look) == Counter(last, [x]) && Next(k, Counter(last, [x]), look) == Counter(last, [x, x]);
  }

  lemma NotIncreasing(last: Option<int>, x: nat)
    ensures !IncreasesAfter(last, [x, x])
  {
    assert [x, x][0] == [x, x][1];
  }

  /**
   In all runs with at most `c` checks between look and save the accepted counters strictly increase, so that no code is
   accepted twice, exactly when `c` is at most 1, or the window has no slots and nothing is accepted.
   */
  lemma CountersIncreaseIff(k: Checker, last: Option<int>, c: nat)
    requires Digests(k.hmac)
    ensures (forall steps :: AtMostAtOnce(k, last, steps, c) ==> IncreasesAfter(last, AcceptedIn(k, Counter(last, []), steps)))
            <==> c <= 1 || k.window < 0
  {
    hide Digests, Exec, AcceptedIn, IncreasesAfter;
    if k.window < 0 {
      forall steps ensures IncreasesAfter(last, AcceptedIn(k, Counter(last, []), steps)) {
        NothingAccepted(k, Counter(last, []), steps);
        NothingIncreases(last);
      }
    } else if c <= 1 {
      forall steps | AtMostAtOnce(k, last, steps, c) ensures IncreasesAfter(last, AcceptedIn(k, Counter(last, []), steps)) {
        TurnsIncrease(k, last, steps);
      }
    } else {
      var x: nat := if last.Some? && last.value >= 0 then last.value + 1 else 0;
      var steps := AcceptedTwice(k, last, x);
      NotIncreasing(last, x);
      assert AtMostAtOnce(k, last, steps, c);
    }
  }

  lemma NothingIncreases(last: Option<int>)
    ensures IncreasesAfter(last, [])
  {
  }

  /** In a window of no slots no code is found. */
  lemma {:induction false} NothingAccepted(k: Checker, s: Counter, steps: seq<Step>)
    requires Digests(k.hmac) && k.window < 0
    ensures AcceptedIn(k, s, steps) == []
  {
    hide Digests, Exec;
    if steps != [] {
      NothingAccepted(k, s, steps[..|steps| - 1]);
      NothingFound(k, Exec(k, s, steps[..|steps| - 1]), steps[|steps| - 1]);
    }
  }

  lemma NothingFound(k: Checker, s: Counter, step: Step)
    requires Digests(k.hmac) && k.window < 0
    ensures Found(k, s, step).None?
  {
    hide Digests, Newest, WithoutSpaces;
    if step.Look? {
      NewestOfNone(k.hmac, k.key, WithoutSpaces(step.token), step.now - k.window, step.now + k.window);
    }
  }

  /** The counter on record, or one on its way there, is older. */
  ghost predicate MayAccept(s: Counter, x: nat) {
    Newer(s.last, x) || exists i :: 0 <= i < |s.writes| && s.writes[i] < x
  }

  lemma StaysSpent(k: Checker, s: Counter, step: Step, x: nat)
    requires Digests(k.hmac) && !MayAccept(s, x)
    ensures !MayAccept(Next(k, s, step), x) && Found(k, s, step) != Some(x)
  {
    NewerFound(k, s, step);
    hide Found, Digests;
  }

  lemma {:induction false} NeverAccepted(k: Checker, s: Counter, steps: seq<Step>, x: nat)
    requires Digests(k.hmac) && !MayAccept(s, x)
    ensures !MayAccept(Exec(k, s, steps), x) && x !in AcceptedIn(k, s, steps)
  {
    hide Digests, Found, Next, MayAccept;
    if steps != [] {
      NeverAccepted(k, s, steps[..|steps| - 1], x);
      StaysSpent(k, Exec(k, s, steps[..|steps| - 1]), steps[|steps| - 1], x);
    }
  }

  /** From any state a counter can still be accepted, once more or for the first time, exactly when an older one is on record or on its way there. */
  lemma CounterAcceptableIff(k: Checker, s: Counter, x: nat)
    requires Digests(k.hmac)
    ensures (exists more :: x in AcceptedIn(k, s, more)) <==> k.window >= 0 && MayAccept(s, x)
  {
    var look := Look(x - k.window, CodeText(Hotp(k.hmac, k.key, x)));
    hide Digests, Found, AcceptedIn, Hotp, CodeText;
    if k.window < 0 {
      forall more ensures x !in AcceptedIn(k, s, more) {
        NothingAccepted(k, s, more);
      }
    } else if Newer(s.last, x) {
      CodeIsFound(k, s, x);
      OneStep(k, s, look);
      assert x in AcceptedIn(k, s, [look]);
    } else if MayAccept(s, x) {
      var i: nat :| i < |s.writes| && s.writes[i] < x;
      var t := Next(k, s, Land(i));
      CodeIsFound(k, t, x);
      TwoSteps(k, s, Land(i), look);
      assert x in AcceptedIn(k, s, [Land(i), look]);
    } else {
      forall more ensures x !in AcceptedIn(k, s, more) {
        NeverAccepted(k, s, more, x);
      }
    }
  }

  // ---------------------------------------------------------------- recovery codes

  /** The hashes on record, and the lists on their way there. */
  datatype Codes = Codes(stored: seq<string>, writes: seq<seq<string>>)

  datatype Turn = Redeem(target: string) | Store(i: nat)

  predicate Redeems(s: Codes, turn: Turn) {
    turn.Redeem? && turn.target in s.stored
  }

  /** Nothing is saved after a miss. */
  function NextCodes(s: Codes, turn: Turn): Codes {
    match turn
    case Redeem(target) => if target in s.stored then s.(writes := s.writes + [WithoutLast(s.stored, target)]) else s
    case Store(i) => if i < |s.writes| then Codes(s.writes[i], s.writes[..i] + s.writes[i + 1..]) else s
  }

  function ExecCodes(s: Codes, turns: seq<Turn>): Codes {
    if turns == [] then s else NextCodes(ExecCodes(s, turns[..|turns| - 1]), turns[|turns| - 1])
  }

  /** The hashes redeemed in a run, in order. */
  function RedeemedIn(s: Codes, turns: seq<Turn>): seq<string> {
    if turns == [] then []
    else
      var init, last := turns[..|turns| - 1], turns[|turns| - 1];
      RedeemedIn(s, init) + if Redeems(ExecCodes(s, init), last) then [last.target] else []
  }

  lemma {:induction false} CodesAppend(s: Codes, a: seq<Turn>, b: seq<Turn>)
    ensures ExecCodes(s, a + b) == ExecCodes(ExecCodes(s, a), b)
    ensures RedeemedIn(s, a + b) == RedeemedIn(s, a) + RedeemedIn(ExecCodes(s, a), b)
  {
    hide NextCodes, Redeems;
    if b == [] {
      assert a + b == a;
    } else {
      CodesAppend(s, a, b[..|b| - 1]);
      assert (a + b)[..|a + b| - 1] == a + b[..|b| - 1];
    }
  }

  lemma OneTurn(s: Codes, turn: Turn)
    ensures ExecCodes(s, [turn]) == NextCodes(s, turn) && RedeemedIn(s, [turn]) == if Redeems(s, turn) then [turn.target] else []
  {
    assert [turn][..0] == [];
  }

  lemma TwoTurns(s: Codes, a: Turn, b: Turn)
    ensures ExecCodes(s, [a, b]) == NextCodes(NextCodes(s, a), b)
    ensures RedeemedIn(s, [a, b])
            == (if Redeems(s, a) then [a.target] else []) + if Redeems(NextCodes(s, a), b) then [b.target] else []
  {
    hide NextCodes, Redeems;
    OneTurn(s, a);
    assert [a, b][..1] == [a];
  }

  /** At most `c` redeemed codes are ever waiting for their list to be saved. */
  ghost predicate AtMostWaiting(s: Codes, turns: seq<Turn>, c: nat) {
    forall n :: 0 <= n <= |turns| ==> |ExecCodes(s, turns[..n]).writes| <= c
  }

  lemma WaitingAppend(s: Codes, a: seq<Turn>, b: seq<Turn>, c: nat)
    requires AtMostWaiting(s, a, c) && AtMostWaiting(ExecCodes(s, a), b, c)
    ensures AtMostWaiting(s, a + b, c)
  {
    forall n | 0 <= n <= |a + b| ensures |ExecCodes(s, (a + b)[..n]).writes| <= c {
      if n <= |a| {
        assert (a + b)[..n] == a[..n];
      } else {
        assert (a + b)[..n] == a + b[..n - |a|];
        CodesAppend(s, a, b[..n - |a|]);
      }
    }
  }

  /** What was redeemed and what is on record, or about to be, is what was issued. */
  ghost predicate Conserved(hashes: seq<string>, s: Codes, redeemed: seq<string>) {
    |s.writes| <= 1 && multiset(redeemed) + multiset(if s.writes == [] then s.stored else s.writes[0]) == multiset(hashes)
  }

  lemma ConservedNext(hashes: seq<string>, s: Codes, redeemed: seq<string>, turn: Turn)
    requires Conserved(hashes, s, redeemed) && |NextCodes(s, turn).writes| <= 1
    ensures Conserved(hashes, NextCodes(s, turn), redeemed + if Redeems(s, turn) then [turn.target] else [])
  {
    if Redeems(s, turn) {
      OneHashLess(s.stored, turn.target);
      hide WithoutLast;
      assert turn.target in multiset(s.stored);
    } else {
      assert redeemed + [] == redeemed;
    }
  }

  lemma {:induction false} TurnsConserve(hashes: seq<string>, turns: seq<Turn>)
    requires AtMostWaiting(Codes(hashes, []), turns, 1)
    ensures Conserved(hashes, ExecCodes(Codes(hashes, []), turns), RedeemedIn(Codes(hashes, []), turns))
  {
    var s := Codes(hashes, []);
    if turns == [] {
      assert multiset([]) + multiset(hashes) == multiset(hashes);
    } else {
      var init := turns[..|turns| - 1];
      forall n | 0 <= n <= |init| ensures |ExecCodes(s, init[..n]).writes| <= 1 {
        assert init[..n] == turns[..n];
      }
      TurnsConserve(hashes, init);
      assert turns[..|turns|] == turns;
      hide Conserved, NextCodes, Redeems;
      ConservedNext(hashes, ExecCodes(s, init), RedeemedIn(s, init), turns[|turns| - 1]);
    }
  }

  /** One after another, every copy of a hash is redeemed once. */
  lemma {:induction false} RedeemAll(stored: seq<string>, h: string) returns (turns: seq<Turn>)
    ensures AtMostWaiting(Codes(stored, []), turns, 1)
    ensures multiset(RedeemedIn(Codes(stored, []), turns))[h] == multiset(stored)[h]
    decreases |stored|
  {
    if h !in stored {
      turns := [];
    } else {
      var rest := WithoutLast(stored, h);
      OneHashLess(stored, h);
      Shorter(stored, h);
      var more := RedeemAll(rest, h);
      var first := [Redeem(h), Store(0)];
      OneRedeemed(stored, h);
      WaitingAppend(Codes(stored, []), first, more, 1);
      CodesAppend(Codes(stored, []), first, more);
      turns := first + more;
    }
  }

  lemma Shorter(hashes: seq<string>, h: string)
    requires h in hashes
    ensures |WithoutLast(hashes, h)| == |hashes| - 1
  {
    OneHashLess(hashes, h);
    assert h in multiset(hashes);
    assert |multiset(WithoutLast(hashes, h))| == |multiset(hashes)| - 1;
  }

  lemma OneRedeemed(stored: seq<string>, h: string)
    requires h in stored
    ensures var s, turns := Codes(stored, []), [Redeem(h), Store(0)];
            && ExecCodes(s, turns) == Codes(WithoutLast(stored, h), []) && RedeemedIn(s, turns) == [h] && AtMostWaiting(s, turns, 1)
  {
    var s, turns, rest := Codes(stored, []), [Redeem(h), Store(0)], WithoutLast(stored, h);
    NoTurns(s);
    hide WithoutLast, ExecCodes, RedeemedIn;
    assert NextCodes(s, Redeem(h)) == Codes(stored, [rest]);
    assert NextCodes(Codes(stored, [rest]), Store(0)) == Codes(rest, []);
    TwoTurns(s, Redeem(h), Store(0));
    OneTurn(s, Redeem(h));
    assert turns[..0] == [] && turns[..1] == [turns[0]] && turns[..2] == turns;
    assert [h] + [] == [h];
  }

  /** Two redeemed from one list: both leave the same list behind. */
  lemma TwoRedeemed(stored: seq<string>, h: string)
    requires h in stored
    ensures var s, turns := Codes(stored, []), [Redeem(h), Redeem(h)] + [Store(0), Store(0)];
            && ExecCodes(s, turns) == Codes(WithoutLast(stored, h), []) && RedeemedIn(s, turns) == [h, h] && AtMostWaiting(s, turns, 2)
  {
    hide *;
    var s, rest := Codes(stored, []), WithoutLast(stored, h);
    var both := Codes(stored, [rest, rest]);
    BothRedeem(stored, h);
    BothStore(stored, rest);
    CodesAppend(s, [Redeem(h), Redeem(h)], [Store(0), Store(0)]);
    WaitingAppend(s, [Redeem(h), Redeem(h)], [Store(0), Store(0)], 2);
    assert [h, h] + [] == [h, h];
  }

  lemma BothRedeem(stored: seq<string>, h: string)
    requires h in stored
    ensures var s, turns, rest := Codes(stored, []), [Redeem(h), Redeem(h)], WithoutLast(stored, h);
            && ExecCodes(s, turns) == Codes(stored, [rest, rest]) && RedeemedIn(s, turns) == [h, h] && AtMostWaiting(s, turns, 2)
  {
    var s, rest := Codes(stored, []), WithoutLast(stored, h);
    hide WithoutLast, ExecCodes, RedeemedIn;
    assert NextCodes(s, Redeem(h)) == Codes(stored, [rest]);
    assert NextCodes(Codes(stored, [rest]), Redeem(h)) == Codes(stored, [rest, rest]);
    TwoTurns(s, Redeem(h), Redeem(h));
    WithinTwo(s, Redeem(h), Redeem(h));
    assert [h] + [h] == [h, h];
  }

  lemma BothStore(stored: seq<string>, rest: seq<string>)
    ensures var s, turns := Codes(stored, [rest, rest]), [Store(0), Store(0)];
            && ExecCodes(s, turns) == Codes(rest, []) && RedeemedIn(s, turns) == [] && AtMostWaiting(s, turns, 2)
  {
    var s := Codes(stored, [rest, rest]);
    hide ExecCodes, RedeemedIn;
    assert NextCodes(s, Store(0)) == Codes(rest, [rest]);
    assert NextCodes(Codes(rest, [rest]), Store(0)) == Codes(rest, []);
    TwoTurns(s, Store(0), Store(0));
    WithinTwo(s, Store(0), Store(0));
  }

  lemma WithinTwo(s: Codes, a: Turn, b: Turn)
    requires |s.writes| <= 2 && |NextCodes(s, a).writes| <= 2 && |NextCodes(NextCodes(s, a), b).writes| <= 2
    ensures AtMostWaiting(s, [a, b], 2)
  {
    OneTurn(s, a);
    TwoTurns(s, a, b);
    NoTurns(s);
    hide NextCodes, ExecCodes, RedeemedIn;
    assert [a, b][..0] == [] && [a, b][..1] == [a] && [a, b][..2] == [a, b];
  }

  lemma NoTurns(s: Codes)
    ensures ExecCodes(s, []) == s
  {
  }

  /** With two at once a hash is redeemed once more than it was issued. */
  lemma RedeemedTooOften(hashes: seq<string>, h: string) returns (turns: seq<Turn>)
    requires h in hashes
    ensures AtMostWaiting(Codes(hashes, []), turns, 2)
    ensures multiset(RedeemedIn(Codes(hashes, []), turns))[h] == multiset(hashes)[h] + 1
  {
    var s, rest := Codes(hashes, []), WithoutLast(hashes, h);
    var first := [Redeem(h), Redeem(h)] + [Store(0), Store(0)];
    OneHashLess(hashes, h);
    TwoRedeemed(hashes, h);
    var more := RedeemAll(rest, h);
    hide ExecCodes, RedeemedIn, WithoutLast;
    WaitingAppend(s, first, more, 2);
    CodesAppend(s, first, more);
    turns := first + more;
    assert multiset([h, h] + RedeemedIn(Codes(rest, []), more)) == multiset([h, h]) + multiset(RedeemedIn(Codes(rest, []), more));
    assert h in multiset(hashes);
  }

  lemma {:induction false} NothingToRedeem(turns: seq<Turn>)
    ensures ExecCodes(Codes([], []), turns) == Codes([], []) && RedeemedIn(Codes([], []), turns) == []
  {
    if turns != [] {
      NothingToRedeem(turns[..|turns| - 1]);
    }
  }

  /**
   In all runs with at most `c` lists waiting to be saved no hash is redeemed more often than it was issued, exactly when
   `c` is at most 1 or none was issued.
   */
  lemma RedeemedOnceIff(hashes: seq<string>, c: nat)
    ensures (forall turns :: AtMostWaiting(Codes(hashes, []), turns, c) ==> multiset(RedeemedIn(Codes(hashes, []), turns)) <= multiset(hashes))
            <==> c <= 1 || hashes == []
  {
    hide ExecCodes, RedeemedIn;
    if c <= 1 || hashes == [] {
      forall turns | AtMostWaiting(Codes(hashes, []), turns, c) ensures multiset(RedeemedIn(Codes(hashes, []), turns)) <= multiset(hashes) {
        if c <= 1 {
          TurnsConserve(hashes, turns);
        } else {
          NothingToRedeem(turns);
        }
      }
    } else {
      var turns := RedeemedTooOften(hashes, hashes[0]);
      assert multiset(RedeemedIn(Codes(hashes, []), turns))[hashes[0]] > multiset(hashes)[hashes[0]];
    }
  }

  /** The hash is on record, or in a list on its way there. */
  ghost predicate MayRedeem(s: Codes, h: string) {
    h in s.stored || exists i :: 0 <= i < |s.writes| && h in s.writes[i]
  }

  lemma StaysGone(s: Codes, turn: Turn, h: string)
    requires !MayRedeem(s, h)
    ensures !MayRedeem(NextCodes(s, turn), h) && !(Redeems(s, turn) && turn.target == h)
  {
    if Redeems(s, turn) {
      OneHashLess(s.stored, turn.target);
      assert h !in multiset(WithoutLast(s.stored, turn.target));
      hide WithoutLast;
    }
  }

  lemma {:induction false} NeverRedeemed(s: Codes, turns: seq<Turn>, h: string)
    requires !MayRedeem(s, h)
    ensures !MayRedeem(ExecCodes(s, turns), h) && h !in RedeemedIn(s, turns)
  {
    hide MayRedeem, NextCodes;
    if turns != [] {
      NeverRedeemed(s, turns[..|turns| - 1], h);
      StaysGone(ExecCodes(s, turns[..|turns| - 1]), turns[|turns| - 1], h);
    }
  }

  /** From any state a code can still be redeemed, once more or for the first time, exactly when its hash is on record or in a list on its way there. */
  lemma CodeRedeemableIff(s: Codes, h: string)
    ensures (exists more :: h in RedeemedIn(s, more)) <==> MayRedeem(s, h)
  {
    hide RedeemedIn, ExecCodes;
    if h in s.stored {
      OneTurn(s, Redeem(h));
      assert h in RedeemedIn(s, [Redeem(h)]);
    } else if MayRedeem(s, h) {
      var i: nat :| i < |s.writes| && h in s.writes[i];
      TwoTurns(s, Store(i), Redeem(h));
      assert h in RedeemedIn(s, [Store(i), Redeem(h)]);
    } else {
      forall more ensures h !in RedeemedIn(s, more) {
        NeverRedeemed(s, more, h);
      }
    }
  }
}
