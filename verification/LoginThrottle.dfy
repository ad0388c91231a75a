/**
 `LoginRateLimiter` of packages/auth/src/LoginRateLimiter.ts.

 The limiter keeps buckets that it evicts lazily, on the next look at a key. The specification is a pure function
 of the history of recorded failures and clears. Every look at the clock is a parameter, so a call that reads
 it twice may see two times; the clock does not go backwards.
 */
module LoginThrottle {
  import opened Wrappers

  datatype Bucket = Bucket(count: nat, resetsAt: int)

  /** A recorded failure reads the clock twice: once for a new window's start, once to judge the old window. */
  datatype Event = Hit(key: string, start: int, judged: int) | Clear(key: string) | ResetAll

  /** A window of failures; `since` is the position in the history of the failure that opened it. */
  datatype Window = Window(count: nat, resetsAt: int, since: nat)

  /** The window after the event at position `n`. */
  function WindowAfter(before: Option<Window>, e: Event, n: nat, decayMs: nat, key: string): Option<Window> {
    match e
    case Hit(k, start, judged) =>
      if k != key then before
      else if before.Some? && judged < before.value.resetsAt then Some(before.value.(count := before.value.count + 1))
      else Some(Window(1, start + decayMs, n))
    case Clear(k) => if k == key then None else before
    case ResetAll => None
  }

  function WindowOf(history: seq<Event>, decayMs: nat, key: string): Option<Window> {
    if history == [] then None
    else
      var n := |history| - 1;
      WindowAfter(WindowOf(history[..n], decayMs, key), history[n], n, decayMs, key)
  }

  function Live(w: Option<Window>, now: int): Option<Window> {
    if w.Some? && now < w.value.resetsAt then w else None
  }

  function Attempts(history: seq<Event>, decayMs: nat, key: string, now: int): nat {
    var w := Live(WindowOf(history, decayMs, key), now);
    if w.Some? then w.value.count else 0
  }

  /** `Math.ceil(ms / 1000)` for what is left of a window. */
  function Seconds(ms: int): (s: nat)
    ensures ms <= 0 ==> s == 0
    ensures ms > 0 ==> (s - 1) * 1000 < ms <= s * 1000
  {
    if ms <= 0 then 0 else (ms + 999) / 1000
  }

  lemma WindowAppend(history: seq<Event>, e: Event, decayMs: nat, key: string)
    ensures WindowOf(history + [e], decayMs, key) == WindowAfter(WindowOf(history, decayMs, key), e, |history|, decayMs, key)
  {
    hide WindowAfter;
    assert (history + [e])[..|history|] == history;
  }

  /** What a failure makes of the window it finds. */
  lemma HitAppends(history: seq<Event>, key: string, now: int, judged: int, decayMs: nat)
    ensures var w := Live(WindowOf(history, decayMs, key), judged); var after := WindowOf(history + [Hit(key, now, judged)], decayMs, key);
            && after.Some?
            && after.value.count == Attempts(history, decayMs, key, judged) + 1 == if w.Some? then w.value.count + 1 else 1
  {
    WindowAppend(history, Hit(key, now, judged), decayMs, key);
  }

  lemma {:induction false} WindowIsOld(history: seq<Event>, decayMs: nat, key: string)
    ensures var w := WindowOf(history, decayMs, key); w.Some? ==> w.value.since < |history| && w.value.count > 0
  {
    if history != [] {
      WindowIsOld(history[..|history| - 1], decayMs, key);
    }
  }

  /** A bucket is the window; without one, the window is over. */
  predicate BucketFits(w: Option<Window>, b: Option<Bucket>, clock: int) {
    if b.Some? then w.Some? && w.value.count == b.value.count && w.value.resetsAt == b.value.resetsAt
    else w.Some? ==> w.value.resetsAt <= clock
  }

  function SinceOf(w: Option<Window>): nat {
    if w.Some? then w.value.since else 0
  }

  lemma HitFits(history: seq<Event>, key: string, now: int, judged: int, decayMs: nat, k: string, b: Option<Bucket>)
    requires BucketFits(WindowOf(history, decayMs, k), b, judged)
    requires k == key ==> (b.Some? <==> Live(WindowOf(history, decayMs, key), judged).Some?)
    ensures var after := WindowOf(history + [Hit(key, now, judged)], decayMs, k);
            && BucketFits(after, if k != key then b else if b.Some? then Some(b.value.(count := b.value.count + 1)) else Some(Bucket(1, now + decayMs)), judged)
            && SinceOf(after) == if k == key && b.None? then |history| else SinceOf(WindowOf(history, decayMs, k))
  {
    WindowAppend(history, Hit(key, now, judged), decayMs, k);
  }

  class LoginRateLimiter {
    const max: int
    const decayMs: nat
    var store: map<string, Bucket>
    var announced: set<string>
    ghost var history: seq<Event>
    ghost var clock: int
    /** The windows a Lockout event was emitted for. */
    ghost var lockouts: seq<(string, nat)>

    ghost predicate StoreMatches(key: string)
      reads this
    {
      BucketFits(WindowOf(history, decayMs, key), if key in store then Some(store[key]) else None, clock)
    }

    /** A key is announced exactly while the window in its bucket has had its Lockout. */
    ghost predicate AnnouncedMatches(key: string)
      reads this
    {
      key in announced <==> (key, SinceOf(WindowOf(history, decayMs, key))) in lockouts
    }

    ghost predicate Valid()
      reads this
    {
      && (forall key :: StoreMatches(key))
      && (forall l :: l in lockouts ==> l.1 < |history|)
      && (forall i, j :: 0 <= i < j < |lockouts| ==> lockouts[i] != lockouts[j])
      && (max >= 1 ==> announced <= store.Keys && forall key :: key in store ==> AnnouncedMatches(key))
    }

    constructor (maxAttempts: int, decayMs: nat, now: int)
      ensures Valid() && max == maxAttempts && this.decayMs == decayMs
      ensures history == [] && lockouts == [] && clock == now
    {
      max, this.decayMs := maxAttempts, decayMs;
      store, announced, history, clock, lockouts := map[], {}, [], now, [];
    }

    /** `_live`: looking at a key evicts its bucket when its window has elapsed. */
    method LiveBucket(key: string, now: int) returns (b: Option<Bucket>)
      requires Valid() && clock <= now
      modifies this
      ensures Valid() && history == old(history) && lockouts == old(lockouts) && clock == now
      ensures var w := Live(WindowOf(history, decayMs, key), now);
              && (b.Some? <==> w.Some?) && (b.Some? <==> key in store)
              && (b.Some? ==> b.value == store[key] == Bucket(w.value.count, w.value.resetsAt))
      ensures announced == if b.Some? then old(announced) else if key in old(store) then old(announced) - {key} else old(announced)
    {
      assert StoreMatches(key);
      if key !in store {
        clock := now;
        Settled(now);
        return None;
      }
      var bucket := store[key];
      if now >= bucket.resetsAt {
        store := store - {key};
        announced := announced - {key};
        clock := now;
        Settled(now);
        return None;
      }
      clock := now;
      Settled(now);
      return Some(bucket);
    }

    /** Time passing, or a bucket leaving after its time, keeps the limiter valid. */
    twostate lemma Settled(now: int)
      requires old(Valid()) && old(clock) <= now == clock
      requires history == old(history) && lockouts == old(lockouts)
      requires forall k :: k in store ==> k in old(store) && store[k] == old(store[k])
      requires forall k :: k in old(store) && k !in store ==> old(store[k].resetsAt) <= now
      requires forall k :: k in store ==> (k in announced <==> k in old(announced))
      requires max >= 1 ==> announced <= store.Keys
      ensures Valid()
    {
      forall k ensures StoreMatches(k) {
        assert old(StoreMatches(k));
      }
      forall k | max >= 1 && k in store ensures AnnouncedMatches(k) {
        assert old(StoreMatches(k)) && old(AnnouncedMatches(k));
      }
    }

    method AttemptsFor(key: string, now: int) returns (n: nat)
      requires Valid() && clock <= now
      modifies this
      ensures Valid() && history == old(history) && lockouts == old(lockouts) && clock == now
      ensures n == Attempts(history, decayMs, key, now)
    {
      var b := LiveBucket(key, now);
      n := if b.Some? then b.value.count else 0;
    }

    /** `hit`; `now` is the first look at the clock, `judged` the one inside `_live`. */
    method Record(key: string, now: int, judged: int) returns (n: nat)
      requires Valid() && clock <= now <= judged
      modifies this
      ensures Valid() && clock == judged && lockouts == old(lockouts)
      ensures history == old(history) + [Hit(key, now, judged)]
      ensures n == Attempts(old(history), decayMs, key, judged) + 1
      ensures n == WindowOf(history, decayMs, key).value.count
    {
      var existing := LiveBucket(key, judged);
      HitAppends(history, key, now, judged, decayMs);
      n := Count(key, now, judged, existing);
    }

    /** The rest of `hit`, with the bucket it found. */
    method Count(key: string, now: int, judged: int, existing: Option<Bucket>) returns (n: nat)
      requires Valid() && now <= judged == clock
      requires existing.Some? <==> Live(WindowOf(history, decayMs, key), judged).Some?
      requires existing.Some? <==> key in store
      requires existing.Some? ==> existing.value == store[key]
      modifies this
      ensures Valid() && clock == old(clock) && lockouts == old(lockouts)
      ensures history == old(history) + [Hit(key, now, judged)]
      ensures n == if existing.Some? then existing.value.count + 1 else 1
    {
      history := history + [Hit(key, now, judged)];
      if existing.Some? {
        n := existing.value.count + 1;
        store := store[key := Bucket(n, existing.value.resetsAt)];
      } else {
        n := 1;
        store := store[key := Bucket(1, now + decayMs)];
        announced := announced - {key};
      }
      hide BucketFits, SinceOf, WindowOf;
      forall k ensures StoreMatches(k) && (max >= 1 && k in store ==> AnnouncedMatches(k)) {
        assert old(StoreMatches(k)) && (max >= 1 && k in old(store) ==> old(AnnouncedMatches(k)));
        HitFits(old(history), key, now, judged, decayMs, k, old(if k in store then Some(store[k]) else None));
      }
    }

    /** `clear`, after a login that succeeded. */
    method ClearKey(key: string)
      requires Valid()
      modifies this
      ensures Valid() && clock == old(clock) && lockouts == old(lockouts)
      ensures history == old(history) + [Clear(key)]
      ensures store == old(store) - {key} && announced == old(announced) - {key}
      ensures Attempts(history, decayMs, key, clock) == 0
      ensures forall k :: k != key ==> Attempts(history, decayMs, k, clock) == Attempts(old(history), decayMs, k, clock)
    {
      ghost var before := history;
      history := history + [Clear(key)];
      store, announced := store - {key}, announced - {key};
      forall k
        ensures WindowOf(history, decayMs, k) == if k == key then None else WindowOf(before, decayMs, k)
        ensures StoreMatches(k) && (max >= 1 && k in store ==> AnnouncedMatches(k))
      {
        assert old(StoreMatches(k)) && (max >= 1 && k in old(store) ==> old(AnnouncedMatches(k)));
        WindowAppend(before, Clear(key), decayMs, k);
      }
    }

    method Reset()
      requires Valid()
      modifies this
      ensures Valid() && clock == old(clock) && lockouts == old(lockouts)
      ensures history == old(history) + [ResetAll]
      ensures store == map[] && announced == {}
    {
      ghost var before := history;
      history := history + [ResetAll];
      store, announced := map[], {};
      forall k ensures StoreMatches(k) {
        WindowAppend(before, ResetAll, decayMs, k);
      }
    }

    /** `availableIn`; `now` is the look at the clock inside `_live`, `later` the one that is subtracted. */
    method AvailableIn(key: string, now: int, later: int) returns (wait: nat)
      requires Valid() && clock <= now <= later
      modifies this
      ensures Valid() && history == old(history) && lockouts == old(lockouts) && clock == later
      ensures var w := Live(WindowOf(history, decayMs, key), now);
              wait == if w.Some? then Seconds(w.value.resetsAt - later) else 0
      ensures key !in old(store) ==> announced == old(announced)
    {
      var b := LiveBucket(key, now);
      wait := if b.Some? then Seconds(b.value.resetsAt - later) else 0;
      label looked:
      clock := later;
      forall k ensures StoreMatches(k) {
        assert old@looked(StoreMatches(k));
      }
      forall k | max >= 1 && k in store ensures AnnouncedMatches(k) {
        assert old@looked(AnnouncedMatches(k));
      }
    }

    /**
     `ensureNotLocked` with its three looks at the clock. It refuses exactly at `max` failures in the live window,
     and a window is announced at most once.
     */
    method EnsureNotLocked(key: string, now: int, again: int, later: int) returns (wait: Option<nat>)
      requires Valid() && clock <= now <= again <= later
      modifies this
      ensures Valid() && history == old(history) && clock == later
      ensures wait.None? <==> Attempts(history, decayMs, key, now) < max
      ensures wait.Some? ==>
                var w := Live(WindowOf(history, decayMs, key), again);
                wait.value == if w.Some? then Seconds(w.value.resetsAt - later) else 0
      ensures max >= 1 ==>
                lockouts == if wait.Some? && (key, WindowOf(history, decayMs, key).value.since) !in old(lockouts)
                            then old(lockouts) + [(key, WindowOf(history, decayMs, key).value.since)] else old(lockouts)
      ensures max < 1 && WindowOf(history, decayMs, key).None? ==> key in announced && key !in store
    {
      var n := AttemptsFor(key, now);
      if n < max {
        label passed:
        clock := later;
        StillValid@passed(later);
        return None;
      }
      WindowIsOld(history, decayMs, key);
      assert StoreMatches(key);
      assert key in store ==> max < 1 || AnnouncedMatches(key);
      if key !in announced {
        ghost var w := WindowOf(history, decayMs, key);
        label before:
        announced := announced + {key};
        if max >= 1 {
          lockouts := lockouts + [(key, w.value.since)];
        }
        forall k ensures StoreMatches(k) {
          assert old@before(StoreMatches(k));
        }
        forall k | max >= 1 && k in store ensures AnnouncedMatches(k) {
          assert old@before(AnnouncedMatches(k));
        }
      }
      var seconds := AvailableIn(key, again, later);
      wait := Some(seconds);
      assert StoreMatches(key);
    }

    twostate lemma StillValid(now: int)
      requires old(Valid()) && old(clock) <= now == clock
      requires history == old(history) && lockouts == old(lockouts) && store == old(store) && announced == old(announced)
      ensures Valid()
    {
      Settled(now);
    }
  }
  // ---------------------------------------------------------------- what the history allows

  /** Events in the order of a clock that does not go back; a start is read before the judgement. */
  ghost predicate InOrder(history: seq<Event>) {
    && (forall i :: 0 <= i < |history| && history[i].Hit? ==> history[i].start <= history[i].judged)
    && forall i, j :: 0 <= i < j < |history| && history[i].Hit? && history[j].Hit? ==> history[i].judged <= history[j].start
  }

  lemma {:induction false} WindowEnds(history: seq<Event>, decayMs: nat, key: string, now: int)
    requires forall i :: 0 <= i < |history| && history[i].Hit? ==> history[i].start <= now
    ensures var w := WindowOf(history, decayMs, key); w.Some? ==> w.value.resetsAt <= now + decayMs
  {
    if history != [] {
      WindowEnds(history[..|history| - 1], decayMs, key, now);
    }
  }

  /** A lockout's wait is at most the window rounded up, and at least a second exactly while the window has time left. */
  lemma WaitBounds(history: seq<Event>, decayMs: nat, key: string, again: int, later: int)
    requires again <= later
    requires forall i :: 0 <= i < |history| && history[i].Hit? ==> history[i].start <= later
    ensures var w := Live(WindowOf(history, decayMs, key), again);
            var wait := if w.Some? then Seconds(w.value.resetsAt - later) else 0;
            && wait <= Seconds(decayMs)
            && (wait >= 1 <==> w.Some? && later < w.value.resetsAt)
  {
    WindowEnds(history, decayMs, key, later);
  }

  /** Failures of `key` judged in `[from, to)`. */
  function HitsIn(history: seq<Event>, key: string, from: int, to: int): nat {
    if history == [] then 0
    else
      var e := history[|history| - 1];
      HitsIn(history[..|history| - 1], key, from, to) + if e.Hit? && e.key == key && from <= e.judged < to then 1 else 0
  }

  /** No clear of the key, and every failure found the window with fewer than `max` before it. */
  ghost predicate RoomThroughout(history: seq<Event>, max: int, decayMs: nat, key: string) {
    && (forall i :: 0 <= i < |history| ==> history[i].Hit?)
    && forall i :: 0 <= i < |history| && history[i].key == key ==>
                     Attempts(history[..i], decayMs, key, history[i].judged) < max
  }

  lemma RoomPrefix(history: seq<Event>, max: int, decayMs: nat, key: string)
    requires history != [] && RoomThroughout(history, max, decayMs, key) && InOrder(history)
    ensures RoomThroughout(history[..|history| - 1], max, decayMs, key) && InOrder(history[..|history| - 1])
  {
    var init := history[..|history| - 1];
    forall i | 0 <= i < |init| ensures init[..i] == history[..i] {
    }
  }

  lemma {:induction false} NoneBefore(history: seq<Event>, key: string, from: int, to: int)
    requires forall i :: 0 <= i < |history| && history[i].Hit? ==> history[i].judged < from
    ensures HitsIn(history, key, from, to) == 0
  {
    if history != [] {
      NoneBefore(history[..|history| - 1], key, from, to);
    }
  }

  /** How many of the interval's failures the current window leaves room for. */
  ghost predicate WithinBudget(w: Option<Window>, hits: nat, max: int, decayMs: nat, from: int) {
    && (w.None? ==> hits == 0)
    && (w.Some? ==>
          var start := w.value.resetsAt - decayMs;
          && w.value.count <= max
          && (start < from ==> hits <= w.value.count)
          && (from <= start ==> hits <= max + w.value.count)
          && start < from + decayMs)
  }

  ghost predicate Reaches(history: seq<Event>, time: int) {
    exists i :: 0 <= i < |history| && history[i].Hit? && history[i].judged >= time
  }

  /** While the interval lasts the budget holds, and what was counted by its end stays. */
  ghost predicate Budget(history: seq<Event>, max: int, decayMs: nat, key: string, from: int) {
    var hits := HitsIn(history, key, from, from + decayMs);
    && hits <= 2 * NonNegative(max)
    && (!Reaches(history, from + decayMs) ==> WithinBudget(WindowOf(history, decayMs, key), hits, max, decayMs, from))
  }

  lemma {:induction false} BudgetKept(history: seq<Event>, max: int, decayMs: nat, key: string, from: int)
    requires InOrder(history) && RoomThroughout(history, max, decayMs, key)
    ensures Budget(history, max, decayMs, key, from)
  {
    if history != [] {
      var init, e := history[..|history| - 1], history[|history| - 1];
      RoomPrefix(history, max, decayMs, key);
      BudgetKept(init, max, decayMs, key, from);
      assert history == init + [e] && init == history[..|history| - 1];
      assert e.key == key ==> Attempts(init, decayMs, key, e.judged) < max;
      BudgetExtends(init, e, max, decayMs, key, from);
    }
  }

  lemma BudgetExtends(init: seq<Event>, e: Event, max: int, decayMs: nat, key: string, from: int)
    requires Budget(init, max, decayMs, key, from) && InOrder(init + [e]) && e.Hit?
    requires e.key == key ==> Attempts(init, decayMs, key, e.judged) < max
    ensures Budget(init + [e], max, decayMs, key, from)
  {
    var history, to := init + [e], from + decayMs;
    WindowAppend(init, e, decayMs, key);
    HitsAppend(init, e, key, from, to);
    LaterReaches(init, e, to);
    if e.key == key && e.judged < to {
      if e.start < from {
        assert forall i :: 0 <= i < |init| ==> history[i] == init[i];
        NoneBefore(init, key, from, to);
      }
      BudgetStep(WindowOf(init, decayMs, key), HitsIn(init, key, from, to), e, |init|, max, decayMs, from);
    }
  }

  lemma HitsAppend(init: seq<Event>, e: Event, key: string, from: int, to: int)
    ensures HitsIn(init + [e], key, from, to)
            == HitsIn(init, key, from, to) + if e.Hit? && e.key == key && from <= e.judged < to then 1 else 0
  {
    assert (init + [e])[..|init|] == init;
  }

  /** Judgements only get later, so an event before `time` has none at or after it behind it. */
  lemma LaterReaches(init: seq<Event>, e: Event, time: int)
    requires InOrder(init + [e]) && e.Hit?
    ensures Reaches(init + [e], time) <==> e.judged >= time
  {
    var history := init + [e];
    assert history[|init|] == e;
  }

  lemma BudgetStep(before: Option<Window>, hits: nat, e: Event, n: nat, max: int, decayMs: nat, from: int)
    requires e.Hit? && e.start <= e.judged < from + decayMs && (e.start < from ==> hits == 0)
    requires WithinBudget(before, hits, max, decayMs, from)
    requires var l := Live(before, e.judged); (if l.Some? then l.value.count else 0) < max
    ensures var after := if before.Some? && e.judged < before.value.resetsAt then Some(before.value.(count := before.value.count + 1))
                         else Some(Window(1, e.start + decayMs, n));
            WithinBudget(after, hits + if from <= e.judged then 1 else 0, max, decayMs, from)
  {
  }

  function NonNegative(n: int): nat {
    if n < 0 then 0 else n
  }

  // ---------------------------------------------------------------- callers between guard and record

  /** Where in the history and when a caller passed `ensureNotLocked`. */
  datatype Guard = Guard(pos: nat, at: int)

  /**
   Only failures, and each of `key` was recorded by a caller whose guard, some time before, let it through. What
   happens between a caller's guard and its record is up to the others.
   */
  ghost predicate Guarded(history: seq<Event>, guards: seq<Guard>, max: int, decayMs: nat, key: string) {
    && |guards| == |history|
    && (forall i :: 0 <= i < |history| ==> history[i].Hit?)
    && forall i :: 0 <= i < |history| && history[i].key == key ==> PassedGuard(history, guards[i], i, max, decayMs, key)
  }

  ghost predicate PassedGuard(history: seq<Event>, g: Guard, i: nat, max: int, decayMs: nat, key: string)
    requires i < |history| && history[i].Hit?
  {
    g.pos <= i && g.at <= history[i].start && Attempts(history[..g.pos], decayMs, key, g.at) < max
  }

  /** Callers that have passed the guard when failure `p` is recorded and record that failure or a later one of the first `n`. */
  function Between(history: seq<Event>, guards: seq<Guard>, key: string, p: nat, n: nat): nat
    requires n <= |history| == |guards|
  {
    if n <= p then 0
    else
      var e := history[n - 1];
      Between(history, guards, key, p, n - 1) + if e.Hit? && e.key == key && guards[n - 1].pos <= p then 1 else 0
  }

  /** At most `c` callers of `key` are ever between guard and record. */
  ghost predicate AtMostBetween(history: seq<Event>, guards: seq<Guard>, key: string, c: nat)
    requires |history| == |guards|
  {
    forall p :: 0 <= p < |history| ==> Between(history, guards, key, p, |history|) <= c
  }

  /** Failures of `key` among the first `n`, from position `p` on. */
  function HitsFrom(history: seq<Event>, key: string, p: nat, n: nat): nat
    requires n <= |history|
  {
    if n <= p then 0
    else HitsFrom(history, key, p, n - 1) + if history[n - 1].Hit? && history[n - 1].key == key then 1 else 0
  }

  /** From the failure at `p` on the window of the first `n` events has been full, and it is counted from there. */
  ghost predicate FullSince(history: seq<Event>, max: int, decayMs: nat, key: string, p: nat, n: nat) {
    && p < n <= |history| && history[p].Hit? && history[p].key == key
    && var w := WindowOf(history[..n], decayMs, key);
       && w.Some? && w.value.count == max + HitsFrom(history, key, p, n) - 1
       && forall q :: p < q <= n ==> FullAt(history, max, decayMs, key, q, w.value.resetsAt)
  }

  ghost predicate FullAt(history: seq<Event>, max: int, decayMs: nat, key: string, q: nat, resetsAt: int)
    requires q <= |history|
  {
    var w := WindowOf(history[..q], decayMs, key);
    w.Some? && w.value.resetsAt == resetsAt && w.value.count >= max
  }

  /** A full window has a failure that filled it. */
  lemma {:induction false} FilledAt(history: seq<Event>, max: int, decayMs: nat, key: string, n: nat) returns (p: nat)
    requires max >= 1 && n <= |history| && forall i :: 0 <= i < |history| ==> history[i].Hit?
    requires var w := WindowOf(history[..n], decayMs, key); w.Some? && w.value.count >= max
    ensures FullSince(history, max, decayMs, key, p, n)
  {
    var init, e := history[..n - 1], history[n - 1];
    assert history[..n] == init + [e];
    WindowAppend(init, e, decayMs, key);
    var w := WindowOf(history[..n], decayMs, key).value;
    if e.key != key || w.count > max {
      p := FilledAt(history, max, decayMs, key, n - 1);
    } else {
      p := n - 1;
      assert HitsFrom(history, key, p, n - 1) == 0;
    }
  }

  /** Whoever records into a full window passed the guard before it was full. */
  lemma {:induction false} GuardedBeforeFull(history: seq<Event>, guards: seq<Guard>, max: int, decayMs: nat, key: string, p: nat, n: nat, i: nat)
    requires InOrder(history) && Guarded(history, guards, max, decayMs, key)
    requires FullSince(history, max, decayMs, key, p, n) && n < |history|
    requires history[n].judged < WindowOf(history[..n], decayMs, key).value.resetsAt
    requires p <= i <= n && history[i].key == key
    ensures guards[i].pos <= p
  {
    var g := guards[i];
    assert PassedGuard(history, g, i, max, decayMs, key);
    assert i < n ==> history[i].judged <= history[n].start;
    assert g.pos > p ==> FullAt(history, max, decayMs, key, g.pos, WindowOf(history[..n], decayMs, key).value.resetsAt);
  }

  lemma {:induction false} AllBetween(history: seq<Event>, guards: seq<Guard>, key: string, p: nat, n: nat)
    requires n <= |history| == |guards|
    requires forall i :: p <= i < n && history[i].Hit? && history[i].key == key ==> guards[i].pos <= p
    ensures Between(history, guards, key, p, n) == HitsFrom(history, key, p, n)
  {
    if n > p {
      AllBetween(history, guards, key, p, n - 1);
    }
  }

  lemma {:induction false} MoreBetween(history: seq<Event>, guards: seq<Guard>, key: string, p: nat, m: nat, n: nat)
    requires m <= n <= |history| == |guards|
    ensures Between(history, guards, key, p, m) <= Between(history, guards, key, p, n)
  {
    if m < n {
      MoreBetween(history, guards, key, p, m, n - 1);
    }
  }

  /** With at most `c` callers between guard and record, a window takes at most `max + c - 1` failures. */
  lemma RoomForOverlap(history: seq<Event>, guards: seq<Guard>, max: int, decayMs: nat, key: string, c: nat, i: nat)
    requires InOrder(history) && Guarded(history, guards, max, decayMs, key) && AtMostBetween(history, guards, key, c)
    requires max >= 1 && i < |history| && history[i].key == key
    ensures Attempts(history[..i], decayMs, key, history[i].judged) < max + c - 1
  {
    var a := Attempts(history[..i], decayMs, key, history[i].judged);
    var p := i;
    if a >= max {
      p := FilledAt(history, max, decayMs, key, i);
    }
    forall j | p <= j <= i && history[j].Hit? && history[j].key == key ensures guards[j].pos <= p {
      if a >= max {
        GuardedBeforeFull(history, guards, max, decayMs, key, p, i, j);
      } else {
        assert PassedGuard(history, guards[i], i, max, decayMs, key);
      }
    }
    AllBetween(history, guards, key, p, i + 1);
    MoreBetween(history, guards, key, p, i + 1, |history|);
  }

  /** Without a positive maximum nobody passes the guard. */
  lemma {:induction false} NoneGuarded(history: seq<Event>, guards: seq<Guard>, max: int, decayMs: nat, key: string, from: int, to: int, n: nat)
    requires n <= |history| && Guarded(history, guards, max, decayMs, key) && max < 1
    ensures HitsIn(history[..n], key, from, to) == 0
  {
    if n > 0 {
      NoneGuarded(history, guards, max, decayMs, key, from, to, n - 1);
      assert history[..n][..n - 1] == history[..n - 1];
    }
  }

  /**
   With at most `c` callers of a key between their guard and their record, an interval as long as a window takes at
   most `2 * (max + c - 1)` failures of the key.
   */
  lemma OverlappingCallersBound(history: seq<Event>, guards: seq<Guard>, max: int, decayMs: nat, key: string, c: nat, from: int)
    requires InOrder(history) && Guarded(history, guards, max, decayMs, key) && AtMostBetween(history, guards, key, c)
    ensures HitsIn(history, key, from, from + decayMs) <= if max < 1 then 0 else 2 * NonNegative(max + c - 1)
  {
    if max < 1 {
      NoneGuarded(history, guards, max, decayMs, key, from, from + decayMs, |history|);
      assert history[..|history|] == history;
    } else {
      forall i | 0 <= i < |history| && history[i].key == key
        ensures Attempts(history[..i], decayMs, key, history[i].judged) < max + c - 1
      {
        RoomForOverlap(history, guards, max, decayMs, key, c, i);
      }
      BudgetKept(history, max + c - 1, decayMs, key, from);
    }
  }

  /** No other failure of the key comes between a caller's guard and its record. */
  ghost predicate OneAtATime(history: seq<Event>, guards: seq<Guard>, key: string)
    requires |history| == |guards|
  {
    forall i, j :: 0 <= j < i < |history| && history[i].Hit? && history[i].key == key && history[j].Hit? && history[j].key == key ==> guards[i].pos > j
  }

  lemma {:induction false} OneBetween(history: seq<Event>, guards: seq<Guard>, key: string, p: nat, n: nat)
    requires n <= |history| == |guards| && OneAtATime(history, guards, key)
    ensures Between(history, guards, key, p, n) <= 1
    ensures Between(history, guards, key, p, n) == 1 ==> exists j :: p <= j < n && history[j].Hit? && history[j].key == key
  {
    if n > p {
      OneBetween(history, guards, key, p, n - 1);
      assert history[n - 1] == history[n - 1];
    }
  }

  /** Callers that take turns record at most twice `max` failures in any interval as long as a window. */
  lemma AtMostTwoWindows(history: seq<Event>, guards: seq<Guard>, max: int, decayMs: nat, key: string, from: int)
    requires InOrder(history) && Guarded(history, guards, max, decayMs, key) && OneAtATime(history, guards, key)
    ensures HitsIn(history, key, from, from + decayMs) <= 2 * NonNegative(max)
  {
    forall p | 0 <= p < |history| ensures Between(history, guards, key, p, |history|) <= 1 {
      OneBetween(history, guards, key, p, |history|);
    }
    OverlappingCallersBound(history, guards, max, decayMs, key, 1, from);
  }

  /** `n` callers that are all let through before any of them records. */
  function Crowd(key: string, n: nat): seq<Event> {
    seq(n, i => Hit(key, 0, 0))
  }

  lemma {:induction false} CrowdHits(key: string, n: nat, to: int)
    requires to > 0
    ensures HitsIn(Crowd(key, n), key, 0, to) == n
  {
    if n > 0 {
      assert Crowd(key, n)[..n - 1] == Crowd(key, n - 1);
      CrowdHits(key, n - 1, to);
    }
  }

  /** Callers that overlap without limit record without limit, though each of them guarded before recording. */
  lemma OverlappingCallersExceed(max: int, decayMs: nat, key: string, n: nat)
    requires max >= 1 && decayMs > 0
    ensures exists history, guards ::
              && InOrder(history) && Guarded(history, guards, max, decayMs, key) && AtMostBetween(history, guards, key, n)
              && HitsIn(history, key, 0, decayMs) == n
  {
    var history, guards := Crowd(key, n), seq(n, i => Guard(0, 0));
    CrowdHits(key, n, decayMs);
    forall i | 0 <= i < n ensures PassedGuard(history, guards[i], i, max, decayMs, key) {
      assert history[..0] == [];
    }
    forall p | 0 <= p < n ensures Between(history, guards, key, p, n) <= n {
      BetweenBound(history, guards, key, p, n);
    }
    assert Guarded(history, guards, max, decayMs, key) && AtMostBetween(history, guards, key, n);
  }

  lemma {:induction false} BetweenBound(history: seq<Event>, guards: seq<Guard>, key: string, p: nat, n: nat)
    requires n <= |history| == |guards|
    ensures Between(history, guards, key, p, n) <= n
  {
    if n > p {
      BetweenBound(history, guards, key, p, n - 1);
    }
  }

  // ---------------------------------------------------------------- the bound is met

  /** The `i`-th failure of two windows of `n`; the first window starts a millisecond before its first failure is judged. */
  function TwoFull(decayMs: nat, key: string, n: nat, i: nat): Event {
    if i == 0 then Hit(key, 0, 1) else if i < n then Hit(key, 1, 1) else Hit(key, decayMs, decayMs)
  }

  /** In each window `max - 1` callers take turns; the others all pass the guard after them. */
  function TwoFullGuard(decayMs: nat, max: nat, n: nat, i: nat): Guard
    requires max >= 1
  {
    var base := if i < n then 0 else n;
    Guard(base + (if i - base < max then i - base else max - 1), if i == 0 then 0 else if i < n then 1 else decayMs)
  }

  lemma {:induction false} TwoFullWindows(decayMs: nat, key: string, n: nat, h: seq<Event>, k: nat)
    requires decayMs >= 2 && |h| == 2 * n && k <= 2 * n && forall i :: 0 <= i < |h| ==> h[i] == TwoFull(decayMs, key, n, i)
    ensures WindowOf(h[..k], decayMs, key) == TwoFullWindow(decayMs, n, k)
    ensures HitsIn(h[..k], key, 1, 1 + decayMs) == k
  {
    if k > 0 {
      TwoFullWindows(decayMs, key, n, h, k - 1);
      assert h[..k] == h[..k - 1] + [h[k - 1]];
      WindowAppend(h[..k - 1], h[k - 1], decayMs, key);
      HitsAppend(h[..k - 1], h[k - 1], key, 1, 1 + decayMs);
      assert h[k - 1] == TwoFull(decayMs, key, n, k - 1) && |h[..k - 1]| == k - 1;
      hide WindowOf, HitsIn;
      TwoFullNext(decayMs, key, n, k - 1);
    }
  }

  function TwoFullWindow(decayMs: nat, n: nat, k: nat): Option<Window> {
    if k == 0 then None else if k <= n then Some(Window(k, decayMs, 0)) else Some(Window(k - n, 2 * decayMs, n))
  }

  lemma TwoFullNext(decayMs: nat, key: string, n: nat, i: nat)
    requires decayMs >= 2 && i < 2 * n
    ensures WindowAfter(TwoFullWindow(decayMs, n, i), TwoFull(decayMs, key, n, i), i, decayMs, key) == TwoFullWindow(decayMs, n, i + 1)
    ensures var e := TwoFull(decayMs, key, n, i); e.Hit? && e.key == key && 1 <= e.judged < 1 + decayMs
  {
  }

  lemma {:induction false} TwoFullBetween(decayMs: nat, key: string, max: nat, c: nat, h: seq<Event>, g: seq<Guard>, p: nat, k: nat)
    requires max >= 1 && c >= 1
    requires var n := max + c - 1;
             && |h| == |g| == 2 * n && k <= 2 * n && p < 2 * n
             && (forall i :: 0 <= i < |h| ==> h[i] == TwoFull(decayMs, key, n, i))
             && forall i :: 0 <= i < |g| ==> g[i] == TwoFullGuard(decayMs, max, n, i)
    ensures var n := max + c - 1; var base := if p < n then 0 else n; var end := if k < base + n then k else base + n;
            Between(h, g, key, p, k) <= if k <= p then 0 else if p - base < max - 1 then 1 else end - p
  {
    if k > p {
      TwoFullBetween(decayMs, key, max, c, h, g, p, k - 1);
      assert g[k - 1] == TwoFullGuard(decayMs, max, max + c - 1, k - 1);
    }
  }

  lemma TwoFullGuarded(decayMs: nat, key: string, max: nat, n: nat, h: seq<Event>, g: seq<Guard>)
    requires 1 <= max <= n && decayMs >= 2 && |h| == |g| == 2 * n
    requires forall i :: 0 <= i < |h| ==> h[i] == TwoFull(decayMs, key, n, i)
    requires forall i :: 0 <= i < |g| ==> g[i] == TwoFullGuard(decayMs, max, n, i)
    ensures Guarded(h, g, max, decayMs, key)
  {
    forall i | 0 <= i < |h| ensures PassedGuard(h, g[i], i, max, decayMs, key) {
      TwoFullWindows(decayMs, key, n, h, g[i].pos);
    }
  }

  lemma TwoFullInOrder(decayMs: nat, key: string, n: nat, h: seq<Event>)
    requires decayMs >= 2 && |h| == 2 * n && forall i :: 0 <= i < |h| ==> h[i] == TwoFull(decayMs, key, n, i)
    ensures InOrder(h)
  {
  }

  lemma TwoFullOverlap(decayMs: nat, key: string, max: nat, c: nat, h: seq<Event>, g: seq<Guard>)
    requires max >= 1 && c >= 1
    requires var n := max + c - 1;
             && |h| == |g| == 2 * n
             && (forall i :: 0 <= i < |h| ==> h[i] == TwoFull(decayMs, key, n, i))
             && forall i :: 0 <= i < |g| ==> g[i] == TwoFullGuard(decayMs, max, n, i)
    ensures AtMostBetween(h, g, key, c)
  {
    hide Between, TwoFull, TwoFullGuard;
    var n := max + c - 1;
    forall p | 0 <= p < |h| ensures Between(h, g, key, p, |h|) <= c {
      TwoFullBetween(decayMs, key, max, c, h, g, p, 2 * n);
    }
  }

  /** Failures of a key in an interval as long as a window. */
  function HitsFor(history: seq<Event>, key: string, decayMs: nat, from: int): nat {
    HitsIn(history, key, from, from + decayMs)
  }

  /** Guarded callers of which at most `c` are ever between guard and record. */
  ghost predicate Overlapping(history: seq<Event>, guards: seq<Guard>, max: int, decayMs: nat, key: string, c: nat) {
    InOrder(history) && Guarded(history, guards, max, decayMs, key) && AtMostBetween(history, guards, key, c)
  }

  /** The bound is met: for every `c` there are `c` overlapping callers that record that many failures in a window's time. */
  lemma OverlappingCallersMeetBound(max: nat, decayMs: nat, key: string, c: nat) returns (history: seq<Event>, guards: seq<Guard>)
    requires max >= 1 && decayMs >= 2 && c >= 1
    ensures Overlapping(history, guards, max, decayMs, key, c)
    ensures HitsFor(history, key, decayMs, 1) == 2 * (max + c - 1)
  {
    hide WindowOf, HitsIn, TwoFull, TwoFullGuard, InOrder, Guarded, AtMostBetween;
    var n := max + c - 1;
    history := seq(2 * n, i requires 0 <= i => TwoFull(decayMs, key, n, i));
    guards := seq(2 * n, i requires 0 <= i => TwoFullGuard(decayMs, max, n, i));
    TwoFullInOrder(decayMs, key, n, history);
    TwoFullGuarded(decayMs, key, max, n, history, guards);
    TwoFullOverlap(decayMs, key, max, c, history, guards);
    TwoFullWindows(decayMs, key, n, history, 2 * n);
    assert history[..2 * n] == history;
  }

  lemma BoundFor(history: seq<Event>, guards: seq<Guard>, max: nat, decayMs: nat, key: string, c: nat, from: int)
    requires max >= 1 && Overlapping(history, guards, max, decayMs, key, c)
    ensures HitsFor(history, key, decayMs, from) <= 2 * NonNegative(max + c - 1)
  {
    OverlappingCallersBound(history, guards, max, decayMs, key, c, from);
  }

  /**
   Twice `max` bounds the failures of all histories with at most `c` callers of the key between guard and record
   exactly when `c` is at most 1.
   */
  lemma TwiceMaxIff(max: nat, decayMs: nat, key: string, c: nat)
    requires max >= 1 && decayMs >= 2
    ensures (forall history, guards, from :: Overlapping(history, guards, max, decayMs, key, c) ==> HitsFor(history, key, decayMs, from) <= 2 * max)
            <==> c <= 1
  {
    hide *;
    if c <= 1 {
      forall history, guards, from | Overlapping(history, guards, max, decayMs, key, c)
        ensures HitsFor(history, key, decayMs, from) <= 2 * max
      {
        BoundFor(history, guards, max, decayMs, key, c, from);
        Monus(max + c - 1, max);
      }
    } else {
      var history, guards := OverlappingCallersMeetBound(max, decayMs, key, c);
      assert HitsFor(history, key, decayMs, 1) > 2 * max;
    }
  }

  lemma Monus(n: int, m: nat)
    requires n <= m
    ensures NonNegative(n) <= m
  {
  }

  /** A refused caller can be told to wait 0 seconds: the window ends between two looks at the clock. */
  lemma RefusedWithoutWait(key: string)
    ensures var history := [Hit(key, 0, 0)];
            && Attempts(history, 1000, key, 999) >= 1
            && var w := Live(WindowOf(history, 1000, key), 999);
               w.Some? && Seconds(w.value.resetsAt - 1000) == 0
  {
    var history := [Hit(key, 0, 0)];
    assert history[..0] == [];
    assert WindowOf(history, 1000, key) == Some(Window(1, 1000, 0));
  }
}
