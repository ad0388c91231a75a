/**
 Password-reset links of packages/auth/src/PasswordReset.ts over whole runs.

 A reset checks the link and reads the password it was minted under, later looks for the link's mark, hashes the new
 password, which takes a while, and then saves. `Begin`, `Check` and `Commit` are these moments, so resets may overlap.
 Password hashes are numbers handed out in order, because a salted hash is never the same twice; the fingerprint of a
 hash is a parameter, assumed injective.
 */
module PasswordReset {
  import opened LinkTokens
  import opened Wrappers

  type Fingerprint = nat -> string

  ghost predicate Injective(f: Fingerprint) {
    forall a, b :: f(a) == f(b) ==> a == b
  }

  datatype Claims = Claims(user: nat, pwfp: string, jti: nat, exp: int)

  // ---------------------------------------------------------------- one call

  class Account {
    const id: nat
    var password: nat
    var rememberToken: Option<string>

    constructor (id: nat, password: nat)
      ensures this.id == id && this.password == password && rememberToken == None
    {
      this.id, this.password, rememberToken := id, password, None;
    }
  }

  predicate MayReset(f: Fingerprint, claims: Claims, now: int, password: nat, used: bool) {
    now <= claims.exp && f(password) == claims.pwfp && !used
  }

  /** One reset that nothing interrupts; `user` is what the lookup found and `fresh_` the new password's hash. */
  method ResetPassword(f: Fingerprint, claims: Option<Claims>, user: Account?, cache: LinkCache, now: nat, fresh_: nat) returns (ok: bool)
    modifies user, cache
    ensures ok <==> claims.Some? && user != null &&
                    old(MayReset(f, claims.value, SecondOf(now), user.password, cache.Used(claims.value.jti, now)))
    ensures ok ==> user.password == fresh_ && user.rememberToken == None
    ensures ok ==>
              cache.marks == if cache.present then old(cache.marks)[claims.value.jti := (now, MarkTtl(claims.value.exp, SecondOf(now)))]
                             else old(cache.marks)
    ensures !ok ==> (user != null ==> user.password == old(user.password) && user.rememberToken == old(user.rememberToken))
    ensures !ok ==> cache.marks == old(cache.marks)
  {
    if claims.None? {
      return false;
    }
    var c := claims.value;
    if SecondOf(now) > c.exp {
      return false;
    }
    if user == null {
      return false;
    }
    if f(user.password) != c.pwfp || cache.Used(c.jti, now) {
      return false;
    }
    user.password := fresh_;
    user.rememberToken := None;
    cache.MarkLinkUsed(c.jti, c.exp, now, now);
    return true;
  }

  // ---------------------------------------------------------------- runs

  /** A minted link, with the hash it was minted under. */
  datatype Link = Link(claims: Claims, hash: nat)

  datatype Pending = Pending(link: nat, begun: nat, began: int)

  datatype Success = Success(link: nat, begun: nat, began: int, committed: nat)

  /** `checked` are the pending resets that found no mark; `tick` counts steps; `marks` is what the cache still holds. */
  datatype State = State(
    accounts: map<nat, nat>,
    nextHash: nat,
    links: seq<Link>,
    marks: set<nat>,
    pending: set<Pending>,
    checked: set<Pending>,
    successes: set<Success>,
    tick: nat)

  /** A reset that writes the password and then throws, from a hook or on its way to the mark, is a `Commit` whose mark is lost at once. */
  datatype Step =
    | AddUser(user: nat)
    | Mint(user: nat, minutes: int, now: int)
    | Begin(link: nat, now: int)
    | Check(p: Pending)
    | Commit(p: Pending)
    | SaveFails(p: Pending)
    | ChangePassword(user: nat)
    | LoseMarks(lost: set<nat>)

  ghost function Next(f: Fingerprint, s: State, step: Step): State {
    var t := s.(tick := s.tick + 1);
    match step
    case AddUser(u) =>
      if u in s.accounts then t else t.(accounts := s.accounts[u := s.nextHash], nextHash := s.nextHash + 1)
    case Mint(u, minutes, now) =>
      if u !in s.accounts then t
      else t.(links := s.links + [Link(Claims(u, f(s.accounts[u]), |s.links|, now + minutes * 60), s.accounts[u])])
    case Begin(i, now) =>
      if i < |s.links| && s.links[i].claims.user in s.accounts
         && MayReset(f, s.links[i].claims, now, s.accounts[s.links[i].claims.user], false)
      then t.(pending := s.pending + {Pending(i, s.tick, now)}) else t
    case Check(p) =>
      if p !in s.pending || p.link >= |s.links| then t
      else if s.links[p.link].claims.jti in s.marks then t.(pending := s.pending - {p}, checked := s.checked - {p})
      else t.(checked := s.checked + {p})
    case Commit(p) =>
      if p in s.pending && p in s.checked && p.link < |s.links| then
        t.(accounts := s.accounts[s.links[p.link].claims.user := s.nextHash],
           nextHash := s.nextHash + 1,
           marks := s.marks + {s.links[p.link].claims.jti},
           pending := s.pending - {p},
           checked := s.checked - {p},
           successes := s.successes + {Success(p.link, p.begun, p.began, s.tick)})
      else t
    case SaveFails(p) => t.(pending := s.pending - {p}, checked := s.checked - {p})
    case ChangePassword(u) =>
      if u in s.accounts then t.(accounts := s.accounts[u := s.nextHash], nextHash := s.nextHash + 1) else t
    case LoseMarks(lost) => t.(marks := s.marks - lost)
  }

  ghost function Exec(f: Fingerprint, s: State, steps: seq<Step>): State {
    if steps == [] then s else Next(f, Exec(f, s, steps[..|steps| - 1]), steps[|steps| - 1])
  }

  const EMPTY := State(map[], 0, [], {}, {}, {}, {}, 0)

  ghost predicate LinkOk(f: Fingerprint, s: State, i: nat)
    requires i < |s.links|
  {
    var l := s.links[i];
    l.hash < s.nextHash && l.claims.pwfp == f(l.hash) && l.claims.jti == i
  }

  /** Only a link that was used is marked. */
  ghost predicate MarksOk(s: State) {
    forall j :: j in s.marks ==> exists x :: x in s.successes && x.link == j
  }

  ghost predicate PendingOk(s: State, p: Pending) {
    && p.link < |s.links| && p.begun < s.tick && p.began <= s.links[p.link].claims.exp
    && forall x :: x in s.successes && SameHash(s, x.link, p.link) ==> p.begun < x.committed
  }

  ghost predicate SameHash(s: State, i: nat, j: nat) {
    && i < |s.links| && j < |s.links|
    && s.links[i].claims.user == s.links[j].claims.user && s.links[i].hash == s.links[j].hash
  }

  ghost predicate SuccessOk(s: State, x: Success) {
    && x.link < |s.links| && x.begun < x.committed < s.tick && x.began <= s.links[x.link].claims.exp
    && (s.links[x.link].claims.user in s.accounts ==> s.links[x.link].hash < s.accounts[s.links[x.link].claims.user])
  }

  ghost predicate Overlap(x: Success, y: Success) {
    x.begun < y.committed && y.begun < x.committed
  }

  ghost predicate Inv(f: Fingerprint, s: State) {
    && (forall u :: u in s.accounts ==> s.accounts[u] < s.nextHash)
    && (forall i :: 0 <= i < |s.links| ==> LinkOk(f, s, i))
    && (forall p :: p in s.pending ==> PendingOk(s, p))
    && (forall x :: x in s.successes ==> SuccessOk(s, x)) && MarksOk(s)
    && (forall x, y :: x in s.successes && y in s.successes && SameHash(s, x.link, y.link) ==> Overlap(x, y))
  }

  /** While a link's hash is still the user's, no reset has succeeded under it. */
  lemma NoSuccessYet(f: Fingerprint, s: State, i: nat)
    requires Inv(f, s) && i < |s.links| && s.links[i].claims.user in s.accounts
    requires s.accounts[s.links[i].claims.user] == s.links[i].hash
    ensures forall x :: x in s.successes ==> !SameHash(s, x.link, i)
  {
    assert forall x :: x in s.successes ==> SuccessOk(s, x);
  }

  lemma BeginKeepsInv(f: Fingerprint, s: State, i: nat, now: int)
    requires Injective(f) && Inv(f, s)
    ensures Inv(f, Next(f, s, Begin(i, now)))
  {
    var t := Next(f, s, Begin(i, now));
    if i < |s.links| {
      assert LinkOk(f, s, i);
    }
    forall p | p in t.pending ensures PendingOk(t, p) {
      if p in s.pending {
        assert PendingOk(s, p);
      } else {
        NoSuccessYet(f, s, i);
      }
    }
    SuccessesStay(s, t);
    forall k | 0 <= k < |t.links| ensures LinkOk(f, t, k) {
      assert LinkOk(f, s, k);
    }
  }

  /** Successes stay in order when hashes only grow and nothing is committed. */
  lemma SuccessesStay(s: State, t: State)
    requires s.links <= t.links && t.successes == s.successes && s.tick <= t.tick
    requires forall x :: x in s.successes ==> SuccessOk(s, x)
    requires forall u :: u in t.accounts ==>
                           if u in s.accounts then s.accounts[u] <= t.accounts[u] else forall i :: 0 <= i < |s.links| ==> s.links[i].hash < t.accounts[u]
    ensures forall x :: x in t.successes ==> SuccessOk(t, x)
  {
    forall x | x in t.successes ensures SuccessOk(t, x) {
      assert SuccessOk(s, x);
    }
  }

  lemma CommitKeepsInv(f: Fingerprint, s: State, p: Pending)
    requires Inv(f, s) && p in s.pending && p in s.checked
    ensures Inv(f, Next(f, s, Commit(p)))
  {
    var t := Next(f, s, Commit(p));
    assert PendingOk(s, p) && LinkOk(f, s, p.link);
    var done := Success(p.link, p.begun, p.began, s.tick);
    forall i | 0 <= i < |t.links| ensures LinkOk(f, t, i) {
      assert LinkOk(f, s, i);
    }
    forall q | q in t.pending ensures PendingOk(t, q) {
      assert PendingOk(s, q);
      forall x | x in t.successes && SameHash(t, x.link, q.link) ensures q.begun < x.committed {
        if x != done {
          assert SameHash(s, x.link, q.link);
        }
      }
    }
    forall x | x in t.successes ensures SuccessOk(t, x) {
      if x in s.successes {
        assert SuccessOk(s, x);
        assert LinkOk(f, s, x.link);
      } else {
        assert LinkOk(f, s, p.link);
      }
    }
    forall x, y | x in t.successes && y in t.successes && SameHash(t, x.link, y.link) ensures Overlap(x, y) {
      if x in s.successes && y in s.successes {
        assert SameHash(s, x.link, y.link);
      } else if x in s.successes {
        assert SuccessOk(s, x) && SameHash(s, x.link, p.link);
      } else if y in s.successes {
        assert SuccessOk(s, y) && SameHash(s, y.link, p.link);
      }
    }
  }

  lemma OtherStepsKeepInv(f: Fingerprint, s: State, step: Step)
    requires Inv(f, s) && !step.Begin? && !step.Commit?
    ensures Inv(f, Next(f, s, step))
  {
    var t := Next(f, s, step);
    assert s.links <= t.links;
    forall i | 0 <= i < |t.links| ensures LinkOk(f, t, i) {
      if i < |s.links| {
        assert LinkOk(f, s, i);
      }
    }
    forall i | 0 <= i < |s.links| ensures s.links[i].hash < s.nextHash {
      assert LinkOk(f, s, i);
    }
    SuccessesStay(s, t);
    forall p | p in t.pending ensures PendingOk(t, p) {
      assert PendingOk(s, p);
      forall x | x in t.successes && SameHash(t, x.link, p.link) ensures p.begun < x.committed {
        assert SuccessOk(s, x) && SameHash(s, x.link, p.link);
      }
    }
    forall x, y | x in t.successes && y in t.successes && SameHash(t, x.link, y.link) ensures Overlap(x, y) {
      assert SuccessOk(s, x) && SuccessOk(s, y) && SameHash(s, x.link, y.link);
    }
  }

  lemma {:induction false} ExecKeepsInv(f: Fingerprint, s: State, steps: seq<Step>)
    requires Injective(f) && Inv(f, s)
    ensures Inv(f, Exec(f, s, steps))
  {
    if steps != [] {
      var init, last := steps[..|steps| - 1], steps[|steps| - 1];
      ExecKeepsInv(f, s, init);
      match last
      case Begin(i, now) => BeginKeepsInv(f, Exec(f, s, init), i, now);
      case Commit(p) => if p in Exec(f, s, init).pending && p in Exec(f, s, init).checked { CommitKeepsInv(f, Exec(f, s, init), p); } else { IdleKeepsInv(f, Exec(f, s, init)); }
      case _ => OtherStepsKeepInv(f, Exec(f, s, init), last);
    }
  }

  lemma IdleKeepsInv(f: Fingerprint, s: State)
    requires Inv(f, s)
    ensures Inv(f, s.(tick := s.tick + 1))
  {
    OtherStepsKeepInv(f, s, LoseMarks({}));
    assert s.marks - {} == s.marks;
  }

  /** Whatever the cache forgets: no reset that began after its link's expiry succeeds. */
  lemma NoneAfterExpiry(f: Fingerprint, steps: seq<Step>, x: Success)
    requires Injective(f) && x in Exec(f, EMPTY, steps).successes
    ensures x.link < |Exec(f, EMPTY, steps).links| && x.began <= Exec(f, EMPTY, steps).links[x.link].claims.exp
  {
    ExecKeepsInv(f, EMPTY, steps);
    assert SuccessOk(Exec(f, EMPTY, steps), x);
  }

  /**
   Of all links minted under one password hash, two resets succeed only if they overlapped: each was checked before
   the other was saved. So resets that do not overlap succeed at most once, with or without the cache.
   */
  lemma SuccessesOverlap(f: Fingerprint, steps: seq<Step>, x: Success, y: Success)
    requires Injective(f)
    requires x in Exec(f, EMPTY, steps).successes && y in Exec(f, EMPTY, steps).successes
    requires SameHash(Exec(f, EMPTY, steps), x.link, y.link)
    ensures Overlap(x, y)
  {
    ExecKeepsInv(f, EMPTY, steps);
  }

  lemma {:induction false} ExecAppend(f: Fingerprint, s: State, a: seq<Step>, b: seq<Step>)
    ensures Exec(f, s, a + b) == Exec(f, Exec(f, s, a), b)
  {
    if b == [] {
      assert a + b == a;
    } else {
      ExecAppend(f, s, a, b[..|b| - 1]);
      assert (a + b)[..|a + b| - 1] == a + b[..|b| - 1];
    }
  }

  // ---------------------------------------------------------------- when two succeed

  /** A link minted for user `u` under the password hash `h`. */
  ghost predicate Under(s: State, i: nat, u: nat, h: nat) {
    i < |s.links| && s.links[i].claims.user == u && s.links[i].hash == h
  }

  ghost predicate TwoPending(s: State, u: nat, h: nat) {
    exists p, q :: p in s.pending && q in s.pending && p != q && Under(s, p.link, u, h) && Under(s, q.link, u, h)
  }

  ghost predicate TwoSuccesses(s: State, u: nat, h: nat) {
    exists x, y :: x in s.successes && y in s.successes && x != y && Under(s, x.link, u, h) && Under(s, y.link, u, h)
  }

  ghost predicate NoSuccess(s: State, u: nat, h: nat) {
    forall x :: x in s.successes ==> !Under(s, x.link, u, h)
  }

  predicate BeginsNone(steps: seq<Step>) {
    forall k :: 0 <= k < |steps| ==> !steps[k].Begin?
  }

  /** The check a success rests on. */
  function CheckOf(x: Success): Pending {
    Pending(x.link, x.begun, x.began)
  }

  lemma {:induction false} LinksStay(f: Fingerprint, s: State, steps: seq<Step>)
    ensures s.links <= Exec(f, s, steps).links && s.successes <= Exec(f, s, steps).successes && s.tick <= Exec(f, s, steps).tick
  {
    if steps != [] {
      var before := Exec(f, s, steps[..|steps| - 1]);
      LinksStay(f, s, steps[..|steps| - 1]);
      LinksGrow(f, before, steps[|steps| - 1]);
      hide Next;
    }
  }

  lemma LinksGrow(f: Fingerprint, s: State, step: Step)
    ensures var t := Next(f, s, step); s.links <= t.links && s.successes <= t.successes && s.tick <= t.tick
  {
    hide MayReset;
  }

  /** Without new checks, what succeeds was pending, is pending no longer, and succeeds once. */
  ghost predicate FromPending(s: State, t: State) {
    && t.pending <= s.pending
    && (forall x :: x in t.successes && x !in s.successes ==> CheckOf(x) in s.pending && CheckOf(x) !in t.pending)
    && (forall x, y :: x in t.successes && y in t.successes && x !in s.successes && y !in s.successes && CheckOf(x) == CheckOf(y) ==> x == y)
  }

  lemma {:induction false} SuccessesWerePending(f: Fingerprint, s: State, steps: seq<Step>)
    requires BeginsNone(steps)
    ensures FromPending(s, Exec(f, s, steps))
  {
    if steps != [] {
      var init, last := steps[..|steps| - 1], steps[|steps| - 1];
      assert forall k :: 0 <= k < |init| ==> init[k] == steps[k];
      SuccessesWerePending(f, s, init);
    }
  }

  /** Whichever of two checked resets is saved first, the other is saved too, also when both used one link. */
  lemma BothCheckedBothSucceed(f: Fingerprint, s: State, p: Pending, q: Pending)
    requires Inv(f, s) && p in s.pending && q in s.pending && p in s.checked && q in s.checked && p != q
    ensures var t := Exec(f, s, [Commit(p), Commit(q)]);
            && Success(p.link, p.begun, p.began, s.tick) in t.successes
            && Success(q.link, q.begun, q.began, s.tick + 1) in t.successes
  {
    hide *;
    LinksKnown(f, s);
    TwoSteps(f, s, Commit(p), Commit(q));
    CommitAdds(f, s, p, q);
    CommitAdds(f, Next(f, s, Commit(p)), q, q);
  }

  lemma CommitAdds(f: Fingerprint, s: State, p: Pending, q: Pending)
    requires p in s.pending && q in s.pending && p in s.checked && q in s.checked && p.link < |s.links|
    ensures var t := Next(f, s, Commit(p));
            && t.links == s.links && t.tick == s.tick + 1 && (q != p ==> q in t.pending && q in t.checked)
            && t.successes == s.successes + {Success(p.link, p.begun, p.began, s.tick)}
  {
  }

  /** No new reset, and the cache keeps its marks. */
  predicate Undisturbed(steps: seq<Step>) {
    forall k :: 0 <= k < |steps| ==> !steps[k].Begin? && !steps[k].LoseMarks?
  }

  /**
   From any reachable state in which no link of a password hash has succeeded, and with no further reset begun, two
   can succeed exactly when two of their resets are pending together.
   */
  lemma SucceedTwiceIff(f: Fingerprint, steps: seq<Step>, u: nat, h: nat)
    requires Injective(f) && NoSuccess(Exec(f, EMPTY, steps), u, h)
    ensures (exists more :: Undisturbed(more) && TwoSuccesses(Exec(f, EMPTY, steps + more), u, h))
            <==> TwoPending(Exec(f, EMPTY, steps), u, h)
  {
    var s := Exec(f, EMPTY, steps);
    ExecKeepsInv(f, EMPTY, steps);
    hide *;
    if TwoPending(s, u, h) {
      var p, q := TwoOf(s, u, h);
      TwoCanSucceed(f, s, p, q, u, h);
      ExecAppend(f, EMPTY, steps, CheckThenCommit(p, q));
      CallsOnly(p, q);
    }
    forall more | Undisturbed(more) && TwoSuccesses(Exec(f, EMPTY, steps + more), u, h) ensures TwoPending(s, u, h) {
      ExecAppend(f, EMPTY, steps, more);
      TwoWereBegun(f, s, more, u, h);
    }
  }

  lemma TwoOf(s: State, u: nat, h: nat) returns (p: Pending, q: Pending)
    requires TwoPending(s, u, h)
    ensures p in s.pending && q in s.pending && p != q && Under(s, p.link, u, h) && Under(s, q.link, u, h)
  {
    p, q :| p in s.pending && q in s.pending && p != q && Under(s, p.link, u, h) && Under(s, q.link, u, h);
  }

  lemma CallsOnly(p: Pending, q: Pending)
    ensures Undisturbed(CheckThenCommit(p, q))
  {
  }

  lemma TwoWereBegun(f: Fingerprint, s: State, more: seq<Step>, u: nat, h: nat)
    requires Inv(f, s) && NoSuccess(s, u, h) && Undisturbed(more) && TwoSuccesses(Exec(f, s, more), u, h)
    ensures TwoPending(s, u, h)
  {
    hide Inv, Exec, NoSuccess, TwoSuccesses, TwoPending, FromPending;
    assert BeginsNone(more);
    SuccessesWerePending(f, s, more);
    LinksStay(f, s, more);
    LinksKnown(f, s);
    TwoWerePending(s, Exec(f, s, more), u, h);
  }

  function CheckThenCommit(p: Pending, q: Pending): seq<Step> {
    [Check(p), Check(q)] + [Commit(p), Commit(q)]
  }

  /** Without a success there is no mark either. */
  lemma Unmarked(f: Fingerprint, s: State, i: nat, u: nat, h: nat)
    requires Inv(f, s) && NoSuccess(s, u, h) && Under(s, i, u, h)
    ensures s.links[i].claims.jti !in s.marks
  {
    assert LinkOk(f, s, i);
  }

  lemma ChecksBoth(s: State, f: Fingerprint, p: Pending, q: Pending)
    requires p in s.pending && q in s.pending && p.link < |s.links| && q.link < |s.links|
    requires s.links[p.link].claims.jti !in s.marks && s.links[q.link].claims.jti !in s.marks
    ensures Next(f, Next(f, s, Check(p)), Check(q)) == s.(checked := s.checked + {p} + {q}, tick := s.tick + 2)
  {
  }

  lemma TwoCanSucceed(f: Fingerprint, s: State, p: Pending, q: Pending, u: nat, h: nat)
    requires Injective(f) && Inv(f, s) && NoSuccess(s, u, h)
    requires p in s.pending && q in s.pending && p != q && Under(s, p.link, u, h) && Under(s, q.link, u, h)
    ensures TwoSuccesses(Exec(f, s, CheckThenCommit(p, q)), u, h)
  {
    var checks, commits := [Check(p), Check(q)], [Commit(p), Commit(q)];
    Unmarked(f, s, p.link, u, h);
    Unmarked(f, s, q.link, u, h);
    ExecKeepsInv(f, s, checks);
    ExecAppend(f, s, checks, commits);
    TwoSteps(f, s, Check(p), Check(q));
    ChecksBoth(s, f, p, q);
    hide Inv, Exec, TwoSuccesses, Next;
    var t := Exec(f, s, checks);
    BothCheckedBothSucceed(f, t, p, q);
    LinksStay(f, t, commits);
    BothUnder(t, Exec(f, t, commits), p, q, u, h);
  }

  lemma LinksKnown(f: Fingerprint, s: State)
    requires Inv(f, s)
    ensures forall p :: p in s.pending ==> p.link < |s.links|
    ensures forall x :: x in s.successes ==> x.link < |s.links|
  {
    assert forall p :: p in s.pending ==> PendingOk(s, p);
    assert forall x :: x in s.successes ==> SuccessOk(s, x);
  }

  lemma BothUnder(s: State, t: State, p: Pending, q: Pending, u: nat, h: nat)
    requires s.links <= t.links && Under(s, p.link, u, h) && Under(s, q.link, u, h)
    requires Success(p.link, p.begun, p.began, s.tick) in t.successes && Success(q.link, q.begun, q.began, s.tick + 1) in t.successes
    ensures TwoSuccesses(t, u, h)
  {
    var x, y := Success(p.link, p.begun, p.began, s.tick), Success(q.link, q.begun, q.began, s.tick + 1);
    assert x != y && Under(t, x.link, u, h) && Under(t, y.link, u, h);
  }

  lemma TwoWerePending(s: State, t: State, u: nat, h: nat)
    requires s.links <= t.links && FromPending(s, t) && NoSuccess(s, u, h) && TwoSuccesses(t, u, h)
    requires forall p :: p in s.pending ==> p.link < |s.links|
    requires forall x :: x in s.successes ==> x.link < |s.links|
    ensures TwoPending(s, u, h)
  {
    var x, y :| x in t.successes && y in t.successes && x != y && Under(t, x.link, u, h) && Under(t, y.link, u, h);
    assert x !in s.successes && y !in s.successes;
    assert CheckOf(x) in s.pending && CheckOf(y) in s.pending && CheckOf(x) != CheckOf(y);
    assert Under(s, CheckOf(x).link, u, h) && Under(s, CheckOf(y).link, u, h);
  }

  // ---------------------------------------------------------------- one reset at a time

  /** The step begins a reset while another of the same user and password hash is pending. */
  ghost predicate BeginsBeside(f: Fingerprint, s: State, step: Step) {
    && step.Begin? && step.link < |s.links|
    && exists p :: p in s.pending && SameHash(s, p.link, step.link)
  }

  ghost predicate OneAtATime(f: Fingerprint, steps: seq<Step>) {
    forall k :: 0 <= k < |steps| ==> !BeginsBeside(f, Exec(f, EMPTY, steps[..k]), steps[k])
  }

  /** At most one reset of a password hash is pending, and none once one has succeeded. */
  ghost predicate Alone(s: State) {
    && (forall p, q :: p in s.pending && q in s.pending && SameHash(s, p.link, q.link) ==> p == q)
    && (forall p, x :: p in s.pending && x in s.successes ==> !SameHash(s, x.link, p.link))
    && (forall x, y :: x in s.successes && y in s.successes && SameHash(s, x.link, y.link) ==> x == y)
  }

  lemma AloneKept(f: Fingerprint, s: State, step: Step)
    requires Inv(f, s) && Injective(f) && Alone(s) && !BeginsBeside(f, s, step)
    ensures Alone(Next(f, s, step))
  {
    LinksKnown(f, s);
    if step.Begin? {
      if step.link < |s.links| {
        assert LinkOk(f, s, step.link);
      }
      BeginStaysAlone(f, s, step.link, step.now);
    } else {
      hide Inv;
      OthersStayAlone(f, s, step);
    }
  }

  lemma BeginStaysAlone(f: Fingerprint, s: State, i: nat, now: int)
    requires Inv(f, s) && Injective(f) && Alone(s) && !BeginsBeside(f, s, Begin(i, now))
    requires i < |s.links| ==> LinkOk(f, s, i)
    ensures Alone(Next(f, s, Begin(i, now)))
  {
    var t := Next(f, s, Begin(i, now));
    if t.pending != s.pending {
      NoSuccessYet(f, s, i);
      hide Inv;
      assert t.links == s.links && t.successes == s.successes && t.pending == s.pending + {Pending(i, s.tick, now)};
    }
  }

  lemma OthersStayAlone(f: Fingerprint, s: State, step: Step)
    requires Alone(s) && !step.Begin?
    requires forall p :: p in s.pending ==> p.link < |s.links|
    requires forall x :: x in s.successes ==> x.link < |s.links|
    ensures Alone(Next(f, s, step))
  {
    var t := Next(f, s, step);
    if step.Commit? && step.p in s.pending {
      assert t.links == s.links;
    } else {
      OthersAdd(f, s, step);
      hide Next;
      assert forall i: nat, j: nat :: i < |s.links| && j < |s.links| ==> (SameHash(t, i, j) <==> SameHash(s, i, j));
    }
  }

  lemma OthersAdd(f: Fingerprint, s: State, step: Step)
    requires !step.Begin? && (step.Commit? ==> step.p !in s.pending)
    ensures var t := Next(f, s, step); s.links <= t.links && t.pending <= s.pending && t.successes == s.successes
  {
  }

  lemma {:induction false} StaysAlone(f: Fingerprint, steps: seq<Step>)
    requires Injective(f) && OneAtATime(f, steps)
    ensures Alone(Exec(f, EMPTY, steps))
  {
    if steps != [] {
      var init := steps[..|steps| - 1];
      forall k | 0 <= k < |init| ensures !BeginsBeside(f, Exec(f, EMPTY, init[..k]), init[k]) {
        assert init[..k] == steps[..k];
      }
      StaysAlone(f, init);
      ExecKeepsInv(f, EMPTY, init);
      AloneKept(f, Exec(f, EMPTY, init), steps[|steps| - 1]);
    }
  }

  /** Runs that begin no reset beside another of the same user and password hash succeed at most once under it. */
  lemma OneAtATimeSucceedsOnce(f: Fingerprint, steps: seq<Step>, x: Success, y: Success)
    requires Injective(f) && OneAtATime(f, steps)
    requires x in Exec(f, EMPTY, steps).successes && y in Exec(f, EMPTY, steps).successes
    requires SameHash(Exec(f, EMPTY, steps), x.link, y.link)
    ensures x == y
  {
    StaysAlone(f, steps);
  }

  // ---------------------------------------------------------------- one call as the steps of a run

  /** The objects stand for what the state says about link `i` and its user. */
  ghost predicate Mirrors(s: State, i: nat, user: Account, cache: LinkCache, now: nat)
    reads user, cache
  {
    && i < |s.links| && user.id == s.links[i].claims.user && user.id in s.accounts && user.password == s.accounts[user.id]
    && (cache.Used(s.links[i].claims.jti, now) <==> s.links[i].claims.jti in s.marks)
  }

  /** The steps of a reset begun in tick `tick`. */
  function Turns(i: nat, tick: nat, now: int): seq<Step> {
    var p := Pending(i, tick, now);
    [Begin(i, now), Check(p), Commit(p)]
  }

  /** An uninterrupted reset in the course of a run is its check, its look for the mark and, when these pass, its save. */
  method ResetInRun(f: Fingerprint, ghost s: State, ghost i: nat, claims: Claims, user: Account, cache: LinkCache, now: nat, fresh_: nat)
    returns (ok: bool, ghost t: State)
    requires Inv(f, s) && Mirrors(s, i, user, cache, now) && claims == s.links[i].claims && fresh_ == s.nextHash
    modifies user, cache
    ensures t == Exec(f, s, Turns(i, s.tick, SecondOf(now)))
    ensures ok <==> Success(i, s.tick, SecondOf(now), s.tick + 2) in t.successes - s.successes
    ensures user.id in t.accounts && user.password == t.accounts[user.id]
    ensures ok && cache.present ==> claims.jti in t.marks && claims.jti in cache.marks
  {
    ok := ResetPassword(f, Some(claims), user, cache, now, fresh_);
    t := Exec(f, s, Turns(i, s.tick, SecondOf(now)));
    CheckThenSave(f, s, i, SecondOf(now));
  }

  ghost predicate ResetDone(f: Fingerprint, s: State, t: State, i: nat, now: int)
    requires i < |s.links| && s.links[i].claims.user in s.accounts
  {
    var c := s.links[i].claims;
    if MayReset(f, c, now, s.accounts[c.user], c.jti in s.marks) then
      && t.accounts == s.accounts[c.user := s.nextHash] && t.marks == s.marks + {c.jti}
      && t.successes == s.successes + {Success(i, s.tick, now, s.tick + 2)}
    else t.accounts == s.accounts && t.marks == s.marks && t.successes == s.successes
  }

  lemma CheckThenSave(f: Fingerprint, s: State, i: nat, now: int)
    requires Inv(f, s) && i < |s.links| && s.links[i].claims.user in s.accounts
    ensures Success(i, s.tick, now, s.tick + 2) !in s.successes
    ensures ResetDone(f, s, Exec(f, s, Turns(i, s.tick, now)), i, now)
  {
    hide ResetDone, Next, Exec, Inv;
    var p := Pending(i, s.tick, now);
    NothingYet(f, s, i, now);
    TwoSteps(f, s, Begin(i, now), Check(p));
    OneStep(f, Next(f, Next(f, s, Begin(i, now)), Check(p)), Commit(p));
    ExecAppend(f, s, [Begin(i, now), Check(p)], [Commit(p)]);
    assert [Begin(i, now), Check(p)] + [Commit(p)] == Turns(i, s.tick, now);
    CheckedNext(f, s, i, now);
  }

  lemma OneStep(f: Fingerprint, s: State, a: Step)
    ensures Exec(f, s, [a]) == Next(f, s, a)
  {
    assert [a][..0] == [];
  }

  lemma BeginNext(f: Fingerprint, s: State, i: nat, now: int)
    requires i < |s.links| && s.links[i].claims.user in s.accounts
    ensures var t := Next(f, s, Begin(i, now));
            t == s.(tick := s.tick + 1, pending := if MayReset(f, s.links[i].claims, now, s.accounts[s.links[i].claims.user], false)
                                                   then s.pending + {Pending(i, s.tick, now)} else s.pending)
  {
  }

  lemma CheckNext(f: Fingerprint, s: State, p: Pending)
    requires p.link < |s.links|
    ensures var t := Next(f, s, Check(p));
            && t.accounts == s.accounts && t.marks == s.marks && t.successes == s.successes && t.links == s.links
            && t.nextHash == s.nextHash && t.tick == s.tick + 1
            && (p in t.pending <==> p in s.pending && s.links[p.link].claims.jti !in s.marks) && (p in t.pending ==> p in t.checked)
  {
  }

  lemma CheckedNext(f: Fingerprint, s: State, i: nat, now: int)
    requires i < |s.links| && s.links[i].claims.user in s.accounts && Pending(i, s.tick, now) !in s.pending
    ensures ResetDone(f, s, Next(f, Next(f, Next(f, s, Begin(i, now)), Check(Pending(i, s.tick, now))), Commit(Pending(i, s.tick, now))), i, now)
  {
    var p := Pending(i, s.tick, now);
    BeginNext(f, s, i, now);
    CheckNext(f, Next(f, s, Begin(i, now)), p);
    CommitNext(f, Next(f, Next(f, s, Begin(i, now)), Check(p)), p);
    hide Next;
  }

  lemma CommitNext(f: Fingerprint, s: State, p: Pending)
    requires p.link < |s.links| && (p in s.pending ==> p in s.checked)
    ensures var t := Next(f, s, Commit(p));
            if p in s.pending then
              && t.accounts == s.accounts[s.links[p.link].claims.user := s.nextHash] && t.marks == s.marks + {s.links[p.link].claims.jti}
              && t.successes == s.successes + {Success(p.link, p.begun, p.began, s.tick)}
            else t.accounts == s.accounts && t.marks == s.marks && t.successes == s.successes
  {
  }

  lemma NothingYet(f: Fingerprint, s: State, i: nat, now: int)
    requires Inv(f, s)
    ensures Pending(i, s.tick, now) !in s.pending && Success(i, s.tick, now, s.tick + 2) !in s.successes
  {
    assert forall p :: p in s.pending ==> PendingOk(s, p);
    assert forall x :: x in s.successes ==> SuccessOk(s, x);
  }

  lemma TwoSteps(f: Fingerprint, s: State, a: Step, b: Step)
    ensures Exec(f, s, [a, b]) == Next(f, Next(f, s, a), b)
  {
    hide Next;
    assert [a, b][..1] == [a] && [a][..0] == [];
    assert Exec(f, s, [a]) == Next(f, s, a);
  }

  /** Overlapping resets do both succeed: two tries of one link, checked one after the other and then saved. */
  lemma OverlappingResetsBothSucceed(f: Fingerprint)
    ensures exists steps :: |Exec(f, EMPTY, steps).successes| == 2 && |Exec(f, EMPTY, steps).links| == 1
  {
    hide *;
    var p, q := Pending(0, 2, 0), Pending(0, 3, 0);
    TwoBegun(f, p, q);
    var s := Begun(f, p, q);
    BothDone(f, p, q);
    TwoSteps(f, EMPTY, AddUser(1), Mint(1, 60, 0));
    TwoSteps(f, Next(f, Next(f, EMPTY, AddUser(1)), Mint(1, 60, 0)), Begin(0, 0), Begin(0, 0));
    ExecAppend(f, EMPTY, [AddUser(1), Mint(1, 60, 0)], [Begin(0, 0), Begin(0, 0)]);
    ExecAppend(f, EMPTY, [AddUser(1), Mint(1, 60, 0)] + [Begin(0, 0), Begin(0, 0)], CheckThenCommit(p, q));
    var t := Exec(f, s, CheckThenCommit(p, q));
    assert |t.successes| == 2 && |t.links| == 1;
  }

  lemma BothDone(f: Fingerprint, p: Pending, q: Pending)
    requires p == Pending(0, 2, 0) && q == Pending(0, 3, 0)
    ensures var t := Exec(f, Begun(f, p, q), CheckThenCommit(p, q)); |t.successes| == 2 && |t.links| == 1
  {
    var s := Begun(f, p, q);
    ChecksBoth(s, f, p, q);
    TwoSteps(f, s, Check(p), Check(q));
    ExecAppend(f, s, [Check(p), Check(q)], [Commit(p), Commit(q)]);
    var t := Exec(f, s, [Check(p), Check(q)]);
    TwoSteps(f, t, Commit(p), Commit(q));
    hide Next, Exec;
    CommitAdds(f, t, p, q);
    CommitAdds(f, Next(f, t, Commit(p)), q, q);
    var x, y := Success(0, 2, 0, 6), Success(0, 3, 0, 7);
    assert {} + {x} + {y} == {x, y};
  }

  ghost function OneLink(f: Fingerprint): Link {
    Link(Claims(1, f(0), 0, 3600), 0)
  }

  ghost function Begun(f: Fingerprint, p: Pending, q: Pending): State {
    State(map[1 := 0], 1, [OneLink(f)], {}, {p, q}, {}, {}, 4)
  }

  lemma TwoBegun(f: Fingerprint, p: Pending, q: Pending)
    requires p == Pending(0, 2, 0) && q == Pending(0, 3, 0)
    ensures Next(f, Next(f, Next(f, Next(f, EMPTY, AddUser(1)), Mint(1, 60, 0)), Begin(0, 0)), Begin(0, 0)) == Begun(f, p, q)
  {
    var s1 := Next(f, EMPTY, AddUser(1));
    assert s1 == State(map[1 := 0], 1, [], {}, {}, {}, {}, 1);
    var s2 := Next(f, s1, Mint(1, 60, 0));
    assert s2 == State(map[1 := 0], 1, [OneLink(f)], {}, {}, {}, {}, 2);
    var s3 := Next(f, s2, Begin(0, 0));
    assert s3 == State(map[1 := 0], 1, [OneLink(f)], {}, {p}, {}, {}, 3);
  }
}
