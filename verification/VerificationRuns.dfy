/**
 Verification links of packages/auth/src/EmailVerification.ts over whole runs: calls of `verifyEmailToken` for one user
 that overlap with each other and with changes of the address. A call loads the user and compares the claims, later
 looks for the link's mark, later saves the stamp, and later sets the mark. The clock does not go back.
 */
module VerificationRuns {
  import opened EmailVerification
  import opened LinkTokens
  import opened Wrappers

  datatype Stage = Loaded | Looked(tick: nat, used: nat) | Saved(tick: nat, used: nat) {
    predicate Past() {
      !Loaded?
    }
  }

  /** A call under way: the link, when it began, whether the user was already verified when loaded, and how far it is. */
  datatype Call = Call(link: nat, begun: nat, already: bool, stage: Stage)

  /** A call that returned `true`: when it looked for the mark, and when it set its own. */
  datatype Use = Use(link: nat, lookedTick: nat, used: nat, markTick: nat, set_: nat)

  /** `marks` has, for each marked link, when its mark was set and for how long; `proven` the addresses a stamp was saved for. */
  datatype State = State(
    email: string,
    verified: bool,
    proven: set<string>,
    marks: map<nat, (nat, nat)>,
    calls: set<Call>,
    uses: set<Use>,
    tick: nat,
    now: nat)

  datatype Step =
    | Begin(link: nat, expiry: nat)
    | Look(call: Call, used: nat)
    | Save(call: Call)
    | Mark(call: Call, read: nat, set_: nat)
    | Throw(call: Call)
    | ChangeEmail(email: string, clears: bool)      // `clears`: the same write clears the stamp
    | Unverify
    | LoseMarks(lost: set<nat>)

  /** What does not change in a run: the user, the links, each under its number, and the cache, if any. */
  datatype Setting = Setting(id: string, links: seq<Claims>, present: bool, precision: Precision) {
    predicate Used(marks: map<nat, (nat, nat)>, link: nat, look: nat) {
      present && link in marks && Retained(precision, marks[link].0, marks[link].1, look)
    }
  }

  /** A call may be loaded: the link is in time, and the user's own, for the address on record. */
  predicate MayBegin(w: Setting, s: State, link: nat, expiry: nat) {
    link < |w.links| && SecondOf(expiry) <= w.links[link].exp && w.links[link].id == w.id && w.links[link].email == s.email
  }

  /** A step that is not enabled, or would turn the clock back, changes nothing but the tick. */
  function Next(w: Setting, s: State, step: Step): State {
    var t := s.(tick := s.tick + 1);
    match step
    case Begin(i, expiry) =>
      if expiry >= s.now && MayBegin(w, s, i, expiry)
      then t.(calls := s.calls + {Call(i, s.tick, s.verified, Loaded)}, now := expiry) else t
    case Look(c, used) =>
      if c in s.calls && c.stage.Loaded? && used >= s.now
      then t.(calls := s.calls - {c} + (if w.Used(s.marks, c.link, used) then {} else {c.(stage := Looked(s.tick, used))}), now := used)
      else t
    case Save(c) =>
      if c in s.calls && c.stage.Looked? && c.link < |w.links|
      then t.(calls := s.calls - {c} + {c.(stage := Saved(c.stage.tick, c.stage.used))},
              verified := s.verified || !c.already,
              proven := if c.already then s.proven else s.proven + {w.links[c.link].email})
      else t
    case Mark(c, read, set_) =>
      if c in s.calls && c.stage.Saved? && c.link < |w.links| && c.stage.used <= read <= set_ && set_ >= s.now
      then t.(calls := s.calls - {c},
              marks := if w.present then s.marks[c.link := (set_, MarkTtl(w.links[c.link].exp, SecondOf(read)))] else s.marks,
              uses := s.uses + {Use(c.link, c.stage.tick, c.stage.used, s.tick, set_)},
              now := set_)
      else t
    case Throw(c) => t.(calls := s.calls - {c})
    case ChangeEmail(e, clears) => t.(email := e, verified := s.verified && !clears)
    case Unverify => t.(verified := false)
    case LoseMarks(lost) => t.(marks := s.marks - lost)
  }

  function Exec(w: Setting, s: State, steps: seq<Step>): State {
    if steps == [] then s else Next(w, Exec(w, s, steps[..|steps| - 1]), steps[|steps| - 1])
  }

  function Start(email: string): State {
    State(email, false, {}, map[], {}, {}, 0, 0)
  }

  lemma {:induction false} ExecAppend(w: Setting, s: State, a: seq<Step>, b: seq<Step>)
    ensures Exec(w, s, a + b) == Exec(w, Exec(w, s, a), b)
  {
    if b == [] {
      assert a + b == a;
    } else {
      ExecAppend(w, s, a, b[..|b| - 1]);
      assert (a + b)[..|a + b| - 1] == a + b[..|b| - 1];
    }
  }

  // ---------------------------------------------------------------- two uses of one link

  ghost predicate CallOk(w: Setting, s: State, c: Call) {
    && c.link < |w.links| && (c.stage.Past() ==> c.stage.tick < s.tick && c.stage.used <= s.now)
  }

  /** The mark of a used link was set by some use of it, after a look at the clock. */
  ghost predicate MarkOk(w: Setting, s: State, link: nat) {
    link in s.marks && exists read :: SetFrom(w, s, link, read)
  }

  predicate SetFrom(w: Setting, s: State, link: nat, read: nat)
    requires link in s.marks
  {
    link < |w.links| && read <= s.marks[link].0 <= s.now && s.marks[link].1 == MarkTtl(w.links[link].exp, SecondOf(read))
  }

  /** A look at `used` in tick `looked` came before `x` set its mark, or in the link's expiry second or later. */
  predicate Apart(w: Setting, x: Use, link: nat, looked: nat, used: nat) {
    x.link == link < |w.links| ==> looked < x.markTick || SecondOf(used) >= w.links[link].exp
  }

  ghost predicate Inv(w: Setting, s: State) {
    && (forall c :: c in s.calls ==> CallOk(w, s, c))
    && (forall i :: i in s.marks ==> MarkOk(w, s, i))
    && (forall x :: x in s.uses ==> x.link < |w.links| && x.markTick < s.tick && x.link in s.marks)
    && (forall c, x :: c in s.calls && c.stage.Past() && x in s.uses ==> Apart(w, x, c.link, c.stage.tick, c.stage.used))
    && (forall x, y :: x in s.uses && y in s.uses && x.markTick < y.markTick ==> Apart(w, x, y.link, y.lookedTick, y.used))
  }

  lemma LookKeepsInv(w: Setting, s: State, c: Call, used: nat)
    requires Inv(w, s) && w.present && c in s.calls && c.stage.Loaded? && used >= s.now
    ensures Inv(w, Next(w, s, Look(c, used)))
  {
    var t := Next(w, s, Look(c, used));
    assert CallOk(w, s, c);
    forall i | i in s.marks ensures MarkOk(w, t, i) {
      MarkStays(w, s, t, i);
    }
    if !w.Used(s.marks, c.link, used) {
      forall x | x in s.uses ensures Apart(w, x, c.link, s.tick, used) {
        if x.link == c.link && SecondOf(used) < w.links[c.link].exp {
          StillMarked(w, s, c.link, used);
        }
      }
    }
  }

  lemma MarkStays(w: Setting, s: State, t: State, link: nat)
    requires MarkOk(w, s, link) && t.marks == s.marks && t.now >= s.now
    ensures MarkOk(w, t, link)
  {
    var read :| SetFrom(w, s, link, read);
    assert SetFrom(w, t, link, read);
  }

  lemma StillMarked(w: Setting, s: State, link: nat, used: nat)
    requires w.present && MarkOk(w, s, link) && used >= s.now && link < |w.links| && SecondOf(used) < w.links[link].exp
    ensures w.Used(s.marks, link, used)
  {
    var read :| SetFrom(w, s, link, read);
    MarkCoversLink(w.precision, w.links[link].exp, read, s.marks[link].0, used);
  }

  lemma MarkKeepsInv(w: Setting, s: State, c: Call, read: nat, set_: nat)
    requires Inv(w, s) && w.present && c in s.calls && c.stage.Saved? && c.stage.used <= read <= set_ && set_ >= s.now
    ensures Inv(w, Next(w, s, Mark(c, read, set_)))
  {
    var t := Next(w, s, Mark(c, read, set_));
    assert CallOk(w, s, c);
    assert SetFrom(w, t, c.link, read);
    forall i | i in t.marks ensures MarkOk(w, t, i) {
      if i != c.link {
        assert MarkOk(w, s, i);
        var r :| SetFrom(w, s, i, r);
        assert SetFrom(w, t, i, r);
      }
    }
    forall d | d in t.calls ensures CallOk(w, t, d) {
      assert CallOk(w, s, d);
    }
  }

  lemma OtherStepsKeepInv(w: Setting, s: State, step: Step)
    requires Inv(w, s) && !step.Look? && !step.Mark? && !step.LoseMarks?
    ensures Inv(w, Next(w, s, step))
  {
    var t := Next(w, s, step);
    forall i | i in s.marks ensures MarkOk(w, t, i) {
      MarkStays(w, s, t, i);
    }
    forall d | d in t.calls ensures CallOk(w, t, d) {
      if d in s.calls {
        assert CallOk(w, s, d);
      } else if step.Save? {
        assert CallOk(w, s, step.call);
      }
    }
  }

  lemma Idle(w: Setting, s: State)
    requires Inv(w, s)
    ensures Inv(w, s.(tick := s.tick + 1))
  {
    var t := s.(tick := s.tick + 1);
    forall i | i in s.marks ensures MarkOk(w, t, i) {
      MarkStays(w, s, t, i);
    }
    forall d | d in t.calls ensures CallOk(w, t, d) {
      assert CallOk(w, s, d);
    }
  }

  lemma NextKeepsInv(w: Setting, s: State, step: Step)
    requires Inv(w, s) && w.present && !step.LoseMarks?
    ensures Inv(w, Next(w, s, step))
  {
    if step.Look? && step.call in s.calls && step.call.stage.Loaded? && step.used >= s.now {
      LookKeepsInv(w, s, step.call, step.used);
    } else if step.Mark? && step.call in s.calls && step.call.stage.Saved? && step.call.link < |w.links|
              && step.call.stage.used <= step.read <= step.set_ && step.set_ >= s.now {
      MarkKeepsInv(w, s, step.call, step.read, step.set_);
    } else if step.Look? || step.Mark? {
      Idle(w, s);
      hide Inv;
      assert Next(w, s, step) == s.(tick := s.tick + 1);
    } else {
      OtherStepsKeepInv(w, s, step);
    }
  }

  predicate KeepsMarks(steps: seq<Step>) {
    forall k :: 0 <= k < |steps| ==> !steps[k].LoseMarks?
  }

  lemma {:induction false} RunKeepsInv(w: Setting, email: string, steps: seq<Step>)
    requires w.present && KeepsMarks(steps)
    ensures Inv(w, Exec(w, Start(email), steps))
  {
    hide Inv, Next;
    if steps == [] {
      StartInv(w, email);
    } else {
      RunKeepsInv(w, email, steps[..|steps| - 1]);
      NextKeepsInv(w, Exec(w, Start(email), steps[..|steps| - 1]), steps[|steps| - 1]);
    }
  }

  lemma StartInv(w: Setting, email: string)
    ensures Inv(w, Start(email))
  {
  }

  /**
   While the cache keeps its marks, two calls return `true` for one link only if the second looked before the first set
   its mark, or looked in the link's expiry second or later.
   */
  lemma UsesOverlapOrExpire(w: Setting, email: string, steps: seq<Step>, x: Use, y: Use)
    requires w.present && KeepsMarks(steps)
    requires var s := Exec(w, Start(email), steps); x in s.uses && y in s.uses && x.link == y.link && x.markTick < y.markTick
    ensures x.link < |w.links| && (y.lookedTick < x.markTick || SecondOf(y.used) >= w.links[x.link].exp)
  {
    RunKeepsInv(w, email, steps);
    assert Apart(w, x, y.link, y.lookedTick, y.used);
  }

  // ---------------------------------------------------------------- when a link can be used before its expiry second

  /** A step of some call, with the clock before the expiry second of the link. */
  predicate InTime(exp: nat, step: Step) {
    match step
    case Begin(_, expiry) => SecondOf(expiry) < exp
    case Look(_, used) => SecondOf(used) < exp
    case Mark(_, _, set_) => SecondOf(set_) < exp
    case Save(_) => true
    case Throw(_) => true
    case _ => false
  }

  predicate AllInTime(exp: nat, steps: seq<Step>) {
    forall k :: 0 <= k < |steps| ==> InTime(exp, steps[k])
  }

  /** A call that may have looked already: `past` asks for that. */
  predicate UnderWay(s: State, link: nat, past: bool) {
    exists c :: c in s.calls && c.link == link && (past ==> c.stage.Past())
  }

  /** A call has looked and found no mark, or there is none and one may look. */
  predicate Usable(w: Setting, s: State, link: nat) {
    UnderWay(s, link, true) || (link !in s.marks && (UnderWay(s, link, false) || MayBegin(w, s, link, s.now)))
  }

  ghost predicate UsedSince(s: State, t: State, link: nat) {
    exists x :: x in t.uses && x !in s.uses && x.link == link
  }

  /** In time, a link that is not usable stays so, and is not used. */
  lemma StaysUnusable(w: Setting, s: State, step: Step, link: nat)
    requires w.present && Inv(w, s) && link < |w.links| && SecondOf(s.now) < w.links[link].exp
    requires InTime(w.links[link].exp, step) && !Usable(w, s, link)
    ensures var t := Next(w, s, step); !Usable(w, t, link) && !UsedSince(s, t, link) && SecondOf(t.now) < w.links[link].exp
  {
    var t := Next(w, s, step);
    if step.Look? && link in s.marks && step.used >= s.now {
      StillMarked(w, s, link, step.used);
    }
    assert t.email == s.email;
  }

  lemma {:induction false} NeverUsed(w: Setting, s: State, more: seq<Step>, link: nat)
    requires w.present && Inv(w, s) && link < |w.links| && SecondOf(s.now) < w.links[link].exp
    requires AllInTime(w.links[link].exp, more) && !Usable(w, s, link)
    ensures var t := Exec(w, s, more);
            !Usable(w, t, link) && !UsedSince(s, t, link) && SecondOf(t.now) < w.links[link].exp && Inv(w, t)
  {
    hide Inv, Usable, Next;
    if more != [] {
      var init, last := more[..|more| - 1], more[|more| - 1];
      NeverUsed(w, s, init, link);
      assert InTime(w.links[link].exp, last);
      NextKeepsInv(w, Exec(w, s, init), last);
      StaysUnusable(w, Exec(w, s, init), last, link);
    }
  }

  /** How a call of stage `stage` gets done at once. */
  function Finish(c: Call, tick: nat, now: nat): seq<Step> {
    match c.stage
    case Saved(_, _) => [Mark(c, now, now)]
    case Looked(k, used) => [Save(c), Mark(c.(stage := Saved(k, used)), now, now)]
    case Loaded => [Look(c, now), Save(c.(stage := Looked(tick, now))), Mark(c.(stage := Saved(tick, now)), now, now)]
  }

  lemma MarkUses(w: Setting, s: State, c: Call)
    requires c in s.calls && c.stage.Saved? && c.link < |w.links| && c.stage.used <= s.now
    requires forall x :: x in s.uses ==> x.markTick < s.tick
    ensures var t := Next(w, s, Mark(c, s.now, s.now)); UsedSince(s, t, c.link) && s.uses <= t.uses
  {
    var x := Use(c.link, c.stage.tick, c.stage.used, s.tick, s.now);
    assert x in Next(w, s, Mark(c, s.now, s.now)).uses && x !in s.uses;
  }

  lemma FinishUses(w: Setting, s: State, c: Call)
    requires Inv(w, s) && c in s.calls && (c.stage.Loaded? ==> !w.Used(s.marks, c.link, s.now))
    ensures UsedSince(s, Exec(w, s, Finish(c, s.tick, s.now)), c.link)
  {
    assert CallOk(w, s, c);
    match c.stage
    case Saved(_, _) =>
      MarkUses(w, s, c);
      OneStep(w, s, Mark(c, s.now, s.now));
    case Looked(k, used) =>
      var d := c.(stage := Saved(k, used));
      var s1 := Next(w, s, Save(c));
      MarkUses(w, s1, d);
      TwoSteps(w, s, Save(c), Mark(d, s.now, s.now));
    case Loaded =>
      var d, e := c.(stage := Looked(s.tick, s.now)), c.(stage := Saved(s.tick, s.now));
      var s2 := Next(w, Next(w, s, Look(c, s.now)), Save(d));
      MarkUses(w, s2, e);
      TwoSteps(w, s, Look(c, s.now), Save(d));
      ExecAppend(w, s, [Look(c, s.now), Save(d)], [Mark(e, s.now, s.now)]);
      OneStep(w, s2, Mark(e, s.now, s.now));
      assert [Look(c, s.now), Save(d)] + [Mark(e, s.now, s.now)] == Finish(c, s.tick, s.now);
  }

  lemma OneStep(w: Setting, s: State, a: Step)
    ensures Exec(w, s, [a]) == Next(w, s, a)
  {
    assert [a][..0] == [];
  }

  lemma TwoSteps(w: Setting, s: State, a: Step, b: Step)
    ensures Exec(w, s, [a, b]) == Next(w, Next(w, s, a), b)
  {
    assert [a, b][..1] == [a];
    OneStep(w, s, a);
  }

  lemma UsedByCall(w: Setting, s: State, c: Call) returns (more: seq<Step>)
    requires w.present && Inv(w, s) && c in s.calls && (c.stage.Past() || c.link !in s.marks)
    requires c.link < |w.links| && SecondOf(s.now) < w.links[c.link].exp
    ensures AllInTime(w.links[c.link].exp, more) && UsedSince(s, Exec(w, s, more), c.link)
  {
    more := Finish(c, s.tick, s.now);
    FinishUses(w, s, c);
  }

  lemma UsedFromStart(w: Setting, s: State, link: nat) returns (more: seq<Step>)
    requires w.present && Inv(w, s) && MayBegin(w, s, link, s.now) && link !in s.marks && SecondOf(s.now) < w.links[link].exp
    ensures AllInTime(w.links[link].exp, more) && UsedSince(s, Exec(w, s, more), link)
  {
    var begin := Begin(link, s.now);
    var s1 := Next(w, s, begin);
    var c := Call(link, s.tick, s.verified, Loaded);
    NextKeepsInv(w, s, begin);
    var rest := UsedByCall(w, s1, c);
    more := [begin] + rest;
    OneStep(w, s, begin);
    ExecAppend(w, s, [begin], rest);
    assert s1.uses == s.uses;
  }

  /**
   From any moment before a link's expiry second, it can still be used before that second exactly when a call has
   already looked and found no mark, or there is no mark and a call is under way or may begin.
   */
  lemma UsableInTimeIff(w: Setting, email: string, steps: seq<Step>, link: nat)
    requires w.present && KeepsMarks(steps) && link < |w.links|
    requires SecondOf(Exec(w, Start(email), steps).now) < w.links[link].exp
    ensures var s := Exec(w, Start(email), steps);
            (exists more :: AllInTime(w.links[link].exp, more) && UsedSince(s, Exec(w, s, more), link)) <==> Usable(w, s, link)
  {
    var s := Exec(w, Start(email), steps);
    RunKeepsInv(w, email, steps);
    hide Inv, Exec, Next, UsedSince;
    if UnderWay(s, link, true) {
      var c :| c in s.calls && c.link == link && c.stage.Past();
      var more := UsedByCall(w, s, c);
    } else if link !in s.marks && UnderWay(s, link, false) {
      var c :| c in s.calls && c.link == link;
      var more := UsedByCall(w, s, c);
    } else if link !in s.marks && MayBegin(w, s, link, s.now) {
      var more := UsedFromStart(w, s, link);
    } else {
      forall more | AllInTime(w.links[link].exp, more) ensures !UsedSince(s, Exec(w, s, more), link) {
        NeverUsed(w, s, more, link);
      }
    }
  }

  // ---------------------------------------------------------------- one call at a time, and two

  /** The step begins a call while another for the same link is under way. */
  predicate BeginsBeside(s: State, step: Step) {
    step.Begin? && UnderWay(s, step.link, false)
  }

  ghost predicate OneAtATime(w: Setting, email: string, steps: seq<Step>) {
    forall k :: 0 <= k < |steps| ==> !BeginsBeside(Exec(w, Start(email), steps[..k]), steps[k])
  }

  /** At most one call for a link, and it looks after every mark that was set for it. */
  ghost predicate Alone(s: State) {
    && (forall c, d :: c in s.calls && d in s.calls && c.link == d.link ==> c == d)
    && (forall c, x :: c in s.calls && x in s.uses && c.link == x.link ==> x.markTick < if c.stage.Past() then c.stage.tick else s.tick)
    && (forall x :: x in s.uses ==> x.markTick < s.tick)
    && (forall x, y :: x in s.uses && y in s.uses && x.link == y.link && x.markTick < y.markTick ==> x.markTick < y.lookedTick)
  }

  /** One call less, or one in its place that has got further. */
  lemma AloneReplaced(s: State, t: State, c: Call, news: set<Call>)
    requires Alone(s) && t.calls == s.calls - {c} + news && t.uses == s.uses && t.tick == s.tick + 1
    requires news != {} ==> c in s.calls
    requires forall d :: d in news ==> d.link == c.link && d.stage.Past() && d.stage.tick == if c.stage.Past() then c.stage.tick else s.tick
    requires forall d, e :: d in news && e in news ==> d == e
    ensures Alone(t)
  {
  }

  lemma AloneBegun(s: State, t: State, c: Call)
    requires Alone(s) && !UnderWay(s, c.link, false) && c.stage.Loaded?
    requires t.calls == s.calls + {c} && t.uses == s.uses && t.tick == s.tick + 1
    ensures Alone(t)
  {
  }

  lemma AloneMarked(w: Setting, s: State, c: Call, read: nat, set_: nat)
    requires Alone(s)
    ensures Alone(Next(w, s, Mark(c, read, set_)))
  {
  }

  lemma AloneIdle(s: State, t: State)
    requires Alone(s) && t.calls == s.calls && t.uses == s.uses && t.tick == s.tick + 1
    ensures Alone(t)
  {
  }

  lemma AloneStays(w: Setting, s: State, step: Step)
    requires Alone(s) && !BeginsBeside(s, step)
    ensures Alone(Next(w, s, step))
  {
    hide Alone;
    var t := Next(w, s, step);
    if step.Mark? {
      AloneMarked(w, s, step.call, step.read, step.set_);
    } else if t.calls == s.calls {
      AloneIdle(s, t);
    } else {
      match step
      case Begin(i, _) => AloneBegun(s, t, Call(i, s.tick, s.verified, Loaded));
      case Look(c, used) => AloneReplaced(s, t, c, if w.Used(s.marks, c.link, used) then {} else {c.(stage := Looked(s.tick, used))});
      case Save(c) => AloneReplaced(s, t, c, {c.(stage := Saved(c.stage.tick, c.stage.used))});
      case Throw(c) => AloneReplaced(s, t, c, {});
    }
  }

  lemma {:induction false} RunsAlone(w: Setting, email: string, steps: seq<Step>)
    requires OneAtATime(w, email, steps)
    ensures Alone(Exec(w, Start(email), steps))
  {
    if steps != [] {
      var init := steps[..|steps| - 1];
      forall k | 0 <= k < |init| ensures !BeginsBeside(Exec(w, Start(email), init[..k]), init[k]) {
        assert init[..k] == steps[..k];
      }
      RunsAlone(w, email, init);
      hide Alone, Next;
      AloneStays(w, Exec(w, Start(email), init), steps[|steps| - 1]);
    }
  }

  /** Calls that take turns use a link a second time in its expiry second at the earliest. */
  lemma OneAtATimeUsedOnce(w: Setting, email: string, steps: seq<Step>, x: Use, y: Use)
    requires w.present && KeepsMarks(steps) && OneAtATime(w, email, steps)
    requires var s := Exec(w, Start(email), steps); x in s.uses && y in s.uses && x.link == y.link && x.markTick < y.markTick
    ensures x.link < |w.links| && SecondOf(y.used) >= w.links[x.link].exp
  {
    RunsAlone(w, email, steps);
    UsesOverlapOrExpire(w, email, steps, x, y);
  }

  /** Two calls that have saved both return `true`, whichever link they are for. */
  lemma BothSavedBothSucceed(w: Setting, s: State, c: Call, d: Call)
    requires w.present && Inv(w, s) && c in s.calls && d in s.calls && c != d && c.stage.Saved? && d.stage.Saved?
    ensures var t := Exec(w, s, [Mark(c, s.now, s.now), Mark(d, s.now, s.now)]);
            && Use(c.link, c.stage.tick, c.stage.used, s.tick, s.now) in t.uses
            && Use(d.link, d.stage.tick, d.stage.used, s.tick + 1, s.now) in t.uses
  {
    hide Next, Exec, Inv;
    MarkAdds(w, s, c, d);
    var t := Next(w, s, Mark(c, s.now, s.now));
    NextKeepsInv(w, s, Mark(c, s.now, s.now));
    MarkAdds(w, t, d, d);
    TwoSteps(w, s, Mark(c, s.now, s.now), Mark(d, s.now, s.now));
  }

  lemma MarkAdds(w: Setting, s: State, c: Call, d: Call)
    requires Inv(w, s) && c in s.calls && d in s.calls && c.stage.Saved?
    ensures var t := Next(w, s, Mark(c, s.now, s.now));
            && t.uses == s.uses + {Use(c.link, c.stage.tick, c.stage.used, s.tick, s.now)} && t.now == s.now && t.tick == s.tick + 1
            && (d != c ==> d in t.calls)
  {
    assert CallOk(w, s, c);
  }

  /** The first link is the user's own and for the address on record. */
  predicate HasLink(w: Setting, email: string) {
    w.links != [] && w.links[0].id == w.id && w.links[0].email == email && w.links[0].exp > 0
  }

  const FIRST := Call(0, 0, false, Loaded)
  const SECOND := Call(0, 1, false, Loaded)

  function LookedAt(c: Call, tick: nat): Call {
    c.(stage := Looked(tick, 0))
  }

  function SavedAfter(c: Call, tick: nat): Call {
    c.(stage := Saved(tick, 0))
  }

  lemma BothLook(w: Setting, email: string)
    requires HasLink(w, email)
    ensures var s := Start(email);
            Next(w, Next(w, Next(w, Next(w, s, Begin(0, 0)), Begin(0, 0)), Look(FIRST, 0)), Look(SECOND, 0))
            == s.(calls := {LookedAt(FIRST, 2), LookedAt(SECOND, 3)}, tick := 4)
  {
    var s := Start(email);
    var s2 := Next(w, Next(w, s, Begin(0, 0)), Begin(0, 0));
    assert s2 == s.(calls := {FIRST, SECOND}, tick := 2);
    var s3 := Next(w, s2, Look(FIRST, 0));
    assert s3 == s.(calls := {SECOND, LookedAt(FIRST, 2)}, tick := 3);
  }

  lemma BothMark(w: Setting, s: State)
    requires w.links != [] && s.calls == {LookedAt(FIRST, 2), LookedAt(SECOND, 3)} && s.tick == 4 && s.now == 0 && s.uses == {}
    ensures Next(w, Next(w, Next(w, Next(w, s, Save(LookedAt(FIRST, 2))), Save(LookedAt(SECOND, 3))), Mark(SavedAfter(FIRST, 2), 0, 0)), Mark(SavedAfter(SECOND, 3), 0, 0)).uses
            == {Use(0, 2, 0, 6, 0), Use(0, 3, 0, 7, 0)}
  {
    var a, b := SavedAfter(FIRST, 2), SavedAfter(SECOND, 3);
    var s2 := Next(w, Next(w, s, Save(LookedAt(FIRST, 2))), Save(LookedAt(SECOND, 3)));
    assert s2.calls == {a, b} && s2.tick == 6 && s2.uses == {} && s2.now == 0;
    var s3 := Next(w, s2, Mark(a, 0, 0));
    assert s3.calls == {b} && s3.tick == 7 && s3.uses == {Use(0, 2, 0, 6, 0)};
  }

  lemma Begun(w: Setting, email: string, t: State)
    requires t == Start(email).(calls := {LookedAt(FIRST, 2), LookedAt(SECOND, 3)}, tick := 4)
    ensures t.calls == {LookedAt(FIRST, 2), LookedAt(SECOND, 3)} && t.tick == 4 && t.now == 0 && t.uses == {}
  {
  }

  const LOOKS := [Begin(0, 0), Begin(0, 0), Look(FIRST, 0), Look(SECOND, 0)]
  const MARKS := [Save(LookedAt(FIRST, 2)), Save(LookedAt(SECOND, 3)), Mark(SavedAfter(FIRST, 2), 0, 0), Mark(SavedAfter(SECOND, 3), 0, 0)]

  lemma AllAtOnce(exp: nat)
    requires exp > 0
    ensures KeepsMarks(LOOKS + MARKS) && AllInTime(exp, LOOKS + MARKS)
  {
  }

  /** Two calls of one link, at the same instant, long before it expires. */
  lemma OverlappingCallsBothVerify(w: Setting, email: string)
    requires HasLink(w, email)
    ensures KeepsMarks(LOOKS + MARKS) && AllInTime(w.links[0].exp, LOOKS + MARKS)
    ensures Exec(w, Start(email), LOOKS + MARKS).uses == {Use(0, 2, 0, 6, 0), Use(0, 3, 0, 7, 0)}
  {
    AllAtOnce(w.links[0].exp);
    BothLook(w, email);
    hide *;
    var s := Start(email);
    var t := FourSteps(w, s, Begin(0, 0), Begin(0, 0), Look(FIRST, 0), Look(SECOND, 0));
    Begun(w, email, t);
    var u := FourSteps(w, t, Save(LookedAt(FIRST, 2)), Save(LookedAt(SECOND, 3)), Mark(SavedAfter(FIRST, 2), 0, 0), Mark(SavedAfter(SECOND, 3), 0, 0));
    BothMark(w, t);
    ExecAppend(w, s, LOOKS, MARKS);
  }

  lemma FourSteps(w: Setting, s: State, a: Step, b: Step, c: Step, d: Step) returns (t: State)
    ensures t == Next(w, Next(w, Next(w, Next(w, s, a), b), c), d) == Exec(w, s, [a, b, c, d])
  {
    hide Next;
    t := Next(w, Next(w, Next(w, Next(w, s, a), b), c), d);
    TwoSteps(w, s, a, b);
    TwoSteps(w, Next(w, Next(w, s, a), b), c, d);
    ExecAppend(w, s, [a, b], [c, d]);
    assert [a, b] + [c, d] == [a, b, c, d];
  }

  // ---------------------------------------------------------------- which address is verified

  /** Whoever is verified has had a stamp saved for a link to the address on record. */
  predicate Earned(s: State) {
    s.verified ==> s.email in s.proven
  }

  /** The save of a call whose address is no longer the one on record, nor was ever proven. */
  predicate SavesForOther(w: Setting, s: State, step: Step) {
    && step.Save? && step.call in s.calls && step.call.stage.Looked? && step.call.link < |w.links| && !step.call.already
    && w.links[step.call.link].email != s.email && s.email !in s.proven
  }

  /** The address of a verified user becomes one that was never proven, and the stamp stays. */
  predicate KeepsStamp(s: State, step: Step) {
    step.ChangeEmail? && !step.clears && s.verified && step.email !in s.proven
  }

  /**
   A step leaves a user verified for an address nobody proved exactly when it saves for another address, or changes the
   address and lets the stamp stand.
   */
  lemma UnearnedIff(w: Setting, s: State, step: Step)
    requires Earned(s)
    ensures !Earned(Next(w, s, step)) <==> SavesForOther(w, s, step) || KeepsStamp(s, step)
  {
  }

  /** The address changes while a call is under way, or while the user is verified and without clearing that. */
  predicate ChangesBeside(s: State, step: Step) {
    step.ChangeEmail? && (s.calls != {} || (s.verified && !step.clears))
  }

  ghost predicate ChangesApart(w: Setting, email: string, steps: seq<Step>) {
    forall k :: 0 <= k < |steps| ==> !ChangesBeside(Exec(w, Start(email), steps[..k]), steps[k])
  }

  /** Every call under way is for the address on record. */
  predicate ForTheAddress(w: Setting, s: State) {
    Earned(s) && forall c :: c in s.calls ==> c.link < |w.links| && w.links[c.link].email == s.email
  }

  lemma StaysForTheAddress(w: Setting, s: State, step: Step)
    requires ForTheAddress(w, s) && !ChangesBeside(s, step)
    ensures ForTheAddress(w, Next(w, s, step))
  {
    UnearnedIff(w, s, step);
    hide Earned, SavesForOther;
    assert !SavesForOther(w, s, step) by {
      SavesForOwn(w, s, step);
    }
  }

  lemma SavesForOwn(w: Setting, s: State, step: Step)
    requires ForTheAddress(w, s)
    ensures !SavesForOther(w, s, step)
  {
  }

  /**
   With the address changed only between calls, and the stamp cleared by then, nobody is verified for an address that was
   not proven.
   */
  lemma {:induction false} EarnedUnlessChangedBeside(w: Setting, email: string, steps: seq<Step>)
    requires ChangesApart(w, email, steps)
    ensures ForTheAddress(w, Exec(w, Start(email), steps))
  {
    if steps != [] {
      var init := steps[..|steps| - 1];
      forall k | 0 <= k < |init| ensures !ChangesBeside(Exec(w, Start(email), init[..k]), init[k]) {
        assert init[..k] == steps[..k];
      }
      EarnedUnlessChangedBeside(w, email, init);
      hide Next, ForTheAddress;
      StaysForTheAddress(w, Exec(w, Start(email), init), steps[|steps| - 1]);
    }
  }

  /** A new address that a link to the old one verifies, because it was changed while the call was looking for the mark. */
  lemma OtherAddressVerified(w: Setting, email: string, other: string)
    requires w.links != [] && w.links[0].id == w.id && w.links[0].email == email && other != email
    ensures var c := Call(0, 0, false, Loaded);
            var s := Exec(w, Start(email), [Begin(0, 0), Look(c, 0), ChangeEmail(other, true), Save(c.(stage := Looked(1, 0)))]);
            s.verified && s.email == other && other !in s.proven
  {
    var c := Call(0, 0, false, Loaded);
    var t := FourSteps(w, Start(email), Begin(0, 0), Look(c, 0), ChangeEmail(other, true), Save(c.(stage := Looked(1, 0))));
  }

  // ---------------------------------------------------------------- one call as the steps of a run

  /** The objects stand for the state. */
  ghost predicate Mirrors(w: Setting, s: State, user: User, cache: LinkCache)
    reads user, cache
  {
    && user.id == w.id && user.email == s.email && (user.verifiedAt.Some? <==> s.verified)
    && cache.present == w.present && cache.precision == w.precision && cache.marks == s.marks
  }

  /** The turns of a call that nothing overlaps. */
  function Turns(s: State, link: nat, at: Looks): seq<Step> {
    var c := Call(link, s.tick, s.verified, Loaded);
    [Begin(link, at.expiry), Look(c, at.used), Save(c.(stage := Looked(s.tick + 1, at.used))),
     Mark(c.(stage := Saved(s.tick + 1, at.used)), at.read, at.set_)]
  }

  /** No call and no use is newer than the tick. */
  ghost predicate Ticked(s: State) {
    && (forall c :: c in s.calls ==> c.begun < s.tick)
    && forall x :: x in s.uses ==> x.markTick < s.tick
  }

  lemma BeginsOr(w: Setting, s: State, link: nat, expiry: nat)
    requires Ticked(s) && s.now <= expiry
    ensures var c := Call(link, s.tick, s.verified, Loaded); var t := Next(w, s, Begin(link, expiry));
            && c !in s.calls
            && t == if MayBegin(w, s, link, expiry) then s.(calls := s.calls + {c}, now := expiry, tick := s.tick + 1)
                    else s.(tick := s.tick + 1)
  {
  }

  /** Steps of calls that are not under way. */
  lemma NothingDone(w: Setting, s: State, step: Step)
    requires (step.Look? || step.Save? || step.Mark?) && step.call !in s.calls
    ensures Next(w, s, step) == s.(tick := s.tick + 1)
  {
  }

  lemma LooksOr(w: Setting, s: State, others: set<Call>, c: Call, used: nat)
    requires s.calls == others + {c} && c !in others && c.stage.Loaded? && s.now <= used
    ensures Next(w, s, Look(c, used))
            == s.(calls := if w.Used(s.marks, c.link, used) then others else others + {c.(stage := Looked(s.tick, used))},
                  now := used, tick := s.tick + 1)
  {
    assert s.calls - {c} == others && others + {} == others;
  }

  lemma SavesThenMarks(w: Setting, s: State, others: set<Call>, c: Call, read: nat, set_: nat)
    requires s.calls == others + {c} && c !in others && c.stage.Looked? && c.link < |w.links|
    requires c.(stage := Saved(c.stage.tick, c.stage.used)) !in others && c.stage.used <= read <= set_ && s.now <= set_
    ensures var d := c.(stage := Saved(c.stage.tick, c.stage.used)); var t := Next(w, Next(w, s, Save(c)), Mark(d, read, set_));
            && t.email == s.email && t.verified == (s.verified || !c.already)
            && t.uses == s.uses + {Use(c.link, c.stage.tick, c.stage.used, s.tick + 1, set_)}
            && t.marks == if w.present then s.marks[c.link := (set_, MarkTtl(w.links[c.link].exp, SecondOf(read)))] else s.marks
  {
    var d := c.(stage := Saved(c.stage.tick, c.stage.used));
    var s1 := Next(w, s, Save(c));
    assert s1.calls == others + {d};
  }

  ghost predicate CallDone(w: Setting, s: State, t: State, link: nat, at: Looks)
  {
    && t.email == s.email
    && if link < |w.links| && MayBegin(w, s, link, at.expiry) && !w.Used(s.marks, link, at.used)
       then && t.verified && UsedSince(s, t, link)
            && t.marks == if w.present then s.marks[link := (at.set_, MarkTtl(w.links[link].exp, SecondOf(at.read)))] else s.marks
       else t.verified == s.verified && t.uses == s.uses && t.marks == s.marks
  }

  lemma TurnsAre(w: Setting, s: State, link: nat, at: Looks)
    requires link < |w.links| && at.InOrder() && s.now <= at.expiry && Ticked(s)
    ensures CallDone(w, s, Exec(w, s, Turns(s, link, at)), link, at)
  {
    hide Next, Exec, UsedSince;
    var c := Call(link, s.tick, s.verified, Loaded);
    var begin, look := Begin(link, at.expiry), Look(c, at.used);
    var d, e := c.(stage := Looked(s.tick + 1, at.used)), c.(stage := Saved(s.tick + 1, at.used));
    var t := FourSteps(w, s, begin, look, Save(d), Mark(e, at.read, at.set_));
    var s1 := Next(w, s, begin);
    var s2 := Next(w, s1, look);
    BeginsOr(w, s, link, at.expiry);
    assert d !in s.calls && e !in s.calls;
    if !MayBegin(w, s, link, at.expiry) {
      NothingDone(w, s1, look);
    } else {
      LooksOr(w, s1, s.calls, c, at.used);
    }
    if MayBegin(w, s, link, at.expiry) && !w.Used(s.marks, link, at.used) {
      SavesThenMarks(w, s2, s.calls, d, at.read, at.set_);
      NewUse(s, t, Use(link, s.tick + 1, at.used, s.tick + 3, at.set_));
    } else {
      NothingDone(w, s2, Save(d));
      NothingDone(w, Next(w, s2, Save(d)), Mark(e, at.read, at.set_));
    }
  }

  lemma NewUse(s: State, t: State, x: Use)
    requires x in t.uses && Ticked(s) && x.markTick >= s.tick
    ensures UsedSince(s, t, x.link)
  {
    assert x !in s.uses;
  }

  /** A call of `verifyEmailToken` that nothing overlaps is its turns in a row. */
  method VerifyInRun(w: Setting, ghost s: State, user: User, cache: LinkCache, link: nat, at: Looks) returns (ok: bool, ghost t: State)
    requires Mirrors(w, s, user, cache) && at.InOrder() && s.now <= at.expiry
    requires link < |w.links| && w.links[link].jti == link
    requires Ticked(s)
    modifies user, cache
    ensures t == Exec(w, s, Turns(s, link, at)) && Mirrors(w, t, user, cache)
    ensures ok ==> UsedSince(s, t, link)
    ensures !ok ==> t.uses == s.uses
  {
    hide Next, Exec, Turns, UsedSince;
    ok := user.VerifyEmailToken(Some(w.links[link]), cache, at);
    t := Exec(w, s, Turns(s, link, at));
    TurnsAre(w, s, link, at);
  }
}
