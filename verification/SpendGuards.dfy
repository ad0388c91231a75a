/**
 The daily ceiling when every process guards one request at a time (packages/ai/src/AiManager.ts, `_guardSpend`): it
 reads the ledger, checks, makes its request and records it. It does not wait for the increment, so some of its last
 increments, `lag` at most, may not have reached the store, or may be lost, when it guards the next request. Processes
 interleave in any way. All of it happens on one day and under one ceiling, and every read that a process acts on is
 answered.
 */
module SpendGuards {
  import opened SpendLedger
  import opened SpendBounds

  /** How far a process has got: the answer it waits for, and what the answer counted. */
  datatype Stage = Idle | Asking | Answered(reply: Reply) | Informed(seen: set<nat>) | Passed(seen: set<nat>)

  /** `bases` has, for every charge, what the read counted that its request was let through on. */
  datatype Guarded = Guarded(system: System, stages: seq<Stage>, bases: seq<set<nat>>)

  datatype Move =
    | Ask(p: nat)
    | Serve(p: nat)
    | Take(p: nat)
    | Check(p: nat)
    | Spend(p: nat, cost: real)
    | Land(i: nat)
    | Drop(i: nat)              // the increment is lost
    | Hear(reply: Reply)        // what an increment's answer tells a process
    | Miss(reply: Reply)

  /** The charges of `p` that cost anything and are not in `seen`. */
  ghost function Owed(cs: seq<Charge>, p: nat, seen: set<nat>): set<nat> {
    set i | 0 <= i < |cs| && cs[i].proc == p && cs[i].cost > 0.0 && i !in seen
  }

  /** Before the first request: sharing processes whose clocks all show the day. */
  ghost predicate Fresh(g: Guarded, d: Day) {
    && Initial(g.system) && g.bases == [] && |g.stages| == |g.system.procs|
    && forall p :: 0 <= p < |g.stages| ==> g.stages[p] == Idle && g.system.procs[p].clock == d && g.system.procs[p].local.shared
  }

  ghost predicate Enabled(g: Guarded, lag: nat, move: Move) {
    match move
    case Ask(p) => p < |g.stages| && g.stages[p].Idle? && |Owed(g.system.charges, p, g.system.applied)| <= lag
    case Serve(p) => p < |g.stages| && g.stages[p].Asking?
    case Take(p) => p < |g.stages| && g.stages[p].Answered? && g.stages[p].reply.ReadReply?
    case Check(p) => p < |g.stages| && g.stages[p].Informed?
    case Spend(p, cost) => p < |g.stages| && g.stages[p].Passed? && cost >= 0.0
    case Land(_) => true
    case Drop(_) => true
    case Hear(r) => r.IncrementReply?
    case Miss(r) => r.IncrementReply?
  }

  /** `p` passes the check of the day. */
  predicate Passes(s: System, p: nat, limit: real)
    requires p < |s.procs|
  {
    !DailyCeilingReached(RollProcess(s.procs[p], |s.charges|).local, limit)
  }

  /** The step of the ledger that a move is. */
  ghost function StepOf(g: Guarded, d: Day, limit: real, lag: nat, move: Move): Step
    requires Enabled(g, lag, move)
  {
    match move
    case Ask(p) => StartRead(p)
    case Serve(p) => ServeRead(Query(p, d))
    case Take(p) => Settle(g.stages[p].reply)
    case Check(p) => CheckDay(p, limit)
    case Spend(p, cost) => Record(p, cost)
    case Land(i) => Apply(i)
    case Drop(i) => LoseIncrement(i)
    case Hear(r) => Settle(r)
    case Miss(r) => LoseReply(r)
  }

  ghost function StagesAfter(g: Guarded, d: Day, limit: real, lag: nat, move: Move): (stages: seq<Stage>)
    requires |g.stages| == |g.system.procs| && Enabled(g, lag, move)
    ensures |stages| == |g.stages|
  {
    match move
    case Ask(p) => g.stages[p := Asking]
    case Serve(p) => g.stages[p := Answered(ReadAnswer(g.system, p, d))]
    case Take(p) => g.stages[p := Informed(g.stages[p].reply.seen)]
    case Check(p) => g.stages[p := if Passes(g.system, p, limit) then Passed(g.stages[p].seen) else Idle]
    case Spend(p, _) => g.stages[p := Idle]
    case _ => g.stages
  }

  ghost function Moved(g: Guarded, d: Day, limit: real, lag: nat, move: Move): Guarded
    requires |g.stages| == |g.system.procs| && Enabled(g, lag, move)
  {
    Guarded(Next(g.system, StepOf(g, d, limit, lag, move)),
            StagesAfter(g, d, limit, lag, move),
            if move.Spend? then g.bases + [g.stages[move.p].seen] else g.bases)
  }

  /** A move that is not enabled changes nothing. */
  ghost function Run(g: Guarded, d: Day, limit: real, lag: nat, moves: seq<Move>): Guarded {
    if moves == [] then g
    else
      var before, last := Run(g, d, limit, lag, moves[..|moves| - 1]), moves[|moves| - 1];
      if |before.stages| == |before.system.procs| && Enabled(before, lag, last) then Moved(before, d, limit, lag, last) else before
  }

  // ---------------------------------------------------------------- what every guarded run keeps

  /** At most `lag` of `p`'s charges that cost anything are not in `seen`. */
  ghost predicate Counts(cs: seq<Charge>, p: nat, seen: set<nat>, lag: nat) {
    |Owed(cs, p, seen)| <= lag
  }

  ghost predicate StageOk(s: System, st: Stage, d: Day, limit: real, lag: nat, p: nat)
    requires p < |s.procs|
  {
    var q := s.procs[p];
    && q.clock == d && q.local.shared && (!st.Idle? ==> q.local.day == d)
    && match st
       case Idle => true
       case Asking => Counts(s.charges, p, s.applied, lag) && Query(p, d) in s.queries
       case Answered(r) =>
         && r.ReadReply? && r.proc == p && r.day == d && r in s.replies
         && Counts(s.charges, p, r.seen, lag) && r.seen <= s.applied
       case Informed(seen) => Counts(s.charges, p, seen, lag) && seen <= s.applied && q.basis == Basis(seen)
       case Passed(seen) => Counts(s.charges, p, seen, lag) && seen <= s.applied && Admission(d, limit, seen) in s.admissions
  }

  ghost predicate Comparable(a: set<nat>, b: set<nat>) {
    a <= b || b <= a
  }

  predicate Saw(st: Stage, seen: set<nat>) {
    match st
    case Answered(r) => r.ReadReply? && r.seen == seen
    case Informed(s) => s == seen
    case Passed(s) => s == seen
    case _ => false
  }

  /** What a read counted that a charge rests on or a process may yet act on. */
  ghost predicate Read(g: Guarded, seen: set<nat>) {
    seen in g.bases || exists p :: 0 <= p < |g.stages| && Saw(g.stages[p], seen)
  }

  /** The reads are a chain: each counted all that an earlier one did. */
  ghost predicate Chain(g: Guarded) {
    && (forall a, b :: Read(g, a) && Read(g, b) ==> Comparable(a, b))
    && (forall a :: Read(g, a) ==> a <= g.system.applied)
  }

  /** Charge `j` rests on a read that counted all but `lag` of its process's charges before it. */
  ghost predicate RestsOn(cs: seq<Charge>, bases: seq<set<nat>>, lag: nat, j: nat)
    requires j < |cs| == |bases|
  {
    Counts(cs[..j], cs[j].proc, bases[j], lag)
  }

  ghost predicate BasesOk(g: Guarded, d: Day, limit: real, lag: nat) {
    var cs := g.system.charges;
    && |g.bases| == |cs|
    && (forall i :: 0 <= i < |cs| ==>
                      cs[i].day == d && cs[i].proc < |g.stages| && Admission(d, limit, g.bases[i]) in g.system.admissions)
    && forall j :: 0 <= j < |cs| ==> RestsOn(cs, g.bases, lag, j)
  }

  ghost predicate StagesOk(g: Guarded, d: Day, limit: real, lag: nat) {
    && |g.stages| == |g.system.procs|
    && forall p :: 0 <= p < |g.stages| ==> StageOk(g.system, g.stages[p], d, limit, lag, p)
  }

  ghost predicate GuardInv(g: Guarded, d: Day, limit: real, lag: nat) {
    Reachable(g.system) && StagesOk(g, d, limit, lag) && BasesOk(g, d, limit, lag) && Chain(g)
  }

  lemma FreshInv(g: Guarded, d: Day, limit: real, lag: nat)
    requires Fresh(g, d)
    ensures GuardInv(g, d, limit, lag)
  {
    assert g.system == Exec(g.system, []);
  }

  /** A process owes less of what was applied later. */
  lemma CountsMore(cs: seq<Charge>, p: nat, seen: set<nat>, more: set<nat>, lag: nat)
    requires Counts(cs, p, seen, lag) && seen <= more
    ensures Counts(cs, p, more, lag)
  {
    Fewer(Owed(cs, p, more), Owed(cs, p, seen));
  }

  lemma Fewer(a: set<nat>, b: set<nat>)
    requires a <= b
    ensures |a| <= |b|
  {
    if a != b {
      var x :| x in b && x !in a;
      Fewer(a, b - {x});
    }
  }

  /** Charges of other processes make no difference to it. */
  lemma CountsOthers(cs: seq<Charge>, more: seq<Charge>, p: nat, seen: set<nat>, lag: nat)
    requires Counts(cs, p, seen, lag) && |cs| <= |more| && more[..|cs|] == cs
    requires forall i :: |cs| <= i < |more| ==> more[i].proc != p
    ensures Counts(more, p, seen, lag)
  {
    assert forall i :: 0 <= i < |cs| ==> more[i] == cs[i];
    assert Owed(more, p, seen) == Owed(cs, p, seen);
  }

  /** A process that a step passes by: its entry stays, the sets grow, no charge of its own is added. */
  ghost predicate PassedBy(s: System, t: System, st: Stage, p: nat)
    requires p < |s.procs| && p < |t.procs|
  {
    && t.procs[p] == s.procs[p]
    && |s.charges| <= |t.charges| && t.charges[..|s.charges|] == s.charges
    && (forall i :: |s.charges| <= i < |t.charges| ==> t.charges[i].proc != p)
    && s.applied <= t.applied && s.admissions <= t.admissions
    && (forall d :: Query(p, d) in s.queries ==> Query(p, d) in t.queries)
    && (st.Answered? && st.reply in s.replies ==> st.reply in t.replies)
  }

  lemma PassedByStays(s: System, t: System, st: Stage, d: Day, limit: real, lag: nat, p: nat)
    requires p < |s.procs| && p < |t.procs| && StageOk(s, st, d, limit, lag, p) && PassedBy(s, t, st, p)
    ensures StageOk(t, st, d, limit, lag, p)
  {
    hide Counts;
    match st
    case Idle =>
    case Asking =>
      CountsMore(s.charges, p, s.applied, t.applied, lag);
      CountsOthers(s.charges, t.charges, p, t.applied, lag);
    case Answered(r) => CountsOthers(s.charges, t.charges, p, r.seen, lag);
    case Informed(seen) => CountsOthers(s.charges, t.charges, p, seen, lag);
    case Passed(seen) => CountsOthers(s.charges, t.charges, p, seen, lag);
  }

  /** A step of `p` that passes the others by and leaves `p` where it should be. */
  lemma OnlyOneMoves(g: Guarded, d: Day, limit: real, lag: nat, p: nat, h: Guarded)
    requires StagesOk(g, d, limit, lag) && p < |g.stages| && OthersPassedBy(g, h, p)
    requires StageOk(h.system, h.stages[p], d, limit, lag, p)
    ensures StagesOk(h, d, limit, lag)
  {
    hide StageOk, PassedBy;
    forall k | 0 <= k < |h.stages| ensures StageOk(h.system, h.stages[k], d, limit, lag, k) {
      if k != p {
        PassedByStays(g.system, h.system, g.stages[k], d, limit, lag, k);
      }
    }
  }

  ghost predicate OthersPassedBy(g: Guarded, h: Guarded, p: nat)
    requires |g.stages| == |g.system.procs|
  {
    && |h.system.procs| == |g.system.procs| && |h.stages| == |g.stages|
    && forall k :: 0 <= k < |g.stages| && k != p ==>
                     h.stages[k] == g.stages[k] && PassedBy(g.system, h.system, g.stages[k], k)
  }

  /** What a move of process `p` has to show. */
  ghost predicate MovesOne(g: Guarded, d: Day, limit: real, lag: nat, p: nat, h: Guarded)
    requires |g.stages| == |g.system.procs| && p < |g.stages|
  {
    OthersPassedBy(g, h, p) && StageOk(h.system, h.stages[p], d, limit, lag, p)
  }

  lemma AskMoves(g: Guarded, d: Day, limit: real, lag: nat, p: nat)
    requires GuardInv(g, d, limit, lag) && Enabled(g, lag, Ask(p))
    ensures MovesOne(g, d, limit, lag, p, Moved(g, d, limit, lag, Ask(p)))
  {
    hide Owed;
    assert StageOk(g.system, g.stages[p], d, limit, lag, p);
  }

  lemma ServeMoves(g: Guarded, d: Day, limit: real, lag: nat, p: nat)
    requires GuardInv(g, d, limit, lag) && Enabled(g, lag, Serve(p))
    ensures MovesOne(g, d, limit, lag, p, Moved(g, d, limit, lag, Serve(p)))
  {
    hide Counts, Owed, Chain;
    assert StageOk(g.system, g.stages[p], d, limit, lag, p);
    AllAppliedOn(g, d, limit, lag);
  }

  /** Every applied charge is of the day. */
  lemma AllAppliedOn(g: Guarded, d: Day, limit: real, lag: nat)
    requires Reachable(g.system) && BasesOk(g, d, limit, lag)
    ensures AppliedOn(g.system, d) == g.system.applied
  {
    ReachableInv(g.system);
  }

  lemma TakeMoves(g: Guarded, d: Day, limit: real, lag: nat, p: nat)
    requires GuardInv(g, d, limit, lag) && Enabled(g, lag, Take(p))
    ensures MovesOne(g, d, limit, lag, p, Moved(g, d, limit, lag, Take(p)))
  {
    hide Counts, Owed, Chain, BasesOk;
    assert StageOk(g.system, g.stages[p], d, limit, lag, p);
    forall k | 0 <= k < |g.stages| && k != p ensures StageOk(g.system, g.stages[k], d, limit, lag, k) {
    }
  }

  lemma CheckMoves(g: Guarded, d: Day, limit: real, lag: nat, p: nat)
    requires GuardInv(g, d, limit, lag) && Enabled(g, lag, Check(p)) && limit > 0.0
    ensures MovesOne(g, d, limit, lag, p, Moved(g, d, limit, lag, Check(p)))
  {
    hide Counts, Owed, Chain, BasesOk;
    assert StageOk(g.system, g.stages[p], d, limit, lag, p);
  }

  lemma SpendMoves(g: Guarded, d: Day, limit: real, lag: nat, p: nat, cost: real)
    requires GuardInv(g, d, limit, lag) && Enabled(g, lag, Spend(p, cost))
    ensures MovesOne(g, d, limit, lag, p, Moved(g, d, limit, lag, Spend(p, cost)))
    ensures Moved(g, d, limit, lag, Spend(p, cost)).system.charges == g.system.charges + [Charge(p, d, cost, cost > 0.0)]
  {
    hide Counts, Owed, Chain, BasesOk;
    assert StageOk(g.system, g.stages[p], d, limit, lag, p);
  }

  /** An increment that lands or is lost, and an answer that is lost, pass every process by. */
  lemma AllPassedBy(g: Guarded, d: Day, limit: real, lag: nat, move: Move, k: nat)
    requires Enabled(g, lag, move) && (move.Miss? || move.Land? || move.Drop?) && k < |g.stages| == |g.system.procs|
    requires StageOk(g.system, g.stages[k], d, limit, lag, k)
    ensures var h := Moved(g, d, limit, lag, move);
            h.stages == g.stages && |h.system.procs| == |g.system.procs| && PassedBy(g.system, h.system, g.stages[k], k)
  {
    hide Counts, Owed;
  }

  /** An answer heard raises a view and changes nothing else of a process. */
  lemma HearStays(g: Guarded, d: Day, limit: real, lag: nat, move: Move, k: nat)
    requires Enabled(g, lag, move) && move.Hear? && k < |g.stages| == |g.system.procs|
    requires StageOk(g.system, g.stages[k], d, limit, lag, k)
    ensures var h := Moved(g, d, limit, lag, move);
            && h.stages == g.stages && |h.system.procs| == |g.system.procs|
            && StageOk(h.system, h.stages[k], d, limit, lag, k)
  {
    hide Counts, Owed;
  }

  lemma NoneMoves(g: Guarded, d: Day, limit: real, lag: nat, move: Move)
    requires GuardInv(g, d, limit, lag) && Enabled(g, lag, move) && (move.Hear? || move.Miss? || move.Land? || move.Drop?)
    ensures StagesOk(Moved(g, d, limit, lag, move), d, limit, lag)
  {
    hide StageOk, Chain, BasesOk, Moved, PassedBy, Reachable, Enabled;
    var h := Moved(g, d, limit, lag, move);
    forall k | 0 <= k < |g.stages|
      ensures h.stages == g.stages && |h.system.procs| == |g.system.procs| && StageOk(h.system, h.stages[k], d, limit, lag, k)
    {
      if move.Hear? {
        HearStays(g, d, limit, lag, move, k);
      } else {
        AllPassedBy(g, d, limit, lag, move, k);
        PassedByStays(g.system, h.system, g.stages[k], d, limit, lag, k);
      }
    }
    SameSize(g, d, limit, lag, move);
  }

  lemma SameSize(g: Guarded, d: Day, limit: real, lag: nat, move: Move)
    requires Enabled(g, lag, move) && |g.stages| == |g.system.procs|
    ensures var h := Moved(g, d, limit, lag, move); |h.stages| == |g.stages| && |h.system.procs| == |g.system.procs|
  {
  }

  lemma StagesKept(g: Guarded, d: Day, limit: real, lag: nat, move: Move)
    requires GuardInv(g, d, limit, lag) && Enabled(g, lag, move) && limit > 0.0
    ensures StagesOk(Moved(g, d, limit, lag, move), d, limit, lag)
  {
    hide StageOk, OthersPassedBy, Next, Reachable, BasesOk, Chain;
    var h := Moved(g, d, limit, lag, move);
    match move
    case Ask(p) => AskMoves(g, d, limit, lag, p); OnlyOneMoves(g, d, limit, lag, p, h);
    case Serve(p) => ServeMoves(g, d, limit, lag, p); OnlyOneMoves(g, d, limit, lag, p, h);
    case Take(p) => TakeMoves(g, d, limit, lag, p); OnlyOneMoves(g, d, limit, lag, p, h);
    case Check(p) => CheckMoves(g, d, limit, lag, p); OnlyOneMoves(g, d, limit, lag, p, h);
    case Spend(p, cost) => SpendMoves(g, d, limit, lag, p, cost); OnlyOneMoves(g, d, limit, lag, p, h);
    case _ => NoneMoves(g, d, limit, lag, move);
  }

  lemma StepFacts(s: System, step: Step)
    requires !step.Record?
    ensures Next(s, step).charges == s.charges && s.admissions <= Next(s, step).admissions
  {
  }

  lemma SpendFacts(g: Guarded, d: Day, limit: real, lag: nat, p: nat, cost: real)
    requires StagesOk(g, d, limit, lag) && Enabled(g, lag, Spend(p, cost))
    ensures var seen := g.stages[p].seen;
            && Moved(g, d, limit, lag, Spend(p, cost)).system.admissions == g.system.admissions
            && Counts(g.system.charges, p, seen, lag) && Admission(d, limit, seen) in g.system.admissions
  {
    hide Counts;
    assert StageOk(g.system, g.stages[p], d, limit, lag, p);
  }

  lemma RestsStill(cs: seq<Charge>, bases: seq<set<nat>>, c: Charge, base: set<nat>, lag: nat, j: nat)
    requires j < |cs| == |bases| && RestsOn(cs, bases, lag, j)
    ensures RestsOn(cs + [c], bases + [base], lag, j)
  {
    assert (cs + [c])[..j] == cs[..j];
  }

  lemma RestsNow(cs: seq<Charge>, bases: seq<set<nat>>, c: Charge, base: set<nat>, lag: nat)
    requires |cs| == |bases| && Counts(cs, c.proc, base, lag)
    ensures RestsOn(cs + [c], bases + [base], lag, |cs|)
  {
    assert (cs + [c])[..|cs|] == cs;
  }

  lemma BasesKept(g: Guarded, d: Day, limit: real, lag: nat, move: Move)
    requires GuardInv(g, d, limit, lag) && Enabled(g, lag, move)
    ensures BasesOk(Moved(g, d, limit, lag, move), d, limit, lag)
  {
    hide Next, Reachable, StageOk, Chain, StagesAfter, RestsOn, Counts, MovesOne;
    if move.Spend? {
      SpendMoves(g, d, limit, lag, move.p, move.cost);
      SpendFacts(g, d, limit, lag, move.p, move.cost);
      var cs, c, base := g.system.charges, Charge(move.p, d, move.cost, move.cost > 0.0), g.stages[move.p].seen;
      forall j | 0 <= j < |cs| ensures RestsOn(cs + [c], g.bases + [base], lag, j) {
        RestsStill(cs, g.bases, c, base, lag, j);
      }
      RestsNow(cs, g.bases, c, base, lag);
    } else {
      StepFacts(g.system, StepOf(g, d, limit, lag, move));
    }
  }

  /** Only serving a read adds one, and it counts everything applied. */
  lemma ReadsOf(g: Guarded, d: Day, limit: real, lag: nat, move: Move, seen: set<nat>)
    requires GuardInv(g, d, limit, lag) && Enabled(g, lag, move) && Read(Moved(g, d, limit, lag, move), seen)
    ensures Read(g, seen) || seen == g.system.applied
  {
    hide Next, Reachable, StageOk, Chain, Owed;
    var h := Moved(g, d, limit, lag, move);
    AllAppliedOn(g, d, limit, lag);
    hide BasesOk;
    if seen in h.bases {
      if seen !in g.bases {
        assert Saw(g.stages[move.p], seen);
      }
    } else {
      var p :| 0 <= p < |h.stages| && Saw(h.stages[p], seen);
      assert Saw(g.stages[p], seen) || seen == g.system.applied;
    }
  }

  lemma AppliedGrows(s: System, step: Step)
    ensures s.applied <= Next(s, step).applied
  {
  }

  lemma ChainKept(g: Guarded, d: Day, limit: real, lag: nat, move: Move)
    requires GuardInv(g, d, limit, lag) && Enabled(g, lag, move)
    ensures Chain(Moved(g, d, limit, lag, move))
  {
    hide Next, Reachable, StageOk, BasesOk, Read, StepOf, StagesAfter, Enabled;
    var h := Moved(g, d, limit, lag, move);
    AppliedGrows(g.system, StepOf(g, d, limit, lag, move));
    forall a | Read(h, a) ensures Read(g, a) || a == g.system.applied {
      ReadsOf(g, d, limit, lag, move, a);
    }
  }

  lemma MovedKeepsInv(g: Guarded, d: Day, limit: real, lag: nat, move: Move)
    requires GuardInv(g, d, limit, lag) && Enabled(g, lag, move) && limit > 0.0
    ensures GuardInv(Moved(g, d, limit, lag, move), d, limit, lag)
  {
    hide Next, Reachable, BasesOk, Chain, StageOk, StepOf, StagesAfter, Read, Enabled;
    ReachableNext(g.system, StepOf(g, d, limit, lag, move));
    StagesKept(g, d, limit, lag, move);
    BasesKept(g, d, limit, lag, move);
    ChainKept(g, d, limit, lag, move);
  }

  lemma {:induction false} RunKeepsInv(g: Guarded, d: Day, limit: real, lag: nat, moves: seq<Move>)
    requires GuardInv(g, d, limit, lag) && limit > 0.0
    ensures GuardInv(Run(g, d, limit, lag, moves), d, limit, lag)
    ensures |Run(g, d, limit, lag, moves).stages| == |g.stages|
  {
    hide Reachable, BasesOk, Chain, StageOk, Next, Enabled, StepOf;
    if moves != [] {
      var before, last := Run(g, d, limit, lag, moves[..|moves| - 1]), moves[|moves| - 1];
      RunKeepsInv(g, d, limit, lag, moves[..|moves| - 1]);
      if Enabled(before, lag, last) {
        MovedKeepsInv(before, d, limit, lag, last);
      }
    }
  }

  // ---------------------------------------------------------------- the overshoot

  /** The charges in `s` that cost anything. */
  ghost function Paid(cs: seq<Charge>, s: set<nat>): set<nat> {
    set i | 0 <= i < |cs| && i in s && cs[i].cost > 0.0
  }

  lemma LastPaid(cs: seq<Charge>, s: set<nat>)
    requires cs != []
    ensures var last := |cs| - 1;
            |Paid(cs, s)| == |Paid(cs[..last], s)| + if last in s && cs[last].cost > 0.0 then 1 else 0
  {
    var last := |cs| - 1;
    if last in s && cs[last].cost > 0.0 {
      assert Paid(cs, s) == Paid(cs[..last], s) + {last};
    } else {
      assert Paid(cs, s) == Paid(cs[..last], s);
    }
  }

  lemma LastCosts(cs: seq<Charge>, d: Day, s: set<nat>, dearest: real)
    requires NonNegative(cs) && cs != [] && cs[|cs| - 1].cost <= dearest && dearest >= 0.0
    ensures var last := |cs| - 1;
            CostIn(cs, d, s) <= CostIn(cs[..last], d, s) + if last in s && cs[last].cost > 0.0 then dearest else 0.0
    ensures NonNegative(cs[..|cs| - 1])
  {
  }

  lemma {:induction false} PaidCosts(cs: seq<Charge>, d: Day, s: set<nat>, dearest: real)
    requires NonNegative(cs) && dearest >= 0.0
    requires forall i :: 0 <= i < |cs| ==> cs[i].cost <= dearest
    ensures CostIn(cs, d, s) <= |Paid(cs, s)| as real * dearest
  {
    hide *;
    if cs == [] {
      NothingCosts(cs, d, s, dearest);
    } else {
      var last := |cs| - 1;
      LastPaid(cs, s);
      LastCosts(cs, d, s, dearest);
      PaidCosts(cs[..last], d, s, dearest);
      OneMore(|Paid(cs[..last], s)|, dearest);
    }
  }

  lemma NothingCosts(cs: seq<Charge>, d: Day, s: set<nat>, dearest: real)
    requires cs == [] && dearest >= 0.0
    ensures CostIn(cs, d, s) <= |Paid(cs, s)| as real * dearest
  {
  }

  lemma OneMore(n: nat, dearest: real)
    ensures (n + 1) as real * dearest == n as real * dearest + dearest
  {
  }

  ghost function OfProcess(cs: seq<Charge>, s: set<nat>, p: nat): set<nat>
    requires forall i :: i in s ==> i < |cs|
  {
    set i | i in s && cs[i].proc == p
  }

  /** The charges of the first `n` processes. */
  ghost function OfFirst(cs: seq<Charge>, s: set<nat>, n: nat): set<nat>
    requires forall i :: i in s ==> i < |cs|
  {
    set i | i in s && cs[i].proc < n
  }

  /** With at most `k` charges in `s` for each of `n` processes there are at most `n * k`. */
  lemma {:induction false} EachAtMost(cs: seq<Charge>, s: set<nat>, n: nat, k: nat)
    requires forall i :: i in s ==> i < |cs|
    requires forall p: nat :: p < n ==> |OfProcess(cs, s, p)| <= k
    ensures |OfFirst(cs, s, n)| <= n * k
  {
    if n == 0 {
      assert OfFirst(cs, s, 0) == {};
    } else {
      EachAtMost(cs, s, n - 1, k);
      assert OfFirst(cs, s, n) == OfFirst(cs, s, n - 1) + OfProcess(cs, s, n - 1);
      assert n * k == (n - 1) * k + k;
    }
  }

  /** A chain that is not empty has an element that holds all the others. */
  lemma {:induction false} LargestOf(bases: seq<set<nat>>) returns (m: nat)
    requires bases != []
    requires forall i, j :: 0 <= i < |bases| && 0 <= j < |bases| ==> Comparable(bases[i], bases[j])
    ensures m < |bases| && forall i :: 0 <= i < |bases| ==> bases[i] <= bases[m]
  {
    var last := |bases| - 1;
    if last == 0 {
      m := 0;
    } else {
      m := LargestOf(bases[..last]);
      assert Comparable(bases[m], bases[last]);
      if bases[m] <= bases[last] {
        m := last;
      }
    }
  }

  lemma {:induction false} Newest(s: set<nat>) returns (j: nat)
    requires s != {}
    ensures j in s && forall i :: i in s ==> i <= j
  {
    var x :| x in s;
    if s == {x} {
      j := x;
    } else {
      j := Newest(s - {x});
      if j < x {
        j := x;
      }
      assert forall i :: i in s ==> i == x || i in s - {x};
    }
  }

  /** After the read that counted most, a process has paid for at most `lag + 1` requests. */
  lemma OwedAfterLargest(g: Guarded, d: Day, limit: real, lag: nat, m: nat, p: nat)
    requires BasesOk(g, d, limit, lag) && m < |g.bases|
    requires forall i :: 0 <= i < |g.bases| ==> g.bases[i] <= g.bases[m]
    ensures |Owed(g.system.charges, p, g.bases[m])| <= lag + 1
  {
    var cs := g.system.charges;
    var owed := Owed(cs, p, g.bases[m]);
    if owed != {} {
      var j := Newest(owed);
      assert RestsOn(cs, g.bases, lag, j);
      assert owed - {j} <= Owed(cs[..j], p, g.bases[j]);
      Fewer(owed - {j}, Owed(cs[..j], p, g.bases[j]));
    }
  }

  /** So there are at most `lag + 1` for each process. */
  lemma PaidAfterLargest(g: Guarded, d: Day, limit: real, lag: nat, m: nat)
    requires BasesOk(g, d, limit, lag) && m < |g.bases|
    requires forall i :: 0 <= i < |g.bases| ==> g.bases[i] <= g.bases[m]
    ensures |Paid(g.system.charges, All(g.system.charges) - g.bases[m])| <= |g.stages| * (lag + 1)
  {
    var cs := g.system.charges;
    var paid := Paid(cs, All(cs) - g.bases[m]);
    forall p: nat | p < |g.stages| ensures |OfProcess(cs, paid, p)| <= lag + 1 {
      OwedAfterLargest(g, d, limit, lag, m, p);
      assert OfProcess(cs, paid, p) == Owed(cs, p, g.bases[m]);
    }
    EachAtMost(cs, paid, |g.stages|, lag + 1);
    assert OfFirst(cs, paid, |g.stages|) == paid;
  }

  lemma BasesCompare(g: Guarded)
    requires Chain(g)
    ensures forall i, j :: 0 <= i < |g.bases| && 0 <= j < |g.bases| ==> Comparable(g.bases[i], g.bases[j])
  {
    forall i, j | 0 <= i < |g.bases| && 0 <= j < |g.bases| ensures Comparable(g.bases[i], g.bases[j]) {
      assert Read(g, g.bases[i]) && Read(g, g.bases[j]);
    }
  }

  /**
   The daily ceiling's overshoot in a fleet: whatever the processes do beside each other, the day totals less than the
   ceiling plus `lag + 1` requests for each process, and rounding.
   */
  lemma LagRequestsEach(g: Guarded, d: Day, limit: real, lag: nat, moves: seq<Move>, dearest: real)
    requires Fresh(g, d) && limit > 0.0 && dearest >= 0.0
    requires var cs := Run(g, d, limit, lag, moves).system.charges; forall i :: 0 <= i < |cs| ==> cs[i].cost <= dearest
    ensures var s := Run(g, d, limit, lag, moves).system;
            Total(s.charges, d) < limit + (|g.stages| * (lag + 1)) as real * dearest + Rounding(s, d, All(s.charges))
  {
    hide *;
    FreshInv(g, d, limit, lag);
    RunKeepsInv(g, d, limit, lag, moves);
    OvershootAt(Run(g, d, limit, lag, moves), d, limit, lag, dearest);
  }

  /** One request for each process when each waits for its increment before it guards the next. */
  lemma OneRequestEach(g: Guarded, d: Day, limit: real, moves: seq<Move>, dearest: real)
    requires Fresh(g, d) && limit > 0.0 && dearest >= 0.0
    requires var cs := Run(g, d, limit, 0, moves).system.charges; forall i :: 0 <= i < |cs| ==> cs[i].cost <= dearest
    ensures var s := Run(g, d, limit, 0, moves).system;
            Total(s.charges, d) < limit + |g.stages| as real * dearest + Rounding(s, d, All(s.charges))
  {
    hide *;
    LagRequestsEach(g, d, limit, 0, moves, dearest);
    assert |g.stages| * (0 + 1) == |g.stages|;
  }

  lemma OvershootAt(h: Guarded, d: Day, limit: real, lag: nat, dearest: real)
    requires GuardInv(h, d, limit, lag) && limit > 0.0 && dearest >= 0.0
    requires forall i :: 0 <= i < |h.system.charges| ==> h.system.charges[i].cost <= dearest
    ensures Total(h.system.charges, d)
            < limit + (|h.stages| * (lag + 1)) as real * dearest + Rounding(h.system, d, All(h.system.charges))
  {
    hide *;
    var s := h.system;
    var most := |h.stages| * (lag + 1);
    GuardFacts(h, d, limit, lag);
    if s.charges == [] {
      EmptyTotal(s, d);
      AtMost(0, most, dearest);
    } else {
      BasesCompare(h);
      var m := LargestOf(h.bases);
      var base := h.bases[m];
      var unseen := All(s.charges) - base;
      PaidAfterLargest(h, d, limit, lag, m);
      CeilingOvershoot(s, Admission(d, limit, base));
      PaidCosts(s.charges, d, unseen, dearest);
      AtMost(|Paid(s.charges, unseen)|, most, dearest);
      RoundingGrows(s, d, base);
      assert CostIn(s.charges, d, unseen) <= most as real * dearest;
      assert Total(s.charges, d) < limit + CostIn(s.charges, d, unseen) + Rounding(s, d, base);
    }
  }

  lemma GuardFacts(h: Guarded, d: Day, limit: real, lag: nat)
    requires GuardInv(h, d, limit, lag)
    ensures Reachable(h.system) && BasesOk(h, d, limit, lag) && Chain(h) && NonNegative(h.system.charges)
    ensures |h.bases| == |h.system.charges| && forall i :: 0 <= i < |h.bases| ==> Admission(d, limit, h.bases[i]) in h.system.admissions
    ensures forall i :: 0 <= i < |h.bases| ==> h.bases[i] <= All(h.system.charges)
  {
    ReachableInv(h.system);
    forall i | 0 <= i < |h.bases| ensures h.bases[i] <= All(h.system.charges) {
      assert Read(h, h.bases[i]);
    }
  }

  lemma EmptyTotal(s: System, d: Day)
    requires s.charges == []
    ensures Total(s.charges, d) == 0.0 == Rounding(s, d, All(s.charges))
  {
  }

  lemma AtMost(n: nat, m: nat, dearest: real)
    requires n <= m && dearest >= 0.0
    ensures n as real * dearest <= m as real * dearest
    ensures n == 0 ==> n as real * dearest == 0.0
  {
  }

  lemma RoundingGrows(s: System, d: Day, seen: set<nat>)
    requires NonNegative(s.charges) && seen <= All(s.charges)
    ensures Rounding(s, d, seen) <= Rounding(s, d, All(s.charges))
  {
    SumsMonotone(s.charges, d, seen, All(s.charges));
  }
}
