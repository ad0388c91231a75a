/**
 What the daily ledger guarantees over whole runs: bounds on the figure a process acts on, the
 overshoot of the daily ceiling, and the two places where the ledger promises less than it may seem to.
 */
module SpendBounds {
  import opened SpendLedger

  ghost predicate Reachable(s: System) {
    exists s0, steps :: Initial(s0) && s == Exec(s0, steps)
  }

  lemma ReachableNext(s: System, step: Step)
    requires Reachable(s)
    ensures Reachable(Next(s, step))
  {
    var s0, steps :| Initial(s0) && s == Exec(s0, steps);
    assert (steps + [step])[..|steps|] == steps;
    assert Next(s, step) == Exec(s0, steps + [step]);
  }

  lemma ReachableInv(s: System)
    requires Reachable(s)
    ensures Inv(s)
  {
    var s0, steps :| Initial(s0) && s == Exec(s0, steps);
    InitialInv(s0);
    ExecKeepsInv(s0, steps);
  }

  /** In USD: half a micro-dollar for every charge of the day that `seen` counts. */
  ghost function Rounding(s: System, d: Day, seen: set<nat>): real {
    CountIn(s.charges, d, seen) as real * 0.5 / MICROS
  }

  /** The figure a process acts on lies between its own spend and the app's true total of the day. */
  lemma ViewBounds(s: System, p: nat)
    requires Reachable(s) && p < |s.procs|
    ensures var q := s.procs[p]; var d := q.local.day;
            && Stored(s, d) == MicrosIn(s.charges, d, s.applied)
            && q.local.sharedMicros <= Stored(s, d)
            && OwnSince(s.charges, p, q.mark) <= View(q.local)
            && View(q.local) <= Total(s.charges, d) + Rounding(s, d, s.applied)
  {
    ReachableInv(s);
    var q := s.procs[p];
    var d := q.local.day;
    assert ProcessOk(s, p);
    OwnAtMostTotal(s.charges, p, q.mark, d);
    RoundingBound(s.charges, d, s.applied);
    assert s.applied <= All(s.charges);
    SumsMonotone(s.charges, d, s.applied, All(s.charges));
    assert Stored(s, d) as real / MICROS <= Total(s.charges, d) + Rounding(s, d, s.applied) by {
      assert Stored(s, d) as real <= CostIn(s.charges, d, s.applied) * MICROS + CountIn(s.charges, d, s.applied) as real * 0.5;
    }
  }

  /** Every charge of the day that cost anything has reached the store. */
  ghost predicate Quiescent(s: System, d: Day) {
    forall i :: 0 <= i < |s.charges| && s.charges[i].day == d && s.charges[i].cost > 0.0 ==> i in s.applied
  }

  /** The reply a read of `p`'s day gets when the store serves it in `s`. */
  ghost function ReadAnswer(s: System, p: nat, d: Day): Reply {
    ReadReply(p, d, Stored(s, d), AppliedOn(s, d))
  }

  /** A read of `p` is asked for and served: the answer is in flight, nothing else has changed but the roll. */
  ghost function Asked(s: System, p: nat): System
    requires p < |s.procs|
  {
    Next(Next(s, StartRead(p)), ServeRead(Query(p, s.procs[p].clock)))
  }

  lemma AskedState(s: System, p: nat)
    requires Reachable(s) && p < |s.procs| && s.procs[p].local.shared
    ensures var t := Asked(s, p); var d := s.procs[p].clock;
            && Reachable(t)
            && t.procs == s.procs[p := RollProcess(s.procs[p], |s.charges|)]
            && t.store == s.store && t.charges == s.charges && t.applied == s.applied && t.inFlight == s.inFlight
            && t.replies == s.replies + multiset{ReadAnswer(s, p, d)}
  {
    var d := s.procs[p].clock;
    var started := Next(s, StartRead(p));
    ReachableNext(s, StartRead(p));
    ReachableNext(started, ServeRead(Query(p, d)));
    assert AppliedOn(started, d) == AppliedOn(s, d);
  }

  /** One refresh that nothing interrupts. */
  ghost function Refreshed(s: System, p: nat): System
    requires p < |s.procs|
  {
    Next(Asked(s, p), Settle(ReadAnswer(s, p, s.procs[p].clock)))
  }

  lemma {:induction false} FreeChargesCostNothing(cs: seq<Charge>, d: Day, s: set<nat>)
    requires NonNegative(cs)
    requires forall i :: 0 <= i < |cs| && cs[i].day == d && cs[i].cost > 0.0 ==> i in s
    ensures CostIn(cs, d, s) == Total(cs, d)
  {
    if cs != [] {
      var last := |cs| - 1;
      FreeChargesCostNothing(cs[..last], d, s);
      assert cs == cs[..last] + [cs[last]];
      TotalAppend(cs[..last], cs[last], d);
    }
  }

  /** A read of the day a process is on replaces its figure, and nothing else. */
  lemma SettledRead(s: System, reply: Reply)
    requires reply in s.replies && reply.ReadReply? && reply.proc < |s.procs| && reply.day == s.procs[reply.proc].local.day
    ensures var t := Next(s, Settle(reply));
            && t.store == s.store && t.charges == s.charges && t.applied == s.applied && |t.procs| == |s.procs|
            && t.procs[reply.proc].local == s.procs[reply.proc].local.(sharedMicros := reply.total)
            && t.replies == s.replies - multiset{reply}
  {
  }

  lemma RolledDay(s: System, p: nat)
    requires p < |s.procs|
    ensures RollProcess(s.procs[p], |s.charges|).local.day == s.procs[p].clock
    ensures RollProcess(s.procs[p], |s.charges|).local.shared == s.procs[p].local.shared
    ensures s.procs[p].clock == s.procs[p].local.day ==> RollProcess(s.procs[p], |s.charges|) == s.procs[p]
  {
  }

  /** Once the day's increments are in, one refresh brings any sharing process to the app's total. */
  lemma RefreshReachesTotal(s: System, p: nat)
    requires Reachable(s) && p < |s.procs| && s.procs[p].local.shared
    requires Quiescent(s, s.procs[p].clock)
    ensures var t := Refreshed(s, p); var d := s.procs[p].clock; var slack := Rounding(s, d, s.applied);
            && t.procs[p].local.day == d
            && Total(s.charges, d) - slack <= View(t.procs[p].local) <= Total(s.charges, d) + slack
  {
    hide Next, Asked, RollProcess, Reachable, CostIn, MicrosIn, CountIn;
    var d := s.procs[p].clock;
    AskedState(s, p);
    RolledDay(s, p);
    var t := Refreshed(s, p);
    ReachableNext(Asked(s, p), Settle(ReadAnswer(s, p, d)));
    SettledRead(Asked(s, p), ReadAnswer(s, p, d));
    ViewBounds(t, p);
    ReachableInv(s);
    FreeChargesCostNothing(s.charges, d, s.applied);
    RoundingBound(s.charges, d, s.applied);
    assert View(t.procs[p].local) >= t.procs[p].local.sharedMicros as real / MICROS;
  }

  /**
   The daily ceiling's overshoot. Every request that was let through on a settled read of its day was
   let through with the counted charges below the ceiling, so the day never totals more than the ceiling
   plus the charges that read did not yet see, and rounding.
   */
  lemma CeilingOvershoot(s: System, a: Admission)
    requires Reachable(s) && a in s.admissions
    ensures Total(s.charges, a.day)
            < a.perDayUsd + CostIn(s.charges, a.day, All(s.charges) - a.seen) + Rounding(s, a.day, a.seen)
  {
    ReachableInv(s);
    assert AdmissionOk(s, a);
    SplitTotal(s.charges, a.day, a.seen);
    RoundingBound(s.charges, a.day, a.seen);
  }

  /** Settling a message lowers the figure of a process exactly when a read older than its view lands. */
  lemma SettleLowersViewIff(q: Process, reply: Reply)
    ensures View(SettleAt(q, reply).local) < View(q.local) <==>
            && reply.ReadReply? && reply.day == q.local.day
            && reply.total < q.local.sharedMicros
            && q.local.spentUsd < q.local.sharedMicros as real / MICROS
  {
    assert reply.total < q.local.sharedMicros ==>
        reply.total as real / MICROS < q.local.sharedMicros as real / MICROS;
  }

  /** Settling `reply` lowers what process `p` reports for the day it is on. */
  ghost predicate Lowers(s: System, reply: Reply, p: nat) {
    && reply in s.replies && reply.proc == p < |s.procs|
    && var t := Next(s, Settle(reply));
       && t.procs[p].local.day == s.procs[p].local.day
       && View(t.procs[p].local) < View(s.procs[p].local)
  }

  /** The figure is therefore not monotone within a day: two reads answered out of order lower it. */
  lemma ViewIsNotMonotone()
    ensures exists s, reply, p :: Reachable(s) && Lowers(s, reply, p)
  {
    var d := "2026-01-01";
    var proc := Process(d, Local(d, 0.0, 0, true), 0, NoBasis);
    var s0 := System([proc, proc], map[], [], {}, {}, multiset{}, multiset{}, {});
    assert s0 == Exec(s0, []);
    assert Initial(s0) && Reachable(s0);
    AskedState(s0, 0);
    var s1 := Asked(s0, 0);
    var late := ReadAnswer(s0, 0, d);
    var s3 := OthersSpend(s1);
    assert late.total == 0;
    OvertakenReadLowers(s3, late);
  }

  lemma OvertakenReadLowers(s: System, late: Reply)
    requires Reachable(s) && |s.procs| > 0 && late in s.replies && late.ReadReply? && late.proc == 0 && late.total == 0
    requires var q := s.procs[0];
             q.clock == q.local.day == late.day && q.local.spentUsd == 0.0 && q.local.shared && Stored(s, late.day) > 0
    ensures exists t, reply, p :: Reachable(t) && Lowers(t, reply, p)
  {
    var t := NewerReadSettles(s, late);
    LateReadLowers(t, late);
  }

  lemma NewerReadSettles(s: System, late: Reply) returns (t: System)
    requires Reachable(s) && |s.procs| > 0 && late in s.replies && late.total == 0
    requires var q := s.procs[0]; q.clock == q.local.day == late.day && q.local.shared && Stored(s, late.day) > 0
    ensures Reachable(t) && |t.procs| == |s.procs| && late in t.replies
    ensures t.procs[0].local == s.procs[0].local.(sharedMicros := Stored(s, late.day))
  {
    hide Next, Asked, RollProcess, Reachable;
    AskedState(s, 0);
    RolledDay(s, 0);
    var asked := Asked(s, 0);
    var newer := ReadAnswer(s, 0, late.day);
    t := Next(asked, Settle(newer));
    ReachableNext(asked, Settle(newer));
    SettledRead(asked, newer);
    assert newer != late;
  }

  lemma LateReadLowers(t: System, late: Reply)
    requires |t.procs| > 0 && late in t.replies && late.ReadReply? && late.proc == 0 && late.total == 0
    requires var l := t.procs[0].local; l.day == late.day && l.spentUsd == 0.0 && l.sharedMicros > 0
    ensures Lowers(t, late, 0)
  {
    SettleLowersViewIff(t.procs[0], late);
  }

  /** A second process records a dollar and its increment reaches the store. */
  lemma OthersSpend(s: System) returns (t: System)
    requires Reachable(s) && |s.procs| == 2 && s.charges == [] && s.store == map[]
    requires var q := s.procs[1]; q.clock == q.local.day && q.local.shared
    ensures Reachable(t) && |t.procs| == 2 && t.procs[0] == s.procs[0]
    ensures Stored(t, s.procs[1].local.day) == 1000000
    ensures s.replies <= t.replies
  {
    var recorded := Next(s, Record(1, 1.0));
    ReachableNext(s, Record(1, 1.0));
    t := Next(recorded, Apply(0));
    ReachableNext(recorded, Apply(0));
    assert recorded.charges[0] == Charge(1, s.procs[1].local.day, 1.0, true);
    assert ToMicros(1.0) == 1000000;
  }

  /**
   The check refuses exactly when the clock still shows the ledger's day and the figure is at the ceiling.
   A day that rolls between the refresh and the check is therefore never refused, whatever the store holds.
   */
  lemma CheckRefusesIff(l: Local, today: Day, perDayUsd: real)
    requires perDayUsd > 0.0
    ensures DailyCeilingReached(Rolled(l, today), perDayUsd) <==> today == l.day && View(l) >= perDayUsd
  {
    if today != l.day {
      assert View(Rolled(l, today)) == 0.0;
    }
  }

  // ---------------------------------------------------------------- one process without a store

  /** One guarded request: the day at the check, the day when its usage is recorded, and its cost. */
  datatype Call = Call(checkedOn: Day, recordedOn: Day, cost: real)

  function Sequential(l: Local, perDayUsd: real, calls: seq<Call>): Local {
    if calls == [] then l
    else
      var before := Sequential(l, perDayUsd, calls[..|calls| - 1]);
      var call := calls[|calls| - 1];
      var checked := Rolled(before, call.checkedOn);
      if DailyCeilingReached(checked, perDayUsd) then checked else Recorded(checked, call.recordedOn, call.cost)
  }

  /** Checked and recorded one after another, a lone process overshoots by less than one request. */
  lemma {:induction false} SequentialOvershoot(l: Local, perDayUsd: real, calls: seq<Call>, dearest: real)
    requires perDayUsd > 0.0 && dearest >= 0.0
    requires l.spentUsd == 0.0 && l.sharedMicros == 0
    requires forall i :: 0 <= i < |calls| ==> 0.0 <= calls[i].cost <= dearest
    ensures var r := Sequential(l, perDayUsd, calls);
            0.0 <= r.spentUsd == View(r) < perDayUsd + dearest && r.sharedMicros == 0
  {
    if calls != [] {
      SequentialOvershoot(l, perDayUsd, calls[..|calls| - 1], dearest);
    }
  }
}
