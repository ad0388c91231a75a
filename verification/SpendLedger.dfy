/**
 The daily spend ledger of packages/ai/src/spend.ts.

 `Local` is the module state of one process. `AiSpend` is the imperative form of that module, proved
 against functions on `Local`. `System` interleaves any number of processes over one shared store:
 increments and reads are messages that may be delayed, lost or answered late, and every process reads
 a clock that may move in any direction.

 Money is `real` (USD); the store holds whole micro-dollars, as `Math.round` leaves them.
 */
module SpendLedger {

  /** A UTC date as `today()` prints it; `""` is the value before the first roll. */
  type Day = string

  const MICROS: real := 1000000.0

  function ToMicros(cost: real): (m: int)
    ensures cost * MICROS - 0.5 < m as real <= cost * MICROS + 0.5
  {
    (cost * MICROS + 0.5).Floor
  }

  // ---------------------------------------------------------------- one process

  datatype Local = Local(day: Day, spentUsd: real, sharedMicros: int, shared: bool)

  function Rolled(l: Local, today: Day): Local {
    if today != l.day then Local(today, 0.0, 0, l.shared) else l
  }

  function View(l: Local): real {
    var total := l.sharedMicros as real / MICROS;
    if l.spentUsd >= total then l.spentUsd else total
  }

  function Recorded(l: Local, today: Day, cost: real): Local {
    var r := Rolled(l, today);
    r.(spentUsd := r.spentUsd + cost)
  }

  function IncrementSettled(l: Local, day: Day, total: int): Local {
    if day == l.day && total > l.sharedMicros then l.(sharedMicros := total) else l
  }

  function ReadSettled(l: Local, day: Day, total: int): Local {
    if day == l.day then l.(sharedMicros := total) else l
  }

  predicate DailyCeilingReached(l: Local, perDayUsd: real) {
    perDayUsd > 0.0 && View(l) >= perDayUsd
  }

  /** The module variables and the functions that update them. */
  class AiSpend {
    var day: Day
    var spentUsd: real
    var sharedMicros: int
    var shared: bool

    constructor ()
      ensures State() == Local("", 0.0, 0, false)
    {
      day, spentUsd, sharedMicros, shared := "", 0.0, 0, false;
    }

    ghost function State(): Local
      reads this
    {
      Local(day, spentUsd, sharedMicros, shared)
    }

    method Roll(today: Day)
      modifies this
      ensures State() == Rolled(old(State()), today)
    {
      if today != day {
        day := today;
        spentUsd := 0.0;
        sharedMicros := 0;
      }
    }

    method UseSharedSpend(store: bool)
      modifies this
      ensures State() == old(State()).(sharedMicros := 0, shared := store)
    {
      shared := store;
      sharedMicros := 0;
    }

    method ResetSpend(today: Day)
      modifies this
      ensures State() == Local(today, 0.0, 0, old(shared))
    {
      day := today;
      spentUsd := 0.0;
      sharedMicros := 0;
    }

    method SpentToday(today: Day) returns (usd: real)
      modifies this
      ensures State() == Rolled(old(State()), today)
      ensures usd == View(State())
    {
      Roll(today);
      usd := spentUsd;
      var total := sharedMicros as real / MICROS;
      if usd < total {
        usd := total;
      }
    }

    /** Returns the increment to send, if one is sent: the key's day and the amount. */
    method RecordSpend(today: Day, cost: real) returns (sent: bool, key: Day, amount: int)
      modifies this
      ensures State() == Recorded(old(State()), today, cost)
      ensures sent == (shared && cost > 0.0)
      ensures key == today && amount == ToMicros(cost)
    {
      Roll(today);
      spentUsd := spentUsd + cost;
      sent, key, amount := shared && cost > 0.0, day, ToMicros(cost);
    }

    method OnIncrement(key: Day, total: int)
      modifies this
      ensures State() == IncrementSettled(old(State()), key, total)
    {
      if key == day && total > sharedMicros {
        sharedMicros := total;
      }
    }

    method OnRead(key: Day, total: int)
      modifies this
      ensures State() == ReadSettled(old(State()), key, total)
    {
      if key == day {
        sharedMicros := total;
      }
    }

    /** The daily half of `assertWithinLimits`. */
    method AssertWithinDay(today: Day, perDayUsd: real) returns (ok: bool)
      modifies this
      ensures perDayUsd <= 0.0 ==> ok && State() == old(State())
      ensures perDayUsd > 0.0 ==> State() == Rolled(old(State()), today)
      ensures ok == !DailyCeilingReached(State(), perDayUsd)
    {
      ok := true;
      if perDayUsd > 0.0 {
        var usd := SpentToday(today);
        ok := usd < perDayUsd;
      }
    }
  }

  // ---------------------------------------------------------------- sums over the charges of the app

  /** A recorded request. `sent` tells whether an increment was sent for it. */
  datatype Charge = Charge(proc: nat, day: Day, cost: real, sent: bool)

  /** The USD of day `d` over the charges whose index is in `s`. */
  ghost function CostIn(cs: seq<Charge>, d: Day, s: set<nat>): real {
    if cs == [] then 0.0
    else
      var last := |cs| - 1;
      CostIn(cs[..last], d, s) + if cs[last].day == d && last in s then cs[last].cost else 0.0
  }

  ghost function MicrosIn(cs: seq<Charge>, d: Day, s: set<nat>): int {
    if cs == [] then 0
    else
      var last := |cs| - 1;
      MicrosIn(cs[..last], d, s) + if cs[last].day == d && last in s then ToMicros(cs[last].cost) else 0
  }

  ghost function CountIn(cs: seq<Charge>, d: Day, s: set<nat>): nat {
    if cs == [] then 0
    else
      var last := |cs| - 1;
      CountIn(cs[..last], d, s) + if cs[last].day == d && last in s then 1 else 0
  }

  ghost function All(cs: seq<Charge>): (s: set<nat>)
    ensures forall i: nat :: i in s <==> i < |cs|
  {
    if cs == [] then {} else All(cs[..|cs| - 1]) + {|cs| - 1}
  }

  /** The true total of a day: every request any process recorded on it. */
  ghost function Total(cs: seq<Charge>, d: Day): real {
    CostIn(cs, d, All(cs))
  }

  ghost function OwnSince(cs: seq<Charge>, p: nat, mark: nat): real {
    if |cs| <= mark then 0.0
    else
      var last := |cs| - 1;
      OwnSince(cs[..last], p, mark) + if cs[last].proc == p then cs[last].cost else 0.0
  }

  ghost predicate NonNegative(cs: seq<Charge>) {
    forall i :: 0 <= i < |cs| ==> cs[i].cost >= 0.0
  }

  lemma {:induction false} SumsIgnoreOutside(cs: seq<Charge>, d: Day, s: set<nat>, t: set<nat>)
    requires forall i: nat :: i < |cs| ==> (i in s <==> i in t)
    ensures CostIn(cs, d, s) == CostIn(cs, d, t)
    ensures MicrosIn(cs, d, s) == MicrosIn(cs, d, t)
    ensures CountIn(cs, d, s) == CountIn(cs, d, t)
  {
    if cs != [] {
      SumsIgnoreOutside(cs[..|cs| - 1], d, s, t);
    }
  }

  lemma {:induction false} SumsMonotone(cs: seq<Charge>, d: Day, s: set<nat>, t: set<nat>)
    requires NonNegative(cs) && s <= t
    ensures CostIn(cs, d, s) <= CostIn(cs, d, t)
    ensures 0 <= MicrosIn(cs, d, s) <= MicrosIn(cs, d, t)
    ensures CountIn(cs, d, s) <= CountIn(cs, d, t)
  {
    if cs != [] {
      SumsMonotone(cs[..|cs| - 1], d, s, t);
    }
  }

  lemma {:induction false} SumsAdd(cs: seq<Charge>, d: Day, s: set<nat>, i: nat)
    requires i !in s && i < |cs|
    ensures MicrosIn(cs, d, s + {i}) == MicrosIn(cs, d, s) + if cs[i].day == d then ToMicros(cs[i].cost) else 0
  {
    var last := |cs| - 1;
    if i == last {
      SumsIgnoreOutside(cs[..last], d, s + {i}, s);
    } else {
      SumsAdd(cs[..last], d, s, i);
    }
  }

  lemma SumsAppend(cs: seq<Charge>, c: Charge, d: Day, s: set<nat>)
    requires forall i :: i in s ==> i < |cs|
    ensures CostIn(cs + [c], d, s) == CostIn(cs, d, s)
    ensures MicrosIn(cs + [c], d, s) == MicrosIn(cs, d, s)
    ensures CountIn(cs + [c], d, s) == CountIn(cs, d, s)
  {
    assert (cs + [c])[..|cs|] == cs;
  }

  lemma TotalAppend(cs: seq<Charge>, c: Charge, d: Day)
    ensures Total(cs + [c], d) == Total(cs, d) + if c.day == d then c.cost else 0.0
  {
    assert (cs + [c])[..|cs|] == cs;
    SumsIgnoreOutside(cs, d, All(cs + [c]), All(cs));
  }

  /** Rounding each charge loses or gains at most half a micro-dollar. */
  lemma {:induction false} RoundingBound(cs: seq<Charge>, d: Day, s: set<nat>)
    ensures CostIn(cs, d, s) * MICROS - CountIn(cs, d, s) as real * 0.5
            <= MicrosIn(cs, d, s) as real
            <= CostIn(cs, d, s) * MICROS + CountIn(cs, d, s) as real * 0.5
  {
    if cs != [] {
      RoundingBound(cs[..|cs| - 1], d, s);
    }
  }

  lemma {:induction false} SplitTotal(cs: seq<Charge>, d: Day, s: set<nat>)
    ensures CostIn(cs, d, All(cs)) == CostIn(cs, d, s) + CostIn(cs, d, All(cs) - s)
  {
    if cs != [] {
      var init := cs[..|cs| - 1];
      SplitTotal(init, d, s);
      SumsIgnoreOutside(init, d, All(init), All(cs));
      SumsIgnoreOutside(init, d, All(init) - s, All(cs) - s);
    }
  }

  lemma {:induction false} OwnAtMostTotal(cs: seq<Charge>, p: nat, mark: nat, d: Day)
    requires NonNegative(cs)
    requires forall i :: mark <= i < |cs| && cs[i].proc == p ==> cs[i].day == d
    ensures 0.0 <= OwnSince(cs, p, mark) <= Total(cs, d)
  {
    if |cs| <= mark {
      SumsMonotone(cs, d, {}, All(cs));
      NothingIn(cs, d);
    } else {
      var init := cs[..|cs| - 1];
      assert cs == init + [cs[|cs| - 1]];
      OwnAtMostTotal(init, p, mark, d);
      TotalAppend(init, cs[|cs| - 1], d);
    }
  }

  lemma {:induction false} NothingIn(cs: seq<Charge>, d: Day)
    ensures CostIn(cs, d, {}) == 0.0 && MicrosIn(cs, d, {}) == 0
  {
    if cs != [] {
      NothingIn(cs[..|cs| - 1], d);
    }
  }

  // ---------------------------------------------------------------- the interleaved system

  /** The charges counted by the last read that settled for the process's current day, if any. */
  datatype Basis = NoBasis | Basis(seen: set<nat>)

  /** `mark` is the number of charges when the process last entered its day with a zeroed count. */
  datatype Process = Process(clock: Day, local: Local, mark: nat, basis: Basis)

  /** A read on its way to the store. */
  datatype Query = Query(proc: nat, day: Day)

  datatype Reply =
    | IncrementReply(proc: nat, day: Day, total: int)
    | ReadReply(proc: nat, day: Day, total: int, seen: set<nat>)

  /** A request that passed the daily check on the basis of a settled read. */
  datatype Admission = Admission(day: Day, perDayUsd: real, seen: set<nat>)

  datatype System = System(
    procs: seq<Process>,
    store: map<Day, int>,
    charges: seq<Charge>,
    inFlight: set<nat>,
    applied: set<nat>,
    queries: multiset<Query>,
    replies: multiset<Reply>,
    admissions: set<Admission>)

  datatype Step =
    | SetClock(p: nat, today: Day)
    | Record(p: nat, cost: real)
    | Apply(i: nat)              // an increment reaches the store, which answers
    | LoseIncrement(i: nat)      // an increment never arrives
    | StartRead(p: nat)
    | ServeRead(query: Query)
    | LoseRead(query: Query)
    | Settle(reply: Reply)
    | LoseReply(reply: Reply)
    | CheckDay(p: nat, perDayUsd: real)
    | ResetLedger(p: nat)
    | UseStore(p: nat, on: bool)

  function Stored(s: System, d: Day): int {
    if d in s.store then s.store[d] else 0
  }

  function RollProcess(p: Process, charges: nat): Process {
    if p.clock != p.local.day then Process(p.clock, Rolled(p.local, p.clock), charges, NoBasis) else p
  }

  ghost function AppliedOn(s: System, d: Day): set<nat> {
    set i | i in s.applied && i < |s.charges| && s.charges[i].day == d
  }

  ghost function Next(s: System, step: Step): System {
    match step
    case SetClock(p, today) =>
      if p < |s.procs| then s.(procs := s.procs[p := s.procs[p].(clock := today)]) else s
    case Record(p, cost) =>
      if p < |s.procs| && cost >= 0.0 then
        var q := RollProcess(s.procs[p], |s.charges|);
        var sent := q.local.shared && cost > 0.0;
        s.(procs := s.procs[p := q.(local := Recorded(s.procs[p].local, s.procs[p].clock, cost))],
           charges := s.charges + [Charge(p, q.local.day, cost, sent)],
           inFlight := if sent then s.inFlight + {|s.charges|} else s.inFlight)
      else s
    case Apply(i) =>
      if i in s.inFlight && i < |s.charges| then
        var c := s.charges[i];
        var total := Stored(s, c.day) + ToMicros(c.cost);
        s.(store := s.store[c.day := total],
           inFlight := s.inFlight - {i},
           applied := s.applied + {i},
           replies := s.replies + multiset{IncrementReply(c.proc, c.day, total)})
      else s
    case LoseIncrement(i) =>
      s.(inFlight := s.inFlight - {i})
    case StartRead(p) =>
      if p < |s.procs| && s.procs[p].local.shared then
        var q := RollProcess(s.procs[p], |s.charges|);
        s.(procs := s.procs[p := q], queries := s.queries + multiset{Query(p, q.local.day)})
      else s
    case ServeRead(query) =>
      if query in s.queries then
        s.(queries := s.queries - multiset{query},
           replies := s.replies +
             multiset{ReadReply(query.proc, query.day, Stored(s, query.day), AppliedOn(s, query.day))})
      else s
    case LoseRead(query) =>
      s.(queries := s.queries - multiset{query})
    case Settle(reply) =>
      if reply in s.replies && reply.proc < |s.procs| then
        s.(procs := s.procs[reply.proc := SettleAt(s.procs[reply.proc], reply)],
           replies := s.replies - multiset{reply})
      else s
    case LoseReply(reply) =>
      s.(replies := s.replies - multiset{reply})
    case CheckDay(p, perDayUsd) =>
      if p < |s.procs| && perDayUsd > 0.0 then
        var q := RollProcess(s.procs[p], |s.charges|);
        s.(procs := s.procs[p := q],
           admissions :=
             if q.basis.Basis? && !DailyCeilingReached(q.local, perDayUsd)
             then s.admissions + {Admission(q.local.day, perDayUsd, q.basis.seen)}
             else s.admissions)
      else s
    case ResetLedger(p) =>
      if p < |s.procs| then
        var q := s.procs[p];
        s.(procs := s.procs[p := Process(q.clock, Local(q.clock, 0.0, 0, q.local.shared), |s.charges|, NoBasis)])
      else s
    case UseStore(p, on) =>
      if p < |s.procs| then
        var q := s.procs[p];
        s.(procs := s.procs[p := q.(local := q.local.(sharedMicros := 0, shared := on), basis := NoBasis)])
      else s
  }

  function SettleAt(q: Process, reply: Reply): Process {
    match reply
    case IncrementReply(_, day, total) => q.(local := IncrementSettled(q.local, day, total))
    case ReadReply(_, day, total, seen) =>
      q.(local := ReadSettled(q.local, day, total), basis := if day == q.local.day then Basis(seen) else q.basis)
  }

  ghost function Exec(s: System, steps: seq<Step>): System {
    if steps == [] then s else Next(Exec(s, steps[..|steps| - 1]), steps[|steps| - 1])
  }

  /** `n` processes with the module's initial values; `shared(p)` says which of them were given the store. */
  ghost predicate Initial(s: System) {
    && s.store == map[] && s.charges == [] && s.inFlight == {} && s.applied == {}
    && s.queries == multiset{} && s.replies == multiset{} && s.admissions == {}
    && forall p :: 0 <= p < |s.procs| ==>
                     var l := s.procs[p].local;
                     l.spentUsd == 0.0 && l.sharedMicros == 0 && s.procs[p].mark == 0 && s.procs[p].basis == NoBasis
  }

  // ---------------------------------------------------------------- the invariant

  ghost predicate ChargesOk(s: System) {
    && NonNegative(s.charges)
    && (forall i :: i in s.applied ==> i < |s.charges| && s.charges[i].sent)
    && (forall i :: i in s.inFlight ==> i < |s.charges| && s.charges[i].sent)
    && s.applied !! s.inFlight
  }

  ghost predicate StoreOk(s: System) {
    forall d: Day :: Stored(s, d) == MicrosIn(s.charges, d, s.applied)
  }

  /** Every figure `seen` in a read is the exact sum of the increments it counted. */
  ghost predicate ReplyOk(s: System, r: Reply) {
    && r.total <= Stored(s, r.day)
    && (r.ReadReply? ==> r.seen <= s.applied && r.total == MicrosIn(s.charges, r.day, r.seen))
  }

  ghost predicate ProcessOk(s: System, p: nat)
    requires p < |s.procs|
  {
    var q := s.procs[p];
    && q.local.sharedMicros <= Stored(s, q.local.day)
    && q.mark <= |s.charges|
    && q.local.spentUsd == OwnSince(s.charges, p, q.mark)
    && (forall i :: q.mark <= i < |s.charges| && s.charges[i].proc == p ==> s.charges[i].day == q.local.day)
    && (q.basis.Basis? ==>
          q.basis.seen <= s.applied && MicrosIn(s.charges, q.local.day, q.basis.seen) <= q.local.sharedMicros)
  }

  ghost predicate AdmissionOk(s: System, a: Admission) {
    && a.seen <= s.applied
    && MicrosIn(s.charges, a.day, a.seen) as real < a.perDayUsd * MICROS
  }

  ghost predicate Inv(s: System) {
    && ChargesOk(s)
    && StoreOk(s)
    && (forall r :: r in s.replies ==> ReplyOk(s, r))
    && (forall p :: 0 <= p < |s.procs| ==> ProcessOk(s, p))
    && (forall a :: a in s.admissions ==> AdmissionOk(s, a))
  }

  lemma InitialInv(s: System)
    requires Initial(s)
    ensures Inv(s)
  {
  }

  /** Rolling a process keeps its share of the invariant. */
  lemma RollKeepsProcess(s: System, p: nat, t: System)
    requires Inv(s) && p < |s.procs|
    requires t == s.(procs := s.procs[p := RollProcess(s.procs[p], |s.charges|)])
    ensures Inv(t) && t.procs[p].local == Rolled(s.procs[p].local, s.procs[p].clock)
  {
    var q := t.procs[p];
    assert ProcessOk(s, p);
    SumsMonotone(s.charges, q.local.day, {}, s.applied);
    assert Stored(t, q.local.day) == Stored(s, q.local.day) >= 0;
    assert ProcessOk(t, p);
    forall k | 0 <= k < |t.procs| ensures ProcessOk(t, k) {
      assert ProcessOk(s, k);
    }
    assert forall r :: r in t.replies ==> ReplyOk(s, r) && ReplyOk(t, r);
    assert forall a :: a in t.admissions ==> AdmissionOk(s, a) && AdmissionOk(t, a);
    assert forall d: Day :: Stored(t, d) == Stored(s, d);
  }

  /** Appending a charge that is not applied leaves every figure about the store unchanged. */
  lemma AppendKeeps(s: System, p: nat, cost: real, sent: bool, t: System)
    requires Inv(s) && p < |s.procs| && cost >= 0.0
    requires s.procs[p].clock == s.procs[p].local.day
    requires var q := s.procs[p];
             t == s.(procs := s.procs[p := q.(local := q.local.(spentUsd := q.local.spentUsd + cost))],
                     charges := s.charges + [Charge(p, q.local.day, cost, sent)],
                     inFlight := if sent then s.inFlight + {|s.charges|} else s.inFlight)
    ensures Inv(t)
  {
    var c := Charge(p, s.procs[p].local.day, cost, sent);
    assert t.charges[..|s.charges|] == s.charges;
    forall d: Day, u: set<nat> | u <= s.applied ensures MicrosIn(t.charges, d, u) == MicrosIn(s.charges, d, u) {
      SumsAppend(s.charges, c, d, u);
    }
    assert forall d: Day :: Stored(t, d) == Stored(s, d);
    forall d: Day ensures Stored(t, d) == MicrosIn(t.charges, d, t.applied) {
      assert Stored(s, d) == MicrosIn(s.charges, d, s.applied);
    }
    forall k | 0 <= k < |t.procs| ensures ProcessOk(t, k) {
      assert ProcessOk(s, k);
    }
    forall r | r in t.replies ensures ReplyOk(t, r) {
      assert ReplyOk(s, r);
    }
    forall a | a in t.admissions ensures AdmissionOk(t, a) {
      assert AdmissionOk(s, a);
    }
  }

  lemma ApplyKeeps(s: System, i: nat)
    requires Inv(s) && i in s.inFlight
    ensures Inv(Next(s, Apply(i)))
  {
    var t := Next(s, Apply(i));
    forall d: Day ensures Stored(t, d) == MicrosIn(t.charges, d, t.applied) && Stored(s, d) <= Stored(t, d) {
      SumsAdd(s.charges, d, s.applied, i);
      assert Stored(s, d) == MicrosIn(s.charges, d, s.applied);
    }
    forall r | r in t.replies ensures ReplyOk(t, r) {
      if r in s.replies {
        assert ReplyOk(s, r);
      }
    }
    forall k | 0 <= k < |t.procs| ensures ProcessOk(t, k) {
      assert ProcessOk(s, k);
    }
    forall a | a in t.admissions ensures AdmissionOk(t, a) {
      assert AdmissionOk(s, a);
    }
  }

  lemma ServeKeeps(s: System, query: Query)
    requires Inv(s) && query in s.queries
    ensures Inv(Next(s, ServeRead(query)))
  {
    var t := Next(s, ServeRead(query));
    var seen := AppliedOn(s, query.day);
    OnlyItsDay(s.charges, query.day, s.applied, seen);
    assert forall d: Day :: Stored(t, d) == Stored(s, d);
    forall r | r in t.replies ensures ReplyOk(t, r) {
      if r in s.replies {
        assert ReplyOk(s, r);
      }
    }
    FrameKeeps(s, t);
  }

  lemma {:induction false} OnlyItsDay(cs: seq<Charge>, d: Day, s: set<nat>, t: set<nat>)
    requires forall i: nat :: i < |cs| && cs[i].day == d ==> (i in s <==> i in t)
    ensures MicrosIn(cs, d, s) == MicrosIn(cs, d, t)
  {
    if cs != [] {
      OnlyItsDay(cs[..|cs| - 1], d, s, t);
    }
  }

  /** Steps that touch neither the charges, the store, the processes nor the admissions. */
  lemma FrameKeeps(s: System, t: System)
    requires Inv(s)
    requires t.procs == s.procs && t.store == s.store && t.charges == s.charges && t.applied == s.applied
    requires t.admissions == s.admissions && t.inFlight <= s.inFlight
    requires forall r :: r in t.replies ==> ReplyOk(t, r)
    ensures Inv(t)
  {
    assert forall d: Day :: Stored(t, d) == Stored(s, d);
    forall k | 0 <= k < |t.procs| ensures ProcessOk(t, k) {
      assert ProcessOk(s, k);
    }
    forall a | a in t.admissions ensures AdmissionOk(t, a) {
      assert AdmissionOk(s, a);
    }
  }

  lemma FewerReplies(s: System, t: System)
    requires Inv(s)
    requires t.procs == s.procs && t.store == s.store && t.charges == s.charges && t.applied == s.applied
    requires t.admissions == s.admissions && t.inFlight <= s.inFlight && t.replies <= s.replies
    ensures Inv(t)
  {
    assert forall d: Day :: Stored(t, d) == Stored(s, d);
    forall r | r in t.replies ensures ReplyOk(t, r) {
      assert r in s.replies && ReplyOk(s, r);
    }
    FrameKeeps(s, t);
  }

  /** A step that replaces one process by another that is consistent with the store. */
  lemma OneProcessKeeps(s: System, p: nat, q: Process, t: System)
    requires Inv(s) && p < |s.procs|
    requires t == s.(procs := s.procs[p := q])
    requires ProcessOk(t, p)
    ensures Inv(t)
  {
    assert forall d: Day :: Stored(t, d) == Stored(s, d);
    forall k | 0 <= k < |t.procs| ensures ProcessOk(t, k) {
      assert ProcessOk(s, k);
    }
    forall r | r in t.replies ensures ReplyOk(t, r) {
      assert ReplyOk(s, r);
    }
    forall a | a in t.admissions ensures AdmissionOk(t, a) {
      assert AdmissionOk(s, a);
    }
  }

  lemma SettleKeeps(s: System, reply: Reply)
    requires Inv(s) && reply in s.replies && reply.proc < |s.procs|
    ensures Inv(Next(s, Settle(reply)))
  {
    var p := reply.proc;
    var q := SettleAt(s.procs[p], reply);
    var mid := s.(procs := s.procs[p := q]);
    assert ProcessOk(s, p) && ReplyOk(s, reply);
    assert Stored(mid, q.local.day) == Stored(s, q.local.day);
    OneProcessKeeps(s, p, q, mid);
    FewerReplies(mid, Next(s, Settle(reply)));
  }

  lemma CheckKeeps(s: System, p: nat, perDayUsd: real)
    requires Inv(s) && p < |s.procs| && perDayUsd > 0.0
    ensures Inv(Next(s, CheckDay(p, perDayUsd)))
  {
    var q := RollProcess(s.procs[p], |s.charges|);
    var mid := s.(procs := s.procs[p := q]);
    RollKeepsProcess(s, p, mid);
    assert ProcessOk(mid, p);
    var t := Next(s, CheckDay(p, perDayUsd));
    assert t == mid.(admissions := t.admissions);
    assert forall d: Day :: Stored(t, d) == Stored(mid, d);
    forall a | a in t.admissions ensures AdmissionOk(t, a) {
      if a in s.admissions {
        assert AdmissionOk(mid, a);
      } else {
        assert MicrosIn(s.charges, q.local.day, q.basis.seen) <= q.local.sharedMicros;
        assert q.local.sharedMicros as real / MICROS <= View(q.local) < perDayUsd;
      }
    }
    forall k | 0 <= k < |t.procs| ensures ProcessOk(t, k) {
      assert ProcessOk(mid, k);
    }
    forall r | r in t.replies ensures ReplyOk(t, r) {
      assert ReplyOk(mid, r);
    }
  }

  lemma ZeroedKeeps(s: System, p: nat, q: Process)
    requires Inv(s) && p < |s.procs|
    requires q.local.sharedMicros == 0 && q.basis == NoBasis
    requires (q.local.spentUsd == 0.0 && q.mark == |s.charges|)
             || (q.local.spentUsd == s.procs[p].local.spentUsd && q.mark == s.procs[p].mark && q.local.day == s.procs[p].local.day)
    ensures Inv(s.(procs := s.procs[p := q]))
  {
    assert ProcessOk(s, p);
    var t := s.(procs := s.procs[p := q]);
    SumsMonotone(s.charges, q.local.day, {}, s.applied);
    assert Stored(t, q.local.day) == Stored(s, q.local.day) >= 0;
    OneProcessKeeps(s, p, q, t);
  }

  lemma ClockKeeps(s: System, p: nat, today: Day)
    requires Inv(s) && p < |s.procs|
    ensures Inv(Next(s, SetClock(p, today)))
  {
    var t := Next(s, SetClock(p, today));
    assert ProcessOk(s, p);
    assert Stored(t, s.procs[p].local.day) == Stored(s, s.procs[p].local.day);
    OneProcessKeeps(s, p, s.procs[p].(clock := today), t);
  }

  lemma RecordKeeps(s: System, p: nat, cost: real)
    requires Inv(s) && p < |s.procs| && cost >= 0.0
    ensures Inv(Next(s, Record(p, cost)))
  {
    var t := Next(s, Record(p, cost));
    var q := RollProcess(s.procs[p], |s.charges|);
    var mid := s.(procs := s.procs[p := q]);
    RollKeepsProcess(s, p, mid);
    hide Inv;
    assert t.procs == mid.procs[p := t.procs[p]];
    AppendKeeps(mid, p, cost, q.local.shared && cost > 0.0, t);
  }

  lemma StartReadKeeps(s: System, p: nat)
    requires Inv(s) && p < |s.procs| && s.procs[p].local.shared
    ensures Inv(Next(s, StartRead(p)))
  {
    var mid := s.(procs := s.procs[p := RollProcess(s.procs[p], |s.charges|)]);
    RollKeepsProcess(s, p, mid);
    hide Inv;
    FewerReplies(mid, Next(s, StartRead(p)));
  }

  lemma LossKeeps(s: System, step: Step)
    requires Inv(s) && (step.LoseIncrement? || step.LoseRead? || step.LoseReply?)
    ensures Inv(Next(s, step))
  {
    hide Inv;
    FewerReplies(s, Next(s, step));
  }

  lemma ResetKeeps(s: System, step: Step)
    requires Inv(s) && ((step.ResetLedger? && step.p < |s.procs|) || (step.UseStore? && step.p < |s.procs|))
    ensures Inv(Next(s, step))
  {
    hide Inv;
    ZeroedKeeps(s, step.p, Next(s, step).procs[step.p]);
  }

  /** A step that does not apply changes nothing. */
  predicate Applies(s: System, step: Step) {
    match step
    case SetClock(p, _) => p < |s.procs|
    case Record(p, cost) => p < |s.procs| && cost >= 0.0
    case Apply(i) => i in s.inFlight
    case StartRead(p) => p < |s.procs| && s.procs[p].local.shared
    case ServeRead(query) => query in s.queries
    case Settle(reply) => reply in s.replies && reply.proc < |s.procs|
    case CheckDay(p, perDayUsd) => p < |s.procs| && perDayUsd > 0.0
    case ResetLedger(p) => p < |s.procs|
    case UseStore(p, _) => p < |s.procs|
    case _ => true
  }

  lemma Inapplicable(s: System, step: Step)
    requires !Applies(s, step)
    ensures Next(s, step) == s
  {
  }

  lemma NextKeepsInv(s: System, step: Step)
    requires Inv(s)
    ensures Inv(Next(s, step))
  {
    hide Inv, Next;
    if !Applies(s, step) {
      Inapplicable(s, step);
    } else {
      match step
      case SetClock(p, today) => ClockKeeps(s, p, today);
      case Record(p, cost) => RecordKeeps(s, p, cost);
      case Apply(i) => ApplyKeeps(s, i);
      case StartRead(p) => StartReadKeeps(s, p);
      case ServeRead(query) => ServeKeeps(s, query);
      case Settle(reply) => SettleKeeps(s, reply);
      case CheckDay(p, perDayUsd) => CheckKeeps(s, p, perDayUsd);
      case ResetLedger(p) => ResetKeeps(s, step);
      case UseStore(p, on) => ResetKeeps(s, step);
      case _ => LossKeeps(s, step);
    }
  }

  lemma {:induction false} ExecKeepsInv(s: System, steps: seq<Step>)
    requires Inv(s)
    ensures Inv(Exec(s, steps))
  {
    if steps != [] {
      ExecKeepsInv(s, steps[..|steps| - 1]);
      NextKeepsInv(Exec(s, steps[..|steps| - 1]), steps[|steps| - 1]);
    }
  }
}
