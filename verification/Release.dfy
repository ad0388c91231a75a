/**
 The pack, skip and publish loop of scripts/publish-packages.ts, as a protocol that may stop anywhere and be
 run again.

 The registry is the outside world: `live` holds the packages it has at the version being released and `log`
 every publish it accepted, in order. It refuses a version it already has. What else npm, tar and the
 machine do in a run is an `Answer` for each package; a run with fewer answers than packages was stopped.
 */
module Release {
  import opened PublishOrder

  /** `LandedButFailed`: the registry took the package and the client still saw a failure. */
  datatype PublishOutcome = Accepted | Rejected | LandedButFailed

  /** `viewAnswers`: `npm view` reports the version when the registry has it. Only what is there is ever reported. */
  datatype Answer = Answer(packs: bool, depsMatch: bool, viewAnswers: bool, publish: PublishOutcome)

  datatype Registry = Registry(live: set<string>, log: seq<string>)

  datatype Progress = Progress(registry: Registry, skipped: nat, running: bool)

  function Published(r: Registry, name: string, outcome: PublishOutcome): Registry {
    if name in r.live || outcome.Rejected? then r else Registry(r.live + {name}, r.log + [name])
  }

  function Step(p: Progress, name: string, a: Answer, dryRun: bool): Progress {
    if !a.packs || !a.depsMatch then p.(running := false)
    else if dryRun then p
    else if a.viewAnswers && name in p.registry.live then p.(skipped := p.skipped + 1)
    else Progress(Published(p.registry, name, a.publish), p.skipped, name !in p.registry.live && a.publish.Accepted?)
  }

  /** A run after its first `k` packages. */
  function After(r: Registry, order: seq<string>, answers: seq<Answer>, dryRun: bool, k: nat): Progress
    requires k <= |order|
  {
    if k == 0 then Progress(r, 0, true)
    else
      var p := After(r, order, answers, dryRun, k - 1);
      if !p.running then p
      else if |answers| < k then p.(running := false)
      else Step(p, order[k - 1], answers[k - 1], dryRun)
  }

  /** The registry as an object the release loop talks to. */
  class Npm {
    var live: set<string>
    var log: seq<string>

    ghost function State(): Registry
      reads this
    {
      Registry(live, log)
    }

    /** `npm publish`; true for exit code 0. */
    method Publish(name: string, outcome: PublishOutcome) returns (ok: bool)
      modifies this
      ensures State() == Published(old(State()), name, outcome)
      ensures ok == (name !in old(live) && outcome.Accepted?)
    {
      ok := name !in live && outcome.Accepted?;
      if name !in live && !outcome.Rejected? {
        live, log := live + {name}, log + [name];
      }
    }
  }

  method RunRelease(npm: Npm, order: seq<string>, answers: seq<Answer>, dryRun: bool) returns (done: bool, skipped: nat)
    modifies npm
    ensures Progress(npm.State(), skipped, done) == After(old(npm.State()), order, answers, dryRun, |order|)
  {
    skipped := 0;
    ghost var start := npm.State();
    for i := 0 to |order|
      invariant Progress(npm.State(), skipped, true) == After(start, order, answers, dryRun, i)
    {
      var name := order[i];
      if i >= |answers| {
        StoppedStaysStopped(start, order, answers, dryRun, i + 1, |order|);
        return false, skipped;
      }
      if !answers[i].packs || !answers[i].depsMatch {
        StoppedStaysStopped(start, order, answers, dryRun, i + 1, |order|);
        return false, skipped;
      }
      if dryRun {
        continue;
      }
      if answers[i].viewAnswers && name in npm.live {
        skipped := skipped + 1;
        continue;
      }
      var ok := npm.Publish(name, answers[i].publish);
      if !ok {
        StoppedStaysStopped(start, order, answers, dryRun, i + 1, |order|);
        return false, skipped;
      }
    }
    done := true;
  }

  lemma {:induction false} StoppedStaysStopped(r: Registry, order: seq<string>, answers: seq<Answer>, dryRun: bool, k: nat, n: nat)
    requires k <= n <= |order| && !After(r, order, answers, dryRun, k).running
    ensures After(r, order, answers, dryRun, n) == After(r, order, answers, dryRun, k)
  {
    if k < n {
      StoppedStaysStopped(r, order, answers, dryRun, k, n - 1);
    }
  }

  // ---------------------------------------------------------------- one run

  /** Whatever is on the registry has its workspace dependencies there too. */
  ghost predicate DependencyClosed(packages: Packages, live: set<string>) {
    forall n, d :: n in live && Edge(packages, n, d) ==> d in live
  }

  /** Nothing was accepted twice, and what was accepted is there. */
  ghost predicate PublishedOnce(r: Registry) {
    NoDuplicates(r.log) && forall n :: n in r.log ==> n in r.live
  }

  /** What became live since `before` has its workspace dependencies there. */
  ghost predicate NewOnesClosed(packages: Packages, before: set<string>, live: set<string>) {
    forall n, d :: n in live && n !in before && Edge(packages, n, d) ==> d in live
  }

  /** Wherever a run stops: on a registry of any history, what it published has its dependencies there. */
  lemma {:induction false} RunKeepsRegistry(packages: Packages, r: Registry, order: seq<string>, answers: seq<Answer>, dryRun: bool, k: nat)
    requires k <= |order| && DependenciesFirst(packages, order) && PublishedOnce(r)
    ensures var p := After(r, order, answers, dryRun, k);
            && NewOnesClosed(packages, r.live, p.registry.live) && PublishedOnce(p.registry)
            && (DependencyClosed(packages, r.live) ==> DependencyClosed(packages, p.registry.live))
            && r.live <= p.registry.live
            && (p.running && !dryRun ==> forall n :: n in order[..k] ==> n in p.registry.live)
  {
    if k > 0 {
      RunKeepsRegistry(packages, r, order, answers, dryRun, k - 1);
      var before, p := After(r, order, answers, dryRun, k - 1), After(r, order, answers, dryRun, k);
      assert order[..k] == order[..k - 1] + [order[k - 1]];
      forall n, d | n in p.registry.live && n !in r.live && Edge(packages, n, d) ensures d in p.registry.live {
        if n !in before.registry.live {
          assert n == order[k - 1];
        }
      }
    }
  }

  /** Packages of the first `k` that the registry already had. */
  function AlreadyThere(live: set<string>, order: seq<string>, k: nat): nat
    requires k <= |order|
  {
    if k == 0 then 0 else AlreadyThere(live, order, k - 1) + if order[k - 1] in live then 1 else 0
  }

  /** Everything packs and the registry accepts what it does not have. */
  predicate Cooperative(order: seq<string>, answers: seq<Answer>) {
    && |answers| == |order|
    && forall i :: 0 <= i < |order| ==> answers[i].packs && answers[i].depsMatch && answers[i].publish == Accepted
  }

  predicate ViewTruthful(live: set<string>, order: seq<string>, answers: seq<Answer>, k: nat)
    requires |answers| == |order| && k <= |order|
  {
    forall i :: 0 <= i < k && order[i] in live ==> answers[i].viewAnswers
  }

  lemma {:induction false} CooperativeRun(r: Registry, order: seq<string>, answers: seq<Answer>, k: nat)
    requires Cooperative(order, answers) && NoDuplicates(order) && k <= |order|
    ensures var p := After(r, order, answers, false, k);
            && (p.running <==> ViewTruthful(r.live, order, answers, k))
            && (p.running ==>
                  && p.skipped == AlreadyThere(r.live, order, k)
                  && |p.registry.log| == |r.log| + k - p.skipped
                  && (forall n :: n in p.registry.live <==> n in r.live || n in order[..k]))
  {
    if k > 0 {
      CooperativeRun(r, order, answers, k - 1);
      assert order[..k] == order[..k - 1] + [order[k - 1]];
    }
  }

  /**
   With nothing failing, a run finishes exactly when `npm view` reports every package the registry already has,
   and then the whole line is published: the ones skipped were there, the others were published now.
   */
  lemma RunFinishesIff(packages: Packages, r: Registry, order: seq<string>, answers: seq<Answer>)
    requires Topological(packages, order) && Cooperative(order, answers)
    ensures var p := After(r, order, answers, false, |order|);
            && (p.running <==> ViewTruthful(r.live, order, answers, |order|))
            && (p.running ==>
                  && packages.Keys <= p.registry.live
                  && p.skipped == AlreadyThere(r.live, order, |order|)
                  && |p.registry.log| - |r.log| == |order| - p.skipped)
  {
    CooperativeRun(r, order, answers, |order|);
    assert order[..|order|] == order;
  }

  // ---------------------------------------------------------------- any number of runs

  /** A run on the manifests as they are then. */
  datatype Run = Run(packages: Packages, order: seq<string>, answers: seq<Answer>, dryRun: bool)

  function Runs(r: Registry, runs: seq<Run>): Registry {
    if runs == [] then r
    else
      var last := runs[|runs| - 1];
      After(Runs(r, runs[..|runs| - 1]), last.order, last.answers, last.dryRun, |last.order|).registry
  }

  /** Run `i` is the one that published `n`. */
  ghost predicate PublishedIn(r: Registry, runs: seq<Run>, i: nat, n: string)
    requires i < |runs|
  {
    n !in Runs(r, runs[..i]).live && n in Runs(r, runs[..i + 1]).live
  }

  /** `n` was published in a run by whose manifests all it depended on is live. */
  ghost predicate Accounted(r: Registry, runs: seq<Run>, live: set<string>, n: string) {
    exists i :: 0 <= i < |runs| && PublishedIn(r, runs, i, n) && forall d :: Edge(runs[i].packages, n, d) ==> d in live
  }

  lemma StillAccounted(r: Registry, runs: seq<Run>, before: set<string>, live: set<string>, n: string)
    requires runs != [] && Accounted(r, runs[..|runs| - 1], before, n) && before <= live
    ensures Accounted(r, runs, live, n)
  {
    hide Runs;
    var init := runs[..|runs| - 1];
    var i: nat :| i < |init| && PublishedIn(r, init, i, n) && forall d :: Edge(init[i].packages, n, d) ==> d in before;
    assert init[..i] == runs[..i] && init[..i + 1] == runs[..i + 1] && init[i] == runs[i];
    assert PublishedIn(r, runs, i, n);
  }

  lemma NewlyAccounted(r: Registry, runs: seq<Run>, n: string)
    requires runs != []
    requires var before, live := Runs(r, runs[..|runs| - 1]).live, Runs(r, runs).live;
             n in live && n !in before && NewOnesClosed(runs[|runs| - 1].packages, before, live)
    ensures Accounted(r, runs, Runs(r, runs).live, n)
  {
    hide Runs;
    assert runs[..|runs|] == runs;
    assert PublishedIn(r, runs, |runs| - 1, n);
  }

  /**
   Stopped and re-run at will, with the manifests changed between runs: nothing is published twice, and whatever is
   published has everything there that it depended on in the run that published it.
   */
  lemma {:induction false} RunsKeepRegistry(r: Registry, runs: seq<Run>)
    requires PublishedOnce(r) && forall i :: 0 <= i < |runs| ==> Topological(runs[i].packages, runs[i].order)
    ensures var s := Runs(r, runs);
            && PublishedOnce(s) && r.live <= s.live
            && forall n :: n in s.live && n !in r.live ==> Accounted(r, runs, s.live, n)
  {
    hide PublishedOnce, Accounted, NewOnesClosed, After;
    if runs != [] {
      var init, last := runs[..|runs| - 1], runs[|runs| - 1];
      var before, s := Runs(r, init), Runs(r, runs);
      RunsKeepRegistry(r, init);
      RunKeepsRegistry(last.packages, before, last.order, last.answers, last.dryRun, |last.order|);
      forall n | n in s.live && n !in r.live ensures Accounted(r, runs, s.live, n) {
        if n in before.live {
          StillAccounted(r, runs, before.live, s.live, n);
        } else {
          NewlyAccounted(r, runs, n);
        }
      }
    }
  }

  /** On one set of manifests the registry is therefore closed under dependencies after any runs. */
  lemma RunsKeepClosed(packages: Packages, r: Registry, runs: seq<Run>)
    requires DependencyClosed(packages, r.live) && PublishedOnce(r)
    requires forall i :: 0 <= i < |runs| ==> runs[i].packages == packages && Topological(packages, runs[i].order)
    ensures DependencyClosed(packages, Runs(r, runs).live)
  {
    RunsKeepRegistry(r, runs);
  }

  /** After any such history, one run in which nothing fails and `npm view` is truthful publishes everything. */
  lemma ReleaseCanFinish(packages: Packages, r: Registry, runs: seq<Run>, order: seq<string>, answers: seq<Answer>)
    requires PublishedOnce(r) && forall i :: 0 <= i < |runs| ==> Topological(runs[i].packages, runs[i].order)
    requires Topological(packages, order) && Cooperative(order, answers)
    requires forall i :: 0 <= i < |answers| ==> answers[i].viewAnswers
    ensures var s := Runs(r, runs + [Run(packages, order, answers, false)]);
            packages.Keys <= s.live && PublishedOnce(s)
  {
    var all := runs + [Run(packages, order, answers, false)];
    assert all[..|all| - 1] == runs;
    RunsKeepRegistry(r, all);
    RunFinishesIff(packages, Runs(r, runs), order, answers);
  }
}
