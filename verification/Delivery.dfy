/**
 The network and the result pipeline together: from a job handed to the miner, through the
 queues, the drain and the worker threads, to a strategy, and when that is the one that
 supplied the job.
 */
module Delivery {
  import opened GpuResults
  import opened Jobs
  import M = Miner
  import N = Network
  import P = Pipeline

  /**
   `submitted` and `bundles` list what was handed to the pipeline so far, and `submittedFrom`
   and `bundlesFrom` say from which of the jobs given to the miner each was made. The
   program keeps no such lists; it has only the index inside each result.
   */
  datatype State = State(
    net: N.State,
    pipe: P.State,
    submitted: seq<JobResult>,
    submittedFrom: seq<nat>,
    bundles: seq<P.Bundle>,
    bundlesFrom: seq<nat>)

  function Initial(donates: bool, pools: nat): State {
    State(N.Initial(donates, pools), P.INITIAL, [], [], [], [])
  }

  /** Steps of the network, submissions by workers, and steps of the pipeline alone. */
  datatype Action =
    | Net(step: N.Action)
    | SubmitResult(made: nat, result: JobResult)
    | SubmitBundle(made: nat, backend: nat, nonces: seq<Nonce>)
    | Pipe(action: P.Action)

  /** What the constructor of a result copies from its job (JobResult.h:46-53). */
  predicate FromJob(r: JobResult, job: Job) {
    r.index == job.info.index && r.jobId == job.info.id && r.clientId == job.info.clientId
  }

  function BundleOf(s: State, made: nat, backend: nat, nonces: seq<Nonce>): P.Bundle
    requires made < |s.net.given|
  {
    P.Bundle(s.net.given[made].job.WithBackend(backend), nonces)
  }

  /** A worker submits results of jobs the miner was given, and it may do so long after. */
  predicate Possible(env: Hashes, b: M.Build, s: State, a: Action)
    requires s.net.miner.Valid()
  {
    match a
    case Net(step) => !step.Find? && !step.Deliver? && N.Possible(b, s.net, step)
    case SubmitResult(made, r) =>
      && made < |s.net.given| && FromJob(r, s.net.given[made].job)
      && P.Next(env, s.pipe, P.SubmitResult(r)).Some?
    case SubmitBundle(made, backend, nonces) =>
      made < |s.net.given| && P.Next(env, s.pipe, P.SubmitBundle(BundleOf(s, made, backend, nonces))).Some?
    case Pipe(action) => P.Internal(action) && P.Next(env, s.pipe, action).Some?
  }

  function Repeat(x: nat, n: nat): (r: seq<nat>)
    ensures |r| == n && forall i :: 0 <= i < n ==> r[i] == x
  {
    seq(n, _ => x)
  }

  /** For each result of a baton, the job its bundle was made from. */
  function Sources(env: Hashes, bundles: seq<P.Bundle>, ready: seq<bool>, from: seq<nat>): (r: seq<nat>)
    requires |ready| <= |bundles| <= |from|
    ensures |r| == |P.BatonResults(env, bundles, ready)|
    decreases |ready|
  {
    if ready == [] then []
    else
      var n := |ready| - 1;
      Sources(env, bundles, ready[..n], from)
      + Repeat(from[n], |Results(env, bundles[n].job, bundles[n].nonces, ready[n])|)
  }

  /** The calls of `onJobResult` in a step of the pipeline, with the job each result was made from. */
  function Handed(env: Hashes, s: State, a: P.Action): seq<N.Result> {
    match a
    case Deliver =>
      var n := |P.DirectPart(s.pipe.delivered)|;
      if s.pipe.drain.Delivering? && s.pipe.drain.results != [] && n < |s.submittedFrom|
      then [N.Result(s.submittedFrom[n], s.pipe.drain.results[0].index)] else []
    case Finish(k) =>
      if k < |s.pipe.batons| then
        var baton := s.pipe.batons[k];
        var first := |P.AllBundles(s.pipe.batons[..k])|;
        if first + |baton.bundles| <= |s.bundlesFrom| && P.BatonInv(env, baton) then
          var from := Sources(env, baton.bundles, baton.ready, s.bundlesFrom[first..]);
          seq(|baton.results|, i requires 0 <= i < |baton.results| => N.Result(from[i], baton.results[i].index))
        else []
      else []
    case _ => []
  }

  function Send(net: N.State, results: seq<N.Result>): (t: N.State)
    ensures t.miner == net.miner && t.strategy == net.strategy && t.given == net.given
    decreases |results|
  {
    if results == [] then net else N.ResultSeen(Send(net, results[..|results| - 1]), results[|results| - 1])
  }

  function Next(env: Hashes, b: M.Build, s: State, a: Action): (t: State)
    requires s.net.miner.Valid() && Possible(env, b, s, a)
    ensures t.net.miner.Valid()
  {
    match a
    case Net(step) => s.(net := N.Next(b, s.net, step))
    case SubmitResult(made, r) =>
      s.(pipe := P.Next(env, s.pipe, P.SubmitResult(r)).value,
         submitted := s.submitted + [r], submittedFrom := s.submittedFrom + [made])
    case SubmitBundle(made, backend, nonces) =>
      var bundle := BundleOf(s, made, backend, nonces);
      s.(pipe := P.Next(env, s.pipe, P.SubmitBundle(bundle)).value,
         bundles := s.bundles + [bundle], bundlesFrom := s.bundlesFrom + [made])
    case Pipe(action) =>
      s.(pipe := P.Next(env, s.pipe, action).value, net := Send(s.net, Handed(env, s, action)))
  }

  // ---- What every run keeps ----

  /** What was submitted comes from jobs the miner was given. */
  predicate Traced(s: State) {
    && |s.submittedFrom| == |s.submitted| && |s.bundlesFrom| == |s.bundles|
    && (forall n :: 0 <= n < |s.submitted| ==> ResultFrom(s, s.submitted[n], s.submittedFrom[n]))
    && (forall m :: 0 <= m < |s.bundles| ==> BundleFrom(s, s.bundles[m], s.bundlesFrom[m]))
  }

  predicate ResultFrom(s: State, r: JobResult, made: nat) {
    made < |s.net.given| && FromJob(r, s.net.given[made].job)
  }

  predicate BundleFrom(s: State, bundle: P.Bundle, made: nat) {
    made < |s.net.given| && bundle.job == s.net.given[made].job.WithBackend(bundle.job.info.backend)
  }

  /** Every delivery is one call of `submit`, in order, for the job the result was made from. */
  predicate Passed(s: State) {
    && |s.net.sent| == |s.pipe.delivered|
    && forall i :: 0 <= i < |s.pipe.delivered| ==>
         ResultFrom(s, s.pipe.delivered[i].result, s.net.sent[i].result.made)
  }

  predicate Inv(env: Hashes, s: State) {
    N.Routed(s.net) && P.Conserved(env, s.pipe, s.submitted, s.bundles) && Traced(s) && Passed(s)
  }

  lemma {:induction false} TracedGrows(s: State, t: State)
    requires Traced(s) && s.net.given <= t.net.given
    requires t.submitted == s.submitted && t.submittedFrom == s.submittedFrom
    requires t.bundles == s.bundles && t.bundlesFrom == s.bundlesFrom
    ensures Traced(t)
  {
    forall n | 0 <= n < |t.submitted|
      ensures ResultFrom(t, t.submitted[n], t.submittedFrom[n])
    {
      assert ResultFrom(s, s.submitted[n], s.submittedFrom[n]);
    }
    forall m | 0 <= m < |t.bundles|
      ensures BundleFrom(t, t.bundles[m], t.bundlesFrom[m])
    {
      assert BundleFrom(s, s.bundles[m], s.bundlesFrom[m]);
    }
  }

  lemma {:induction false} PassedGrows(s: State, t: State)
    requires Passed(s) && s.net.given <= t.net.given
    requires t.net.sent == s.net.sent && t.pipe.delivered == s.pipe.delivered
    ensures Passed(t)
  {
    forall i | 0 <= i < |t.pipe.delivered|
      ensures ResultFrom(t, t.pipe.delivered[i].result, t.net.sent[i].result.made)
    {
      assert ResultFrom(s, s.pipe.delivered[i].result, s.net.sent[i].result.made);
    }
  }

  lemma {:induction false} NetKeeps(env: Hashes, b: M.Build, s: State, step: N.Action)
    requires Inv(env, s) && s.net.miner.Valid() && Possible(env, b, s, Net(step))
    ensures Inv(env, Next(env, b, s, Net(step)))
  {
    N.StepKeeps(b, s.net, step);
    N.GivenGrows(b, s.net, step);
    N.SentKept(b, s.net, step);
    hide N.Routed, N.Next, N.Possible, P.Conserved, Traced, Passed;
    var t := Next(env, b, s, Net(step));
    TracedGrows(s, t);
    PassedGrows(s, t);
  }

  lemma {:induction false} ResultTraced(s: State, t: State, r: JobResult, made: nat)
    requires Traced(s) && ResultFrom(s, r, made) && t.net == s.net
    requires t.submitted == s.submitted + [r] && t.submittedFrom == s.submittedFrom + [made]
    requires t.bundles == s.bundles && t.bundlesFrom == s.bundlesFrom
    ensures Traced(t)
  {
    forall n | 0 <= n < |t.submitted|
      ensures ResultFrom(t, t.submitted[n], t.submittedFrom[n])
    {
      assert n < |s.submitted| ==> ResultFrom(s, s.submitted[n], s.submittedFrom[n]);
    }
    forall m | 0 <= m < |t.bundles|
      ensures BundleFrom(t, t.bundles[m], t.bundlesFrom[m])
    {
      assert BundleFrom(s, s.bundles[m], s.bundlesFrom[m]);
    }
  }

  lemma {:induction false} BundleTraced(s: State, t: State, bundle: P.Bundle, made: nat)
    requires Traced(s) && BundleFrom(s, bundle, made) && t.net == s.net
    requires t.bundles == s.bundles + [bundle] && t.bundlesFrom == s.bundlesFrom + [made]
    requires t.submitted == s.submitted && t.submittedFrom == s.submittedFrom
    ensures Traced(t)
  {
    forall n | 0 <= n < |t.submitted|
      ensures ResultFrom(t, t.submitted[n], t.submittedFrom[n])
    {
      assert ResultFrom(s, s.submitted[n], s.submittedFrom[n]);
    }
    forall m | 0 <= m < |t.bundles|
      ensures BundleFrom(t, t.bundles[m], t.bundlesFrom[m])
    {
      assert m < |s.bundles| ==> BundleFrom(s, s.bundles[m], s.bundlesFrom[m]);
    }
  }

  lemma {:induction false} ResultKeeps(env: Hashes, b: M.Build, s: State, made: nat, r: JobResult)
    requires Inv(env, s) && s.net.miner.Valid() && Possible(env, b, s, SubmitResult(made, r))
    ensures Inv(env, Next(env, b, s, SubmitResult(made, r)))
  {
    var step := P.SubmitResult(r);
    var t := Next(env, b, s, SubmitResult(made, r));
    hide P.Conserved, P.Next, N.Routed, P.SubmittedResults, P.SubmittedBundles, Traced, Passed;
    P.StepKeeps(env, s.pipe, step, s.submitted, s.bundles);
    SubmittedOne(step);
    DeliveredKept(env, s.pipe, step);
    assert s.bundles + [] == s.bundles && s.pipe.delivered + [] == s.pipe.delivered;
    ResultTraced(s, t, r, made);
    PassedGrows(s, t);
  }

  lemma {:induction false} BundleKeeps(env: Hashes, b: M.Build, s: State, made: nat, backend: nat, nonces: seq<Nonce>)
    requires Inv(env, s) && s.net.miner.Valid() && Possible(env, b, s, SubmitBundle(made, backend, nonces))
    ensures Inv(env, Next(env, b, s, SubmitBundle(made, backend, nonces)))
  {
    var bundle := BundleOf(s, made, backend, nonces);
    var step := P.SubmitBundle(bundle);
    var t := Next(env, b, s, SubmitBundle(made, backend, nonces));
    assert BundleFrom(s, bundle, made);
    hide P.Conserved, P.Next, N.Routed, P.SubmittedResults, P.SubmittedBundles, Traced, Passed, BundleOf, BundleFrom;
    P.StepKeeps(env, s.pipe, step, s.submitted, s.bundles);
    SubmittedOne(step);
    DeliveredKept(env, s.pipe, step);
    assert s.submitted + [] == s.submitted && s.pipe.delivered + [] == s.pipe.delivered;
    BundleTraced(s, t, bundle, made);
    PassedGrows(s, t);
  }

  lemma {:induction false} SubmittedOne(a: P.Action)
    ensures P.SubmittedResults([a]) == if a.SubmitResult? then [a.result] else []
    ensures P.SubmittedBundles([a]) == if a.SubmitBundle? then [a.bundle] else []
  {
    assert [a][1..] == [];
  }

  /** Only two kinds of steps deliver. */
  lemma {:induction false} DeliveredKept(env: Hashes, s: P.State, a: P.Action)
    requires P.Next(env, s, a).Some?
    ensures P.Next(env, s, a).value.delivered == s.delivered + Deliveries(s, a)
  {
    hide Results, Errors;
    assert s.delivered + [] == s.delivered;
  }

  // ---- Sending ----

  lemma {:induction false} SendKeeps(net: N.State, results: seq<N.Result>)
    requires N.Routed(net) && forall i :: 0 <= i < |results| ==> N.ResultSound(net, results[i])
    ensures var t := Send(net, results);
            && N.Routed(t) && t.given == net.given && t.miner == net.miner
            && |t.sent| == |net.sent| + |results| && t.sent[..|net.sent|] == net.sent
            && forall i :: 0 <= i < |results| ==> t.sent[|net.sent| + i].result == results[i]
    decreases |results|
  {
    hide N.Routed;
    if results != [] {
      var n := |results| - 1;
      SendKeeps(net, results[..n]);
      N.ResultKeeps(Send(net, results[..n]), results[n]);
    }
  }

  /** A step that hands over results of jobs they were made from. */
  lemma {:induction false} PassOn(env: Hashes, s: State, t: State, handed: seq<N.Result>, delivered: seq<P.Delivery>)
    requires N.Routed(s.net) && Passed(s) && |handed| == |delivered|
    requires forall i :: 0 <= i < |handed| ==>
               ResultFrom(s, delivered[i].result, handed[i].made) && handed[i].index == delivered[i].result.index
    requires t.net == Send(s.net, handed) && t.pipe.delivered == s.pipe.delivered + delivered
    ensures N.Routed(t.net) && t.net.given == s.net.given && t.net.miner == s.net.miner && Passed(t)
  {
    PassOnSound(env, s, handed, delivered);
    SendKeeps(s.net, handed);
    hide N.Routed, Send;
    forall i | 0 <= i < |t.pipe.delivered|
      ensures ResultFrom(t, t.pipe.delivered[i].result, t.net.sent[i].result.made)
    {
      var m := |s.pipe.delivered|;
      if i < m {
        assert ResultFrom(s, s.pipe.delivered[i].result, s.net.sent[i].result.made);
        assert t.net.sent[i] == t.net.sent[..|s.net.sent|][i];
      } else {
        assert ResultFrom(s, delivered[i - m].result, handed[i - m].made);
        assert t.net.sent[|s.net.sent| + (i - m)].result == handed[i - m];
      }
    }
  }

  lemma {:induction false} PassOnSound(env: Hashes, s: State, handed: seq<N.Result>, delivered: seq<P.Delivery>)
    requires |handed| == |delivered|
    requires forall i :: 0 <= i < |handed| ==>
               ResultFrom(s, delivered[i].result, handed[i].made) && handed[i].index == delivered[i].result.index
    ensures forall i :: 0 <= i < |handed| ==> N.ResultSound(s.net, handed[i])
  {
    forall i | 0 <= i < |handed|
      ensures N.ResultSound(s.net, handed[i])
    {
      assert ResultFrom(s, delivered[i].result, handed[i].made);
    }
  }

  // ---- Where delivered results come from ----

  /** The next result of the drain is the one submitted after those already delivered. */
  lemma {:induction false} DirectSource(env: Hashes, s: State)
    requires Inv(env, s) && P.Next(env, s.pipe, P.Deliver).Some?
    ensures var handed := Handed(env, s, P.Deliver);
            && |handed| == 1 && ResultFrom(s, s.pipe.drain.results[0], handed[0].made)
            && handed[0].index == s.pipe.drain.results[0].index
  {
    hide N.Routed, P.BatonsKept, P.BundlesKept, P.WakeupKept, P.DirectPart;
    var done := P.DirectPart(s.pipe.delivered);
    var n := |done|;
    assert s.submitted == done + s.pipe.drain.results + s.pipe.results;
    assert s.submitted[n] == s.pipe.drain.results[0];
    assert ResultFrom(s, s.submitted[n], s.submittedFrom[n]);
  }

  lemma {:induction false} BatonSlice(batons: seq<P.Baton>, k: nat)
    requires k < |batons|
    ensures var first := |P.AllBundles(batons[..k])|;
            && first + |batons[k].bundles| <= |P.AllBundles(batons)|
            && P.AllBundles(batons)[first..first + |batons[k].bundles|] == batons[k].bundles
    decreases |batons|
  {
    var n := |batons| - 1;
    var init, last := P.AllBundles(batons[..n]), batons[n].bundles;
    assert P.AllBundles(batons) == init + last;
    hide P.AllBundles;
    if k < n {
      BatonSlice(batons[..n], k);
      assert batons[..n][..k] == batons[..k];
      var first, len := |P.AllBundles(batons[..k])|, |batons[k].bundles|;
      assert (init + last)[first..first + len] == init[first..first + len];
    } else {
      assert (init + last)[|init|..|init| + |last|] == last;
    }
  }

  lemma {:induction false} SourceOfResults(env: Hashes, s: State, bundle: P.Bundle, made: nat, ready: bool)
    requires BundleFrom(s, bundle, made)
    ensures forall r <- Results(env, bundle.job, bundle.nonces, ready) :: ResultFrom(s, r, made)
  {
    ResultsKeepJob(env, bundle.job, bundle.nonces, ready);
  }

  predicate AllFrom(s: State, results: seq<JobResult>, made: seq<nat>) {
    |results| == |made| && forall i :: 0 <= i < |results| ==> ResultFrom(s, results[i], made[i])
  }

  lemma {:induction false} SourcesFit(env: Hashes, s: State, bundles: seq<P.Bundle>, ready: seq<bool>, from: seq<nat>)
    requires |ready| <= |bundles| <= |from|
    requires forall m :: 0 <= m < |bundles| ==> BundleFrom(s, bundles[m], from[m])
    ensures AllFrom(s, P.BatonResults(env, bundles, ready), Sources(env, bundles, ready, from))
    decreases |ready|
  {
    hide Results, BundleFrom, ResultFrom;
    if ready != [] {
      var n := |ready| - 1;
      var before, made := P.BatonResults(env, bundles, ready[..n]), Sources(env, bundles, ready[..n], from);
      SourcesFit(env, s, bundles, ready[..n], from);
      SourceOfResults(env, s, bundles[n], from[n], ready[n]);
      AppendFits(s, before, made, Results(env, bundles[n].job, bundles[n].nonces, ready[n]), from[n]);
    }
  }

  lemma {:induction false} AppendFits(s: State, results: seq<JobResult>, made: seq<nat>, last: seq<JobResult>,
          source: nat)
    requires AllFrom(s, results, made) && forall r <- last :: ResultFrom(s, r, source)
    ensures AllFrom(s, results + last, made + Repeat(source, |last|))
  {
    hide ResultFrom;
    var all, sources := results + last, made + Repeat(source, |last|);
    forall i | 0 <= i < |all|
      ensures ResultFrom(s, all[i], sources[i])
    {
      var n := |results|;
      if i >= n {
        assert all[i] == last[i - n] && sources[i] == source;
      }
    }
  }

  lemma {:induction false} ComputedSource(env: Hashes, s: State, k: nat)
    requires Inv(env, s) && P.Next(env, s.pipe, P.Finish(k)).Some?
    ensures var handed := Handed(env, s, P.Finish(k));
            var results := s.pipe.batons[k].results;
            && |handed| == |results|
            && forall i :: 0 <= i < |results| ==>
                 ResultFrom(s, results[i], handed[i].made) && handed[i].index == results[i].index
  {
    hide N.Routed, P.ResultsKept, P.WakeupKept, P.AllBundles, Sources, P.BatonInv, BundleFrom, ResultFrom;
    var batons := s.pipe.batons;
    var baton := batons[k];
    assert P.BatonInv(env, baton);
    BatonSlice(batons, k);
    var first := |P.AllBundles(batons[..k])|;
    var all := P.AllBundles(batons);
    assert s.bundles == all + P.DrainBundles(s.pipe.drain) + s.pipe.bundles;
    var from := s.bundlesFrom[first..];
    forall m | 0 <= m < |baton.bundles|
      ensures BundleFrom(s, baton.bundles[m], from[m])
    {
      assert all[first..first + |baton.bundles|][m] == all[first + m] == s.bundles[first + m];
      assert BundleFrom(s, s.bundles[first + m], s.bundlesFrom[first + m]);
    }
    FinishHands(env, s, k, first, from);
  }

  lemma {:induction false} FinishHands(env: Hashes, s: State, k: nat, first: nat, from: seq<nat>)
    requires k < |s.pipe.batons| && first == |P.AllBundles(s.pipe.batons[..k])|
    requires first + |s.pipe.batons[k].bundles| <= |s.bundlesFrom| && from == s.bundlesFrom[first..]
    requires P.BatonInv(env, s.pipe.batons[k])
    requires forall m :: 0 <= m < |s.pipe.batons[k].bundles| ==> BundleFrom(s, s.pipe.batons[k].bundles[m], from[m])
    ensures var handed := Handed(env, s, P.Finish(k));
            var results := s.pipe.batons[k].results;
            && |handed| == |results|
            && forall i :: 0 <= i < |results| ==>
                 ResultFrom(s, results[i], handed[i].made) && handed[i].index == results[i].index
  {
    var baton := s.pipe.batons[k];
    assert |baton.ready| <= |baton.bundles| && baton.results == P.BatonResults(env, baton.bundles, baton.ready);
    SourcesFit(env, s, baton.bundles, baton.ready, from);
    hide P.AllBundles, Sources, P.BatonResults, P.BatonErrors, P.BatonInv, BundleFrom, ResultFrom;
    var made := Sources(env, baton.bundles, baton.ready, from);
    var handed := Handed(env, s, P.Finish(k));
    assert |handed| == |baton.results|;
    forall i | 0 <= i < |baton.results|
      ensures ResultFrom(s, baton.results[i], handed[i].made) && handed[i].index == baton.results[i].index
    {
      assert handed[i] == N.Result(made[i], baton.results[i].index);
    }
  }

  /** The deliveries of a step of the pipeline. */
  function Deliveries(s: P.State, a: P.Action): seq<P.Delivery> {
    match a
    case Deliver => if s.drain.Delivering? && s.drain.results != [] then [P.Direct(s.drain.results[0])] else []
    case Finish(k) => if k < |s.batons| then P.ComputedBy(k, s.batons[k].results) else []
    case _ => []
  }

  lemma {:induction false} StepSource(env: Hashes, s: State, a: P.Action)
    requires Inv(env, s) && P.Next(env, s.pipe, a).Some?
    ensures var handed, delivered := Handed(env, s, a), Deliveries(s.pipe, a);
            && |handed| == |delivered|
            && forall i :: 0 <= i < |handed| ==>
                 ResultFrom(s, delivered[i].result, handed[i].made) && handed[i].index == delivered[i].result.index
  {
    if a.Deliver? {
      DirectSource(env, s);
      hide Handed, Inv, ResultFrom;
    } else if a.Finish? {
      ComputedSource(env, s, a.baton);
      hide Handed, Inv, ResultFrom;
    }
  }

  lemma {:induction false} PipeKeeps(env: Hashes, b: M.Build, s: State, a: P.Action)
    requires Inv(env, s) && s.net.miner.Valid() && Possible(env, b, s, Pipe(a))
    ensures Inv(env, Next(env, b, s, Pipe(a)))
  {
    var t := Next(env, b, s, Pipe(a));
    var handed, delivered := Handed(env, s, a), Deliveries(s.pipe, a);
    StepSource(env, s, a);
    hide P.Conserved, P.Next, N.Routed, P.SubmittedResults, P.SubmittedBundles, Handed, Send, Traced, Passed;
    P.StepKeeps(env, s.pipe, a, s.submitted, s.bundles);
    SubmittedOne(a);
    DeliveredKept(env, s.pipe, a);
    assert s.submitted + [] == s.submitted && s.bundles + [] == s.bundles;
    hide Deliveries, ResultFrom;
    PassOn(env, s, t, handed, delivered);
    TracedGrows(s, t);
  }

  // ---- Runs of both together ----

  ghost predicate Through(env: Hashes, b: M.Build, s: State, actions: seq<Action>)
    requires s.net.miner.Valid()
    decreases |actions|
  {
    actions == [] ||
    (Possible(env, b, s, actions[0]) && Through(env, b, Next(env, b, s, actions[0]), actions[1..]))
  }

  /** The state after `k` of the steps. */
  ghost function At(env: Hashes, b: M.Build, s: State, actions: seq<Action>, k: nat): (t: State)
    requires s.net.miner.Valid() && k <= |actions| && Through(env, b, s, actions)
    ensures t.net.miner.Valid()
    decreases k
  {
    if k == 0 then s else At(env, b, Next(env, b, s, actions[0]), actions[1..], k - 1)
  }

  lemma {:induction false} AtStep(env: Hashes, b: M.Build, s: State, actions: seq<Action>, k: nat)
    requires s.net.miner.Valid() && k < |actions| && Through(env, b, s, actions)
    ensures var u := At(env, b, s, actions, k);
            Possible(env, b, u, actions[k]) && At(env, b, s, actions, k + 1) == Next(env, b, u, actions[k])
    decreases k
  {
    hide Next, Possible;
    if k > 0 {
      AtStep(env, b, Next(env, b, s, actions[0]), actions[1..], k - 1);
    }
  }

  lemma {:induction false} StepKeeps(env: Hashes, b: M.Build, s: State, a: Action)
    requires s.net.miner.Valid() && Inv(env, s) && Possible(env, b, s, a)
    ensures Inv(env, Next(env, b, s, a))
  {
    hide Inv, Next, Possible;
    match a
    case Net(step) => NetKeeps(env, b, s, step);
    case Pipe(p) => PipeKeeps(env, b, s, p);
    case SubmitResult(made, r) => ResultKeeps(env, b, s, made, r);
    case SubmitBundle(made, backend, nonces) => BundleKeeps(env, b, s, made, backend, nonces);
  }

  lemma {:induction false} AlwaysInv(env: Hashes, b: M.Build, s: State, actions: seq<Action>, k: nat)
    requires s.net.miner.Valid() && Inv(env, s) && Through(env, b, s, actions) && k <= |actions|
    ensures Inv(env, At(env, b, s, actions, k))
    decreases k
  {
    hide Inv, Next, Possible;
    if k > 0 {
      AlwaysInv(env, b, s, actions, k - 1);
      AtStep(env, b, s, actions, k - 1);
      StepKeeps(env, b, At(env, b, s, actions, k - 1), actions[k - 1]);
    }
  }

  /**
   Over all interleavings of pools, miner, workers, queues and batons: every result
   delivered, straight from the queue or by a baton, is submitted once and was made from a
   job given to the miner; donated ones go to the donate strategy.
   */
  lemma {:induction false} DeliveredOnce(env: Hashes, b: M.Build, donates: bool, pools: nat, actions: seq<Action>)
    requires Through(env, b, Initial(donates, pools), actions)
    ensures var t := At(env, b, Initial(donates, pools), actions, |actions|);
            && |t.net.sent| == |t.pipe.delivered|
            && forall i :: 0 <= i < |t.net.sent| ==>
                 var e := t.net.sent[i];
                 && ResultFrom(t, t.pipe.delivered[i].result, e.result.made)
                 && e.target == if t.net.given[e.result.made].supplier.FromDonate? then N.ToDonate else N.ToMain(e.main)
  {
    AlwaysInv(env, b, Initial(donates, pools), actions, |actions|);
    var t := At(env, b, Initial(donates, pools), actions, |actions|);
    hide At, Through;
    forall i | 0 <= i < |t.net.sent|
      ensures N.SentSound(t.net, t.net.sent[i])
    {
      assert t.net.sent[i] in t.net.sent;
    }
  }

  // ---- Whose job it was, and who gets the result ----

  predicate Replaces(a: Action) {
    a.Net? && N.Replaces(a.step)
  }

  /** The pools are replaced by one of the steps from `j` up to but not including `k`. */
  predicate Replaced(actions: seq<Action>, j: nat, k: nat)
    requires k <= |actions|
  {
    exists m :: j <= m < k && Replaces(actions[m])
  }

  /** Step `g` gives the miner the job with number `made`. */
  ghost predicate Gives(env: Hashes, b: M.Build, s: State, actions: seq<Action>, g: nat, made: nat)
    requires s.net.miner.Valid() && Through(env, b, s, actions)
  {
    g < |actions|
    && |At(env, b, s, actions, g).net.given| <= made < |At(env, b, s, actions, g + 1).net.given|
  }

  /** Step `d` makes the call of `submit` with number `i`. */
  ghost predicate Submits(env: Hashes, b: M.Build, s: State, actions: seq<Action>, d: nat, i: nat)
    requires s.net.miner.Valid() && Through(env, b, s, actions)
  {
    d < |actions|
    && |At(env, b, s, actions, d).net.sent| <= i < |At(env, b, s, actions, d + 1).net.sent|
  }

  /** What any step does to the history, and to the number of the main strategy. */
  lemma {:induction false} HistoryStep(env: Hashes, b: M.Build, s: State, a: Action)
    requires s.net.miner.Valid() && Possible(env, b, s, a)
    ensures var t := Next(env, b, s, a);
            && t.net.strategy.id == s.net.strategy.id + (if Replaces(a) then 1 else 0)
            && s.net.given <= t.net.given && s.net.sent <= t.net.sent
            && (Replaces(a) || s.net.sent != t.net.sent ==> t.net.given == s.net.given)
            && (Replaces(a) ==> t.net.sent == s.net.sent)
            && (forall k :: |s.net.given| <= k < |t.net.given| ==>
                  t.net.given[k].supplier.FromDonate? || t.net.given[k].supplier == N.FromMain(s.net.strategy.id))
            && (forall k :: |s.net.sent| <= k < |t.net.sent| ==> t.net.sent[k].main == s.net.strategy.id)
  {
    if a.Net? {
      N.StrategyStep(b, s.net, a.step);
      N.SentKept(b, s.net, a.step);
      hide N.Next, N.Possible;
    } else if a.Pipe? {
      SendAdds(s.net, Handed(env, s, a.action));
      hide P.Next, Send, Handed;
    } else {
      hide P.Next;
    }
  }

  lemma {:induction false} SendAdds(net: N.State, results: seq<N.Result>)
    ensures var t := Send(net, results);
            && net.sent <= t.sent
            && forall k :: |net.sent| <= k < |t.sent| ==> t.sent[k].main == net.strategy.id
    decreases |results|
  {
    if results != [] {
      SendAdds(net, results[..|results| - 1]);
    }
  }

  /** Between two moments of a run the main strategy stays the same if and only if no pools are replaced. */
  lemma {:induction false} Between(env: Hashes, b: M.Build, s: State, actions: seq<Action>, j: nat, k: nat)
    requires s.net.miner.Valid() && Through(env, b, s, actions) && j <= k <= |actions|
    ensures var u, t := At(env, b, s, actions, j).net, At(env, b, s, actions, k).net;
            && u.given <= t.given && u.sent <= t.sent && u.strategy.id <= t.strategy.id
            && (u.strategy.id == t.strategy.id <==> !Replaced(actions, j, k))
    decreases k
  {
    hide Next, Possible, At, Through;
    if j < k {
      Between(env, b, s, actions, j, k - 1);
      AtStep(env, b, s, actions, k - 1);
      HistoryStep(env, b, At(env, b, s, actions, k - 1), actions[k - 1]);
      assert Replaced(actions, j, k) <==> Replaced(actions, j, k - 1) || Replaces(actions[k - 1]);
    }
  }

  /** A result is made from a job given before the step that submits it. */
  lemma {:induction false} MadeBefore(env: Hashes, b: M.Build, s: State, actions: seq<Action>, d: nat, i: nat)
    requires s.net.miner.Valid() && Inv(env, s) && Through(env, b, s, actions) && Submits(env, b, s, actions, d, i)
    ensures At(env, b, s, actions, d + 1).net.sent[i].result.made < |At(env, b, s, actions, d).net.given|
  {
    AlwaysInv(env, b, s, actions, d + 1);
    AtStep(env, b, s, actions, d);
    var before, after := At(env, b, s, actions, d), At(env, b, s, actions, d + 1);
    hide Next, Possible, At, Through;
    HistoryStep(env, b, before, actions[d]);
    assert after.net.sent[i] in after.net.sent;
    assert N.SentSound(after.net, after.net.sent[i]);
  }

  /** The job was given by the main strategy of that moment, if it was not donated. */
  lemma {:induction false} GivenAt(env: Hashes, b: M.Build, s: State, actions: seq<Action>, g: nat, made: nat)
    requires s.net.miner.Valid() && Through(env, b, s, actions) && Gives(env, b, s, actions, g, made)
    ensures var t, u := At(env, b, s, actions, |actions|).net, At(env, b, s, actions, g).net;
            && made < |t.given|
            && (t.given[made].supplier.FromDonate? || t.given[made].supplier == N.FromMain(u.strategy.id))
  {
    AtStep(env, b, s, actions, g);
    hide Next, Possible, At, Through;
    var u, v := At(env, b, s, actions, g), At(env, b, s, actions, g + 1);
    HistoryStep(env, b, u, actions[g]);
    Between(env, b, s, actions, g + 1, |actions|);
    assert At(env, b, s, actions, |actions|).net.given[made] == v.net.given[made];
  }

  /** The result was submitted while that main strategy was in place, and made from a job given before. */
  lemma {:induction false} SubmittedAt(env: Hashes, b: M.Build, s: State, actions: seq<Action>, d: nat, i: nat)
    requires s.net.miner.Valid() && Inv(env, s) && Through(env, b, s, actions) && Submits(env, b, s, actions, d, i)
    ensures var t, u := At(env, b, s, actions, |actions|).net, At(env, b, s, actions, d).net;
            i < |t.sent| && t.sent[i].main == u.strategy.id && t.sent[i].result.made < |u.given|
  {
    MadeBefore(env, b, s, actions, d, i);
    AtStep(env, b, s, actions, d);
    hide Next, Possible, At, Through, Inv;
    var u, v := At(env, b, s, actions, d), At(env, b, s, actions, d + 1);
    HistoryStep(env, b, u, actions[d]);
    Between(env, b, s, actions, d + 1, |actions|);
    assert At(env, b, s, actions, |actions|).net.sent[i] == v.net.sent[i];
  }

  /**
   Main result: over all interleavings, a result reaches the strategy that supplied its job if
   and only if that was the donate strategy or the pools were not replaced between the step
   that gave the job to the miner and the one that submitted the result.
   */
  lemma {:induction false} BackToItsSupplier(
      env: Hashes, b: M.Build, donates: bool, pools: nat, actions: seq<Action>, i: nat, g: nat, d: nat)
    requires Through(env, b, Initial(donates, pools), actions)
    requires var s := Initial(donates, pools);
             var t := At(env, b, s, actions, |actions|).net;
             && i < |t.sent|
             && Gives(env, b, s, actions, g, t.sent[i].result.made) && Submits(env, b, s, actions, d, i)
    ensures g < d
    ensures var t := At(env, b, Initial(donates, pools), actions, |actions|).net;
            var e := t.sent[i];
            && e.result.made < |t.given|
            && (e.target == N.Home(t.given[e.result.made].supplier)
                <==> t.given[e.result.made].supplier.FromDonate? || !Replaced(actions, g, d))
  {
    var s, n := Initial(donates, pools), |actions|;
    DeliveredOnce(env, b, donates, pools, actions);
    SubmittedAt(env, b, s, actions, d, i);
    var made := At(env, b, s, actions, n).net.sent[i].result.made;
    GivenAt(env, b, s, actions, g, made);
    hide Next, Possible, At, Through, Replaced;
    if d <= g {
      Between(env, b, s, actions, d, g);
      assert false;
    }
    Between(env, b, s, actions, g, d);
  }

  lemma {:induction false} GivenBy(env: Hashes, b: M.Build, s: State, actions: seq<Action>, k: nat, made: nat)
    returns (g: nat)
    requires s.net.miner.Valid() && Through(env, b, s, actions) && k <= |actions|
    requires |s.net.given| <= made < |At(env, b, s, actions, k).net.given|
    ensures Gives(env, b, s, actions, g, made)
    decreases k
  {
    hide Next, Possible, Through;
    if made < |At(env, b, s, actions, k - 1).net.given| {
      g := GivenBy(env, b, s, actions, k - 1, made);
    } else {
      g := k - 1;
    }
  }

  lemma {:induction false} SubmittedBy(env: Hashes, b: M.Build, s: State, actions: seq<Action>, k: nat, i: nat)
    returns (d: nat)
    requires s.net.miner.Valid() && Through(env, b, s, actions) && k <= |actions|
    requires |s.net.sent| <= i < |At(env, b, s, actions, k).net.sent|
    ensures Submits(env, b, s, actions, d, i)
    decreases k
  {
    hide Next, Possible, Through;
    if i < |At(env, b, s, actions, k - 1).net.sent| {
      d := SubmittedBy(env, b, s, actions, k - 1, i);
    } else {
      d := k - 1;
    }
  }

  /** For every call of `submit` there are such steps. */
  lemma {:induction false} EveryResult(env: Hashes, b: M.Build, donates: bool, pools: nat, actions: seq<Action>, i: nat)
    returns (g: nat, d: nat)
    requires Through(env, b, Initial(donates, pools), actions)
    requires i < |At(env, b, Initial(donates, pools), actions, |actions|).net.sent|
    ensures var s := Initial(donates, pools);
            var t := At(env, b, s, actions, |actions|).net;
            && Gives(env, b, s, actions, g, t.sent[i].result.made) && Submits(env, b, s, actions, d, i)
  {
    var s := Initial(donates, pools);
    DeliveredOnce(env, b, donates, pools, actions);
    hide At, Through, Gives, Submits, Passed, Traced;
    g := GivenBy(env, b, s, actions, |actions|, At(env, b, s, actions, |actions|).net.sent[i].result.made);
    d := SubmittedBy(env, b, s, actions, |actions|, i);
  }
}
