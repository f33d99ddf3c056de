/**
 The way of a result from the threads that find it to the listener
 (`src/net/JobResults.cpp:198-303`, with GPU support): a queue under a mutex, a wakeup
 that coalesces, a consumer that swaps the queues out, and batons that a worker thread
 finishes later. Every action of a thread is a step; steps interleave freely.
 */
module Pipeline {
  import opened GpuResults
  import opened Jobs
  import opened Options

  /** `JobBundle`, as a value. */
  datatype Bundle = Bundle(job: Job, nonces: seq<Nonce>)

  /** `JobBaton`; `ready` records, for the bundles done so far, whether there was a dataset. */
  datatype Baton = Baton(bundles: seq<Bundle>, ready: seq<bool>, results: seq<JobResult>, errors: nat, finished: bool)

  /** The mutex: free, or held by a producer that has pushed, or pushed and sent. */
  datatype Lock = Free | Pushed | Sent

  /** The loop thread, in `onAsync`: not at all, before the swap, or between swap and return. */
  datatype Drain = Asleep | Woken | Delivering(results: seq<JobResult>, bundles: seq<Bundle>)

  /** A call of `onJobResult`, from the queue or when a baton finishes. */
  datatype Delivery = Direct(result: JobResult) | Computed(baton: nat, result: JobResult)

  datatype State = State(
    results: seq<JobResult>,
    bundles: seq<Bundle>,
    lock: Lock,
    pending: bool,
    drain: Drain,
    batons: seq<Baton>,
    delivered: seq<Delivery>)

  const INITIAL := State([], [], Free, false, Asleep, [], [])

  datatype Action =
    | SubmitResult(result: JobResult) | SubmitBundle(bundle: Bundle) | Send | Unlock
    | Wake | Swap | Deliver | Queue
    | Work(baton: nat, ready: bool) | Finish(baton: nat)

  function ComputedBy(k: nat, results: seq<JobResult>): seq<Delivery> {
    seq(|results|, i requires 0 <= i < |results| => Computed(k, results[i]))
  }

  /**
   One step, or `None` if it cannot be taken. The swap is taken with the mutex free and in
   one step, since nobody else can look at the lists meanwhile. A baton finishes on the
   loop thread, hence not during a drain.
   */
  function Next(env: Hashes, s: State, a: Action): Option<State> {
    match a
    case SubmitResult(r) =>
      if s.lock.Free? then Some(s.(results := s.results + [r], lock := Pushed)) else None
    case SubmitBundle(b) =>
      if s.lock.Free? then Some(s.(bundles := s.bundles + [b], lock := Pushed)) else None
    case Send => if s.lock.Pushed? then Some(s.(pending := true, lock := Sent)) else None
    case Unlock => if s.lock.Sent? then Some(s.(lock := Free)) else None
    case Wake => if s.drain.Asleep? && s.pending then Some(s.(pending := false, drain := Woken)) else None
    case Swap =>
      if s.drain.Woken? && s.lock.Free?
      then Some(s.(results := [], bundles := [], drain := Delivering(s.results, s.bundles))) else None
    case Deliver =>
      if s.drain.Delivering? && s.drain.results != []
      then Some(s.(drain := s.drain.(results := s.drain.results[1..]),
                   delivered := s.delivered + [Direct(s.drain.results[0])]))
      else None
    case Queue =>
      if s.drain.Delivering? && s.drain.results == []
      then Some(s.(drain := Asleep,
                   batons := s.batons + if s.drain.bundles == [] then []
                                        else [Baton(s.drain.bundles, [], [], 0, false)]))
      else None
    case Work(k, ready) =>
      if k < |s.batons| && |s.batons[k].ready| < |s.batons[k].bundles|
      then
        var b := s.batons[k];
        var next := b.bundles[|b.ready|];
        Some(s.(batons := s.batons[k := b.(
          ready := b.ready + [ready],
          results := b.results + Results(env, next.job, next.nonces, ready),
          errors := b.errors + Errors(env, next.job, next.nonces, ready))]))
      else None
    case Finish(k) =>
      if s.drain.Asleep? && k < |s.batons| && |s.batons[k].ready| == |s.batons[k].bundles| && !s.batons[k].finished
      then Some(s.(batons := s.batons[k := s.batons[k].(finished := true)],
                   delivered := s.delivered + ComputedBy(k, s.batons[k].results)))
      else None
  }

  function Run(env: Hashes, s: State, actions: seq<Action>): Option<State>
    decreases |actions|
  {
    if actions == [] then Some(s)
    else
      var t :- Next(env, s, actions[0]);
      Run(env, t, actions[1..])
  }

  // ---- What went in ----

  function SubmittedResults(actions: seq<Action>): seq<JobResult> {
    if actions == [] then []
    else (if actions[0].SubmitResult? then [actions[0].result] else []) + SubmittedResults(actions[1..])
  }

  function SubmittedBundles(actions: seq<Action>): seq<Bundle> {
    if actions == [] then []
    else (if actions[0].SubmitBundle? then [actions[0].bundle] else []) + SubmittedBundles(actions[1..])
  }

  // ---- What came out ----

  function DirectPart(log: seq<Delivery>): seq<JobResult> {
    if log == [] then []
    else DirectPart(log[..|log| - 1]) + if log[|log| - 1].Direct? then [log[|log| - 1].result] else []
  }

  function ComputedPart(log: seq<Delivery>, k: nat): seq<JobResult> {
    if log == [] then []
    else
      var last := log[|log| - 1];
      ComputedPart(log[..|log| - 1], k) + if last.Computed? && last.baton == k then [last.result] else []
  }

  function AllBundles(batons: seq<Baton>): seq<Bundle> {
    if batons == [] then [] else AllBundles(batons[..|batons| - 1]) + batons[|batons| - 1].bundles
  }

  /** What the first bundles of a baton come to, one per entry of `ready`. */
  function BatonResults(env: Hashes, bundles: seq<Bundle>, ready: seq<bool>): seq<JobResult>
    requires |ready| <= |bundles|
    decreases |ready|
  {
    if ready == [] then []
    else
      var n := |ready| - 1;
      BatonResults(env, bundles, ready[..n]) + Results(env, bundles[n].job, bundles[n].nonces, ready[n])
  }

  function BatonErrors(env: Hashes, bundles: seq<Bundle>, ready: seq<bool>): nat
    requires |ready| <= |bundles|
    decreases |ready|
  {
    if ready == [] then 0
    else
      var n := |ready| - 1;
      BatonErrors(env, bundles, ready[..n]) + Errors(env, bundles[n].job, bundles[n].nonces, ready[n])
  }

  predicate BatonInv(env: Hashes, b: Baton) {
    && |b.ready| <= |b.bundles|
    && b.results == BatonResults(env, b.bundles, b.ready)
    && b.errors == BatonErrors(env, b.bundles, b.ready)
    && (b.finished ==> |b.ready| == |b.bundles|)
  }

  function DrainResults(d: Drain): seq<JobResult> {
    if d.Delivering? then d.results else []
  }

  function DrainBundles(d: Drain): seq<Bundle> {
    if d.Delivering? then d.bundles else []
  }

  // ---- Conservation ----

  /** Results are delivered or waiting, once each and in the order of submission. */
  predicate ResultsKept(s: State, submitted: seq<JobResult>) {
    DirectPart(s.delivered) + DrainResults(s.drain) + s.results == submitted
  }

  /** Bundles are in a baton, in the drain or queued, once each and in the order of submission. */
  predicate BundlesKept(s: State, submitted: seq<Bundle>) {
    AllBundles(s.batons) + DrainBundles(s.drain) + s.bundles == submitted
  }

  /** Batons hold what their bundles come to, and deliver it once, when they finish. */
  predicate BatonsKept(env: Hashes, s: State) {
    && (forall k :: 0 <= k < |s.batons| ==> BatonInv(env, s.batons[k]))
    && (forall k: nat :: k < |s.batons| ==>
          ComputedPart(s.delivered, k) == if s.batons[k].finished then s.batons[k].results else [])
    && (forall d <- s.delivered :: d.Computed? ==> d.baton < |s.batons|)
  }

  /** Nothing is queued without a wakeup to come, a drain about to swap or a producer about to send. */
  predicate WakeupKept(s: State) {
    s.results != [] || s.bundles != [] ==> s.pending || s.drain.Woken? || s.lock.Pushed?
  }

  predicate Conserved(env: Hashes, s: State, results: seq<JobResult>, bundles: seq<Bundle>) {
    ResultsKept(s, results) && BundlesKept(s, bundles) && BatonsKept(env, s) && WakeupKept(s)
  }

  lemma {:induction false} DirectAppend(log: seq<Delivery>, d: Delivery)
    ensures DirectPart(log + [d]) == DirectPart(log) + if d.Direct? then [d.result] else []
    ensures forall k: nat :: ComputedPart(log + [d], k)
                          == ComputedPart(log, k) + if d.Computed? && d.baton == k then [d.result] else []
  {
    assert (log + [d])[..|log|] == log;
  }

  lemma {:induction false} ComputedAppend(log: seq<Delivery>, k: nat, results: seq<JobResult>)
    ensures DirectPart(log + ComputedBy(k, results)) == DirectPart(log)
    ensures forall j: nat :: ComputedPart(log + ComputedBy(k, results), j)
                          == ComputedPart(log, j) + if j == k then results else []
  {
    ComputedNotDirect(log, k, results);
    forall j: nat
      ensures ComputedPart(log + ComputedBy(k, results), j) == ComputedPart(log, j) + if j == k then results else []
    {
      ComputedAppendAt(log, k, results, j);
    }
  }

  lemma {:induction false} ComputedLast(log: seq<Delivery>, k: nat, results: seq<JobResult>)
    requires results != []
    ensures var n := |results| - 1;
            log + ComputedBy(k, results) == log + ComputedBy(k, results[..n]) + [Computed(k, results[n])]
  {
  }

  lemma {:induction false} ComputedNotDirect(log: seq<Delivery>, k: nat, results: seq<JobResult>)
    ensures DirectPart(log + ComputedBy(k, results)) == DirectPart(log)
    decreases |results|
  {
    if results == [] {
      assert log + ComputedBy(k, results) == log;
    } else {
      var n := |results| - 1;
      ComputedNotDirect(log, k, results[..n]);
      ComputedLast(log, k, results);
      DirectAppend(log + ComputedBy(k, results[..n]), Computed(k, results[n]));
      hide ComputedBy, DirectPart, ComputedPart;
      assert DirectPart(log) + [] == DirectPart(log);
    }
  }

  lemma {:induction false} ComputedAppendAt(log: seq<Delivery>, k: nat, results: seq<JobResult>, j: nat)
    ensures ComputedPart(log + ComputedBy(k, results), j) == ComputedPart(log, j) + if j == k then results else []
    decreases |results|
  {
    var before := ComputedPart(log, j);
    if results == [] {
      assert log + ComputedBy(k, results) == log;
      assert before + [] == before;
    } else {
      var n := |results| - 1;
      ComputedAppendAt(log, k, results[..n], j);
      ComputedLast(log, k, results);
      DirectAppend(log + ComputedBy(k, results[..n]), Computed(k, results[n]));
      hide ComputedBy, ComputedPart, DirectPart;
      assert before + [] + [] == before;
      assert before + results[..n] + [results[n]] == before + results;
    }
  }

  lemma {:induction false} NothingComputed(log: seq<Delivery>, k: nat)
    requires forall d <- log :: d.Computed? ==> d.baton < k
    ensures ComputedPart(log, k) == []
    decreases |log|
  {
    if log != [] {
      var init := log[..|log| - 1];
      assert forall d <- init :: d in log;
      assert log[|log| - 1] in log;
      NothingComputed(init, k);
    }
  }

  lemma {:induction false} SameBundles(a: seq<Baton>, b: seq<Baton>)
    requires |a| == |b| && forall k :: 0 <= k < |a| ==> a[k].bundles == b[k].bundles
    ensures AllBundles(a) == AllBundles(b)
    decreases |a|
  {
    if a != [] {
      SameBundles(a[..|a| - 1], b[..|b| - 1]);
    }
  }

  lemma {:induction false} AllBundlesAppend(batons: seq<Baton>, b: Baton)
    ensures AllBundles(batons + [b]) == AllBundles(batons) + b.bundles
  {
    assert (batons + [b])[..|batons|] == batons;
  }

  lemma {:induction false} EmptyBaton(env: Hashes, b: Baton)
    requires b.ready == [] && b.results == [] && b.errors == 0 && !b.finished
    ensures BatonInv(env, b)
  {
  }

  // ---- One lemma per kind of step ----

  lemma {:induction false} SubmitKeeps(env: Hashes, s: State, a: Action, results: seq<JobResult>, bundles: seq<Bundle>)
    requires Conserved(env, s, results, bundles) && Next(env, s, a).Some?
    requires a.SubmitResult? || a.SubmitBundle?
    ensures Conserved(env, Next(env, s, a).value, results + SubmittedResults([a]), bundles + SubmittedBundles([a]))
  {
    hide BatonInv, ComputedPart, DirectPart, AllBundles;
    assert [a][1..] == [];
    var t := Next(env, s, a).value;
    var now, held := DirectPart(s.delivered) + DrainResults(s.drain), AllBundles(s.batons) + DrainBundles(s.drain);
    if a.SubmitResult? {
      assert now + (s.results + [a.result]) == now + s.results + [a.result];
    } else {
      assert held + (s.bundles + [a.bundle]) == held + s.bundles + [a.bundle];
    }
  }

  lemma {:induction false} WakeKeeps(env: Hashes, s: State, a: Action, results: seq<JobResult>, bundles: seq<Bundle>)
    requires Conserved(env, s, results, bundles) && Next(env, s, a).Some?
    requires a.Send? || a.Unlock? || a.Wake? || a.Swap?
    ensures Conserved(env, Next(env, s, a).value, results, bundles)
  {
    hide BatonInv, ComputedPart, DirectPart, AllBundles;
    if a.Swap? {
      var d, b := DirectPart(s.delivered), AllBundles(s.batons);
      assert d + [] + s.results == d + s.results + [];
      assert b + [] + s.bundles == b + s.bundles + [];
    }
  }

  lemma {:induction false} DeliverKeeps(env: Hashes, s: State, results: seq<JobResult>, bundles: seq<Bundle>)
    requires Conserved(env, s, results, bundles) && Next(env, s, Deliver).Some?
    ensures Conserved(env, Next(env, s, Deliver).value, results, bundles)
  {
    hide BatonInv, AllBundles, DirectPart, ComputedPart;
    var t, r := Next(env, s, Deliver).value, s.drain.results[0];
    DirectAppend(s.delivered, Direct(r));
    var d := DirectPart(s.delivered);
    assert s.drain.results == [r] + s.drain.results[1..];
    assert d + [r] + s.drain.results[1..] == d + s.drain.results;
    forall k: nat | k < |t.batons|
      ensures ComputedPart(t.delivered, k) == if t.batons[k].finished then t.batons[k].results else []
    {
      assert ComputedPart(s.delivered, k) + [] == ComputedPart(s.delivered, k);
    }
  }

  lemma {:induction false} QueueKeeps(env: Hashes, s: State, results: seq<JobResult>, bundles: seq<Bundle>)
    requires Conserved(env, s, results, bundles) && Next(env, s, Queue).Some?
    ensures Conserved(env, Next(env, s, Queue).value, results, bundles)
  {
    hide ComputedPart, DirectPart, AllBundles, BatonInv;
    var t := Next(env, s, Queue).value;
    var d, b := DirectPart(s.delivered), AllBundles(s.batons);
    assert d + [] + s.results == d + s.results;
    if s.drain.bundles == [] {
      assert t.batons == s.batons;
      assert b + [] + s.bundles == b + s.bundles;
    } else {
      var made := Baton(s.drain.bundles, [], [], 0, false);
      AllBundlesAppend(s.batons, made);
      EmptyBaton(env, made);
      assert b + s.drain.bundles + [] + s.bundles == b + s.drain.bundles + s.bundles;
      NothingComputed(s.delivered, |s.batons|);
    }
  }

  lemma {:induction false} WorkKeeps(env: Hashes, s: State, a: Action, results: seq<JobResult>, bundles: seq<Bundle>)
    requires Conserved(env, s, results, bundles) && a.Work? && Next(env, s, a).Some?
    ensures Conserved(env, Next(env, s, a).value, results, bundles)
  {
    hide ComputedPart, DirectPart, AllBundles, Results, Errors;
    var t := Next(env, s, a).value;
    SameBundles(s.batons, t.batons);
    var b := s.batons[a.baton];
    assert BatonInv(env, b);
    assert (b.ready + [a.ready])[..|b.ready|] == b.ready;
    assert BatonInv(env, t.batons[a.baton]);
  }

  lemma {:induction false} FinishKeeps(env: Hashes, s: State, a: Action, results: seq<JobResult>, bundles: seq<Bundle>)
    requires Conserved(env, s, results, bundles) && a.Finish? && Next(env, s, a).Some?
    ensures Conserved(env, Next(env, s, a).value, results, bundles)
  {
    hide ComputedPart, DirectPart, AllBundles, BatonResults, BatonErrors;
    var t := Next(env, s, a).value;
    SameBundles(s.batons, t.batons);
    var b := s.batons[a.baton];
    assert BatonInv(env, b);
    ComputedAppend(s.delivered, a.baton, b.results);
    forall k: nat | k < |t.batons|
      ensures ComputedPart(t.delivered, k) == if t.batons[k].finished then t.batons[k].results else []
    {
      assert ComputedPart(s.delivered, k) == if s.batons[k].finished then s.batons[k].results else [];
      assert [] + b.results == b.results;
      assert ComputedPart(s.delivered, k) + [] == ComputedPart(s.delivered, k);
    }
  }

  lemma {:induction false} StepKeeps(env: Hashes, s: State, a: Action, results: seq<JobResult>, bundles: seq<Bundle>)
    requires Conserved(env, s, results, bundles) && Next(env, s, a).Some?
    ensures Conserved(env, Next(env, s, a).value, results + SubmittedResults([a]), bundles + SubmittedBundles([a]))
  {
    hide Conserved, Next;
    assert [a][1..] == [];
    assert results + [] == results && bundles + [] == bundles;
    match a
    case SubmitResult(_) => SubmitKeeps(env, s, a, results, bundles);
    case SubmitBundle(_) => SubmitKeeps(env, s, a, results, bundles);
    case Send => WakeKeeps(env, s, a, results, bundles);
    case Unlock => WakeKeeps(env, s, a, results, bundles);
    case Wake => WakeKeeps(env, s, a, results, bundles);
    case Swap => WakeKeeps(env, s, a, results, bundles);
    case Deliver => DeliverKeeps(env, s, results, bundles);
    case Queue => QueueKeeps(env, s, results, bundles);
    case Work(_, _) => WorkKeeps(env, s, a, results, bundles);
    case Finish(_) => FinishKeeps(env, s, a, results, bundles);
  }

  lemma {:induction false} RunKeeps(env: Hashes, s: State, actions: seq<Action>, results: seq<JobResult>,
          bundles: seq<Bundle>)
    requires Conserved(env, s, results, bundles) && Run(env, s, actions).Some?
    ensures Conserved(env, Run(env, s, actions).value,
                      results + SubmittedResults(actions), bundles + SubmittedBundles(actions))
    decreases |actions|
  {
    hide Conserved, Next, SubmittedResults, SubmittedBundles;
    if actions == [] {
      NothingSubmitted();
      assert results + [] == results && bundles + [] == bundles;
    } else {
      var a, rest := actions[0], actions[1..];
      StepKeeps(env, s, a, results, bundles);
      RunKeeps(env, Next(env, s, a).value, rest, results + SubmittedResults([a]), bundles + SubmittedBundles([a]));
      SubmittedStep(a, rest);
      assert [a] + rest == actions;
      Associative(results, SubmittedResults([a]), SubmittedResults(rest));
      Associative(bundles, SubmittedBundles([a]), SubmittedBundles(rest));
    }
  }

  lemma {:induction false} NothingSubmitted()
    ensures SubmittedResults([]) == [] && SubmittedBundles([]) == []
  {
  }

  lemma {:induction false} SubmittedStep(a: Action, rest: seq<Action>)
    ensures SubmittedResults([a] + rest) == SubmittedResults([a]) + SubmittedResults(rest)
    ensures SubmittedBundles([a] + rest) == SubmittedBundles([a]) + SubmittedBundles(rest)
  {
    assert ([a] + rest)[1..] == rest && [a][1..] == [];
  }

  lemma {:induction false} Associative<T>(a: seq<T>, b: seq<T>, c: seq<T>)
    ensures a + b + c == a + (b + c)
  {
  }

  /** Main result: whatever the interleaving, everything submitted is where it should be. */
  lemma {:induction false} Conservation(env: Hashes, actions: seq<Action>)
    requires Run(env, INITIAL, actions).Some?
    ensures Conserved(env, Run(env, INITIAL, actions).value, SubmittedResults(actions), SubmittedBundles(actions))
  {
    RunKeeps(env, INITIAL, actions, [], []);
    assert [] + SubmittedResults(actions) == SubmittedResults(actions);
    assert [] + SubmittedBundles(actions) == SubmittedBundles(actions);
  }

  // ---- Counting nonces ----

  function Nonces(bundles: seq<Bundle>): nat {
    if bundles == [] then 0 else Nonces(bundles[..|bundles| - 1]) + |bundles[|bundles| - 1].nonces|
  }

  lemma {:induction false} NoncesAppend(a: seq<Bundle>, b: seq<Bundle>)
    ensures Nonces(a + b) == Nonces(a) + Nonces(b)
    decreases |b|
  {
    if b == [] {
      assert a + b == a;
    } else {
      assert (a + b)[..|a + b| - 1] == a + b[..|b| - 1];
      NoncesAppend(a, b[..|b| - 1]);
    }
  }

  /** Nonces of live batons not hashed yet, and results and errors of all batons. */
  function Waiting(batons: seq<Baton>): nat {
    if batons == [] then 0 else Waiting(batons[..|batons| - 1]) + Nonces(Remaining(batons[|batons| - 1]))
  }

  function Remaining(b: Baton): seq<Bundle> {
    if |b.ready| <= |b.bundles| then b.bundles[|b.ready|..] else []
  }

  function Outcomes(batons: seq<Baton>): nat {
    if batons == [] then 0
    else Outcomes(batons[..|batons| - 1]) + |batons[|batons| - 1].results| + batons[|batons| - 1].errors
  }

  lemma {:induction false} BatonCount(env: Hashes, bundles: seq<Bundle>, ready: seq<bool>)
    requires |ready| <= |bundles|
    ensures |BatonResults(env, bundles, ready)| + BatonErrors(env, bundles, ready) == Nonces(bundles[..|ready|])
    decreases |ready|
  {
    if ready != [] {
      var n := |ready| - 1;
      BatonCount(env, bundles, ready[..n]);
      EachNonceOnce(env, bundles[n].job, bundles[n].nonces, ready[n]);
      assert bundles[..|ready|][..n] == bundles[..n];
    }
  }

  lemma {:induction false} BatonCounts(env: Hashes, b: Baton)
    requires BatonInv(env, b)
    ensures Nonces(b.bundles) == Nonces(Remaining(b)) + |b.results| + b.errors
  {
    BatonCount(env, b.bundles, b.ready);
    hide Nonces, BatonResults, BatonErrors;
    NoncesAppend(b.bundles[..|b.ready|], b.bundles[|b.ready|..]);
    assert b.bundles[..|b.ready|] + b.bundles[|b.ready|..] == b.bundles;
  }

  lemma {:induction false} BatonsCount(env: Hashes, batons: seq<Baton>)
    requires forall k :: 0 <= k < |batons| ==> BatonInv(env, batons[k])
    ensures Nonces(AllBundles(batons)) == Waiting(batons) + Outcomes(batons)
    decreases |batons|
  {
    hide BatonInv, Nonces, Remaining;
    if batons == [] {
      NoncesAppend([], []);
      assert [] + [] == AllBundles(batons);
    } else {
      var init, b := batons[..|batons| - 1], batons[|batons| - 1];
      BatonsCount(env, init);
      BatonCounts(env, b);
      NoncesAppend(AllBundles(init), b.bundles);
    }
  }

  /** Every nonce is queued, in the drain, waiting in a baton, or one result or one error. */
  lemma {:induction false} NonceConservation(env: Hashes, actions: seq<Action>)
    requires Run(env, INITIAL, actions).Some?
    ensures var s := Run(env, INITIAL, actions).value;
            Nonces(SubmittedBundles(actions))
            == Nonces(s.bundles) + Nonces(DrainBundles(s.drain)) + Waiting(s.batons) + Outcomes(s.batons)
  {
    Conservation(env, actions);
    hide Nonces, Waiting, Outcomes, Run, BatonInv, ComputedPart, DirectPart;
    var s := Run(env, INITIAL, actions).value;
    BatonsCount(env, s.batons);
    NoncesAppend(AllBundles(s.batons) + DrainBundles(s.drain), s.bundles);
    NoncesAppend(AllBundles(s.batons), DrainBundles(s.drain));
  }

  // ---- Nothing gets stuck ----

  /** Steps of the program alone: everything but new submissions. */
  predicate Internal(a: Action) {
    !a.SubmitResult? && !a.SubmitBundle?
  }

  /** No step is left but a new submission. */
  predicate Quiescent(env: Hashes, s: State) {
    && Next(env, s, Send).None? && Next(env, s, Unlock).None? && Next(env, s, Wake).None?
    && Next(env, s, Swap).None? && Next(env, s, Deliver).None? && Next(env, s, Queue).None?
    && forall k: nat :: k < |s.batons| ==> Next(env, s, Work(k, true)).None? && Next(env, s, Finish(k)).None?
  }

  function BatonLeft(b: Baton): nat {
    (if |b.bundles| > |b.ready| then |b.bundles| - |b.ready| else 0) + if b.finished then 0 else 1
  }

  function BatonsLeft(batons: seq<Baton>): nat {
    if batons == [] then 0 else BatonsLeft(batons[..|batons| - 1]) + BatonLeft(batons[|batons| - 1])
  }

  /** A bound on the number of internal steps to come. */
  function Left(s: State): nat {
    |s.results| + 3 * |s.bundles|
    + (match s.lock case Free => 0 case Pushed => 6 case Sent => 1)
    + (if s.pending then 4 else 0)
    + (match s.drain case Asleep => 0 case Woken => 3 case Delivering(r, b) => 1 + |r| + 3 * |b|)
    + BatonsLeft(s.batons)
  }

  lemma {:induction false} LeftUpdate(batons: seq<Baton>, k: nat, b: Baton)
    requires k < |batons|
    ensures BatonsLeft(batons[k := b]) == BatonsLeft(batons) - BatonLeft(batons[k]) + BatonLeft(b)
    decreases |batons|
  {
    var n := |batons| - 1;
    if k == n {
      assert batons[k := b][..n] == batons[..n];
    } else {
      LeftUpdate(batons[..n], k, b);
      assert batons[k := b][..n] == batons[..n][k := b];
    }
  }

  /** Internal steps cannot go on forever. */
  lemma {:induction false} InternalStepsEnd(env: Hashes, s: State, a: Action)
    requires Internal(a) && Next(env, s, a).Some?
    ensures Left(Next(env, s, a).value) < Left(s)
  {
    hide Results, Errors, ComputedBy, BatonsLeft;
    var t := Next(env, s, a).value;
    match a
    case Work(k, _) => LeftUpdate(s.batons, k, t.batons[k]);
    case Finish(k) => LeftUpdate(s.batons, k, t.batons[k]);
    case Queue =>
      if s.drain.bundles != [] {
        LeftAppend(s.batons, Baton(s.drain.bundles, [], [], 0, false));
      } else {
        assert t.batons == s.batons;
      }
    case _ =>
  }

  lemma {:induction false} LeftAppend(batons: seq<Baton>, b: Baton)
    ensures BatonsLeft(batons + [b]) == BatonsLeft(batons) + BatonLeft(b)
  {
    assert (batons + [b])[..|batons|] == batons;
  }

  /**
   When they have ended, every submitted result has been delivered, in order, and every
   submitted bundle was in a baton whose results were all delivered.
   */
  lemma {:induction false} AllDelivered(env: Hashes, actions: seq<Action>)
    requires Run(env, INITIAL, actions).Some? && Quiescent(env, Run(env, INITIAL, actions).value)
    ensures var s := Run(env, INITIAL, actions).value;
            && DirectPart(s.delivered) == SubmittedResults(actions)
            && AllBundles(s.batons) == SubmittedBundles(actions)
            && forall k: nat :: k < |s.batons| ==>
                 |s.batons[k].ready| == |s.batons[k].bundles|
                 && ComputedPart(s.delivered, k) == BatonResults(env, s.batons[k].bundles, s.batons[k].ready)
  {
    Conservation(env, actions);
    var s := Run(env, INITIAL, actions).value;
    AtRest(env, s);
    hide Run, Quiescent, AllBundles, DirectPart, ComputedPart;
    assert s.results == [] && s.bundles == [];
    forall k: nat | k < |s.batons|
      ensures s.batons[k].results == BatonResults(env, s.batons[k].bundles, s.batons[k].ready)
    {
      assert BatonInv(env, s.batons[k]);
    }
    assert DirectPart(s.delivered) + [] + [] == DirectPart(s.delivered);
    assert AllBundles(s.batons) + [] + [] == AllBundles(s.batons);
  }

  lemma {:induction false} AtRest(env: Hashes, s: State)
    requires Quiescent(env, s) && BatonsKept(env, s)
    ensures s.lock.Free? && s.drain.Asleep? && !s.pending
    ensures forall k: nat :: k < |s.batons| ==> |s.batons[k].ready| == |s.batons[k].bundles| && s.batons[k].finished
  {
    hide ComputedPart, BatonResults, BatonErrors, Results, Errors, ComputedBy;
    forall k: nat | k < |s.batons|
      ensures |s.batons[k].ready| == |s.batons[k].bundles| && s.batons[k].finished
    {
      assert BatonInv(env, s.batons[k]);
      assert Next(env, s, Work(k, true)).None? && Next(env, s, Finish(k)).None?;
    }
  }

  // ---- The code ----

  /** The actions of one drain of `n` results, from the swap on. */
  function DrainSteps(n: nat): seq<Action> {
    [Swap] + Deliveries(n) + [Queue]
  }

  function Deliveries(n: nat): (r: seq<Action>)
    ensures |r| == n
  {
    if n == 0 then [] else [Deliver] + Deliveries(n - 1)
  }

  function DirectAll(results: seq<JobResult>): seq<Delivery> {
    seq(|results|, i requires 0 <= i < |results| => Direct(results[i]))
  }

  lemma {:induction false} RunStep(env: Hashes, s: State, a: Action, rest: seq<Action>)
    requires Next(env, s, a).Some?
    ensures Run(env, s, [a] + rest) == Run(env, Next(env, s, a).value, rest)
  {
    assert ([a] + rest)[1..] == rest;
  }

  lemma {:induction false} DeliveriesRun(env: Hashes, s: State)
    requires s.drain.Delivering?
    ensures Run(env, s, Deliveries(|s.drain.results|) + [Queue])
         == Next(env, s.(drain := s.drain.(results := []),
                         delivered := s.delivered + DirectAll(s.drain.results)), Queue)
    decreases |s.drain.results|
  {
    var n := |s.drain.results|;
    if n == 0 {
      assert Deliveries(0) + [Queue] == [Queue] + [];
      RunStep(env, s, Queue, []);
      assert s.delivered + DirectAll([]) == s.delivered;
    } else {
      var t := Next(env, s, Deliver).value;
      assert Deliveries(n) + [Queue] == [Deliver] + (Deliveries(n - 1) + [Queue]);
      RunStep(env, s, Deliver, Deliveries(n - 1) + [Queue]);
      DeliveriesRun(env, t);
      assert t.delivered + DirectAll(t.drain.results) == s.delivered + DirectAll(s.drain.results);
    }
  }

  /** A drain that is not interrupted. */
  lemma {:induction false} DrainRuns(env: Hashes, s: State)
    requires s.drain.Woken? && s.lock.Free?
    ensures Run(env, s, DrainSteps(|s.results|)) == Some(s.(
              results := [], bundles := [], drain := Asleep,
              batons := s.batons + (if s.bundles == [] then [] else [Baton(s.bundles, [], [], 0, false)]),
              delivered := s.delivered + DirectAll(s.results)))
  {
    var n := |s.results|;
    RunStep(env, s, Swap, Deliveries(n) + [Queue]);
    assert DrainSteps(n) == [Swap] + (Deliveries(n) + [Queue]);
    DeliveriesRun(env, Next(env, s, Swap).value);
  }

  /** `JobResultsPrivate`: its lists, whether a wakeup is pending, and the calls to its listener. */
  class JobResultsPrivate {
    var results: seq<JobResult>
    var bundles: seq<Bundle>
    var pending: bool
    var heard: seq<JobResult>

    constructor ()
      ensures results == [] && bundles == [] && !pending && heard == []
    {
      results, bundles, pending, heard := [], [], false, [];
    }

    /** `submit(const JobResult &)` (JobResults.cpp:214-220) */
    method Submit(result: JobResult)
      modifies `results, `pending
      ensures results == old(results) + [result] && pending
    {
      results := results + [result];
      pending := true;
    }

    /** `submit(const Job &, ..)` (JobResults.cpp:224-230) */
    method SubmitNonces(job: Job, nonces: seq<Nonce>)
      modifies `bundles, `pending
      ensures bundles == old(bundles) + [Bundle(job, nonces)] && pending
    {
      bundles := bundles + [Bundle(job, nonces)];
      pending := true;
    }

    /** `submit()` (JobResults.cpp:240-278): the steps of a drain; `queued` goes to a worker thread. */
    method OnAsync(ghost env: Hashes, ghost before: State) returns (queued: seq<Bundle>)
      requires before.results == results && before.bundles == bundles
      requires before.drain.Woken? && before.lock.Free?
      modifies `results, `bundles, `heard
      ensures heard == old(heard + results) && queued == old(bundles)
      ensures Run(env, before, DrainSteps(|before.results|)) == Some(before.(
                results := results, bundles := bundles, drain := Asleep,
                batons := before.batons + (if queued == [] then [] else [Baton(queued, [], [], 0, false)]),
                delivered := before.delivered + DirectAll(heard[|old(heard)|..])))
    {
      DrainRuns(env, before);
      var mine;
      mine, results := results, [];
      queued, bundles := bundles, [];
      for i := 0 to |mine|
        invariant results == [] && bundles == []
        invariant heard == old(heard) + mine[..i]
      {
        heard := heard + [mine[i]];
      }
      assert heard[|old(heard)|..] == mine;
    }
  }

  /** The work of a baton (JobResults.cpp:261-267) on the bundles themselves, writing over their blobs. */
  method RunBaton(env: Hashes, bundles: seq<JobBundle>, ready: seq<bool>)
    returns (results: seq<JobResult>, errors: nat)
    requires |ready| == |bundles| && forall b <- bundles :: b.Valid()
    requires forall i, j :: 0 <= i < j < |bundles| ==> bundles[i].blob != bundles[j].blob
    modifies set b <- bundles :: b.blob
    ensures results == BatonResults(env, old(Values(bundles)), ready)
    ensures errors == BatonErrors(env, old(Values(bundles)), ready)
  {
    results, errors := [], 0;
    ghost var values := Values(bundles);
    for i := 0 to |bundles|
      invariant results == BatonResults(env, values, ready[..i])
      invariant errors == BatonErrors(env, values, ready[..i])
      invariant forall k :: i <= k < |bundles| ==> bundles[k].blob[..] == old(bundles[k].blob[..])
    {
      assert bundles[i] in bundles;
      assert values[i] == Bundle(bundles[i].CurrentJob(), bundles[i].nonces);
      results, errors := bundles[i].GetResults(env, ready[i], results, errors);
      assert ready[..i + 1][..i] == ready[..i];
    }
    assert ready[..|bundles|] == ready;
  }

  ghost function Values(bundles: seq<JobBundle>): (r: seq<Bundle>)
    requires forall b <- bundles :: b.Valid()
    reads set b <- bundles :: b.blob
    ensures |r| == |bundles|
  {
    seq(|bundles|, i requires 0 <= i < |bundles| reads set b <- bundles :: b.blob =>
      (assert bundles[i] in bundles; Bundle(bundles[i].CurrentJob(), bundles[i].nonces)))
  }
}
