/**
 Sequence numbers (`src/crypto/common/Nonce.h`): a worker keeps the number it saw when it
 fetched its job, and fetches the job again when the number has changed. So every operation
 that has news for the workers must change all three numbers.
 */
module Sequences {
  import opened Jobs
  import opened M = Miner
  import opened Nonces

  /** All three numbers are `d` more, in 64 bits. */
  predicate Advanced(n: NonceState, m: NonceState, d: nat)
    requires n.Valid() && m.Valid()
  {
    forall k :: 0 <= k < 3 ==> m.sequences[k] == (n.sequences[k] + d) % TWO64
  }

  /** `isOutdated`, for a worker of backend `k` that fetched its job in state `n`. */
  predicate Outdated(n: NonceState, now: NonceState, k: nat)
    requires n.Valid() && now.Valid() && k < 3
  {
    now.sequences[k] != n.sequences[k]
  }

  lemma {:induction false} AddTwice(x: nat, i: nat, j: nat)
    ensures ((x + i) % TWO64 + j) % TWO64 == (x + i + j) % TWO64
  {
  }

  lemma {:induction false} Onward(n: NonceState, m: NonceState, u: NonceState, i: nat, j: nat)
    requires n.Valid() && m.Valid() && u.Valid() && Advanced(n, m, i) && Advanced(m, u, j)
    ensures Advanced(n, u, i + j)
  {
    forall k | 0 <= k < 3
      ensures u.sequences[k] == (n.sequences[k] + (i + j)) % TWO64
    {
      AddTwice(n.sequences[k], i, j);
    }
  }

  lemma {:induction false} Unmoved(n: NonceState, m: NonceState)
    requires n.Valid() && m.Valid() && m.sequences == n.sequences
    ensures Advanced(n, m, 0)
  {
  }

  /** Fewer than 2^64 steps do not come back to the same number. */
  lemma {:induction false} DifferentExactly(n: NonceState, m: NonceState, d: nat, k: nat)
    requires n.Valid() && m.Valid() && Advanced(n, m, d) && d < TWO64 && k < 3
    ensures Outdated(n, m, k) <==> d > 0
  {
    var x := n.sequences[k];
    assert m.sequences[k] == if x + d < TWO64 then x + d else x + d - TWO64;
  }

  // ---- One operation ----

  /** Handing a job over advances the numbers by one: nobody goes on with the job before. */
  lemma {:induction false} HandOverAdvances(s: State)
    requires s.Valid()
    ensures Advanced(s.nonce, AfterJobChange(s).nonce, 1)
    ensures forall k :: 0 <= k < 3 ==> Outdated(s.nonce, AfterJobChange(s).nonce, k)
  {
    var t := AfterJobChange(s);
    assert Advanced(s.nonce, t.nonce, 1);
    forall k | 0 <= k < 3
      ensures Outdated(s.nonce, t.nonce, k)
    {
      DifferentExactly(s.nonce, t.nonce, 1, k);
    }
  }

  /** So does a pause. */
  lemma {:induction false} PauseAdvances(s: State)
    requires s.Valid()
    ensures Advanced(s.nonce, PauseMining(s).nonce, 1)
  {
  }

  /** So does a switch that takes effect while the miner is active, and no other. */
  lemma {:induction false} SwitchAdvances(s: State, on: bool, pauseOnBattery: bool)
    requires s.Valid()
    ensures var t := Enable(s, on, pauseOnBattery);
            Advanced(s.nonce, t.nonce, if s.active && t.enabled != s.enabled then 1 else 0)
  {
    if !Switches(s, on, pauseOnBattery) || !s.active {
      Unmoved(s.nonce, s.nonce);
    }
  }

  /** Publishing a job whose dataset is missing stops the workers, or tells them to wait. */
  lemma {:induction false} PublishAdvances(b: Build, s: State, job: Job, donate: bool, wasReady: bool, isReady: bool)
    requires s.Valid()
    ensures var t := TakeOver(b, s, job, donate, wasReady, isReady);
            if !(b.randomX && job.info.algorithm.family.RandomX? && !wasReady) then Advanced(s.nonce, t.nonce, 0)
            else if s.algorithm == job.info.algorithm then Advanced(s.nonce, t.nonce, 1)
            else t.nonce.sequences == [0, 0, 0]
  {
    var t := TakeOver(b, s, job, donate, wasReady, isReady);
    if !(b.randomX && job.info.algorithm.family.RandomX? && !wasReady) {
      Unmoved(s.nonce, t.nonce);
    }
  }

  lemma {:induction false} StopZeroes(s: State)
    requires s.Valid()
    ensures StopNow(s).nonce.sequences == [0, 0, 0]
  {
  }

  // ---- Runs ----

  /** Operations that stop all workers; after these new ones are started. */
  predicate Zeroes(b: Build, s: State, a: Action) {
    match a
    case StopMiner => true
    case Tick(_, stopMiner) => stopMiner
    case SetJob(job, _, wasReady, _) => StopsForJob(b, s, job, wasReady)
    case _ => false
  }

  /** Missing datasets of the algorithm in use. */
  predicate Awaits(b: Build, s: State, job: Job, wasReady: bool) {
    b.randomX && job.info.algorithm.family.RandomX? && !wasReady && s.algorithm == job.info.algorithm
  }

  predicate HandsOver(b: Build, a: Action) {
    (a.SetJob? && (!b.randomX || a.ready)) || (a.DatasetReady? && a.isReady)
  }

  function One(p: bool): nat {
    if p then 1 else 0
  }

  /** By how much an operation advances the numbers: once for each piece of news. */
  function News(b: Build, s: State, a: Action): nat
    requires s.Valid()
  {
    match a
    case SetJob(job, _, wasReady, _) => One(Awaits(b, s, job, wasReady)) + One(HandsOver(b, a))
    case DatasetReady(isReady) => One(isReady)
    case Pause => 1
    case SetEnabled(on, pauseOnBattery) => One(s.active && Enable(s, on, pauseOnBattery).enabled != s.enabled)
    case Tick(sensors, _) =>
      var m := Halfway(s, sensors);
      One(s.active && m.enabled != s.enabled) + One(s.active && SecondHalf(m, sensors).enabled != m.enabled)
    case _ => 0
  }

  function TotalNews(b: Build, s: State, actions: seq<Action>): nat
    requires s.Valid()
    decreases |actions|
  {
    if actions == [] then 0 else News(b, s, actions[0]) + TotalNews(b, Next(b, s, actions[0]), actions[1..])
  }

  lemma {:induction false} HalfwayAdvances(s: State, sensors: Sensors)
    requires s.Valid()
    ensures var m := Halfway(s, sensors);
            Advanced(s.nonce, m.nonce, One(s.active && m.enabled != s.enabled)) && m.active == s.active
  {
    hide Enable, Advanced;
    var n := s.autoPause + if sensors.onBattery then 1 else -1;
    var s1 := s.(ticks := s.ticks + 1, batteryPower := sensors.onBattery, autoPause := n);
    SwitchAdvances(s1, n == 0, true);
    ActiveKept(s1, n == 0, true);
    Unmoved(s.nonce, s.nonce);
  }

  lemma {:induction false} SecondHalfAdvances(s: State, sensors: Sensors)
    requires s.Valid()
    ensures var t := SecondHalf(s, sensors);
            Advanced(s.nonce, t.nonce, One(s.active && t.enabled != s.enabled))
  {
    hide Enable, Advanced;
    var n := s.autoPause + if sensors.userPresent then 1 else -1;
    SwitchAdvances(s.(userActive := sensors.userPresent, autoPause := n), n == 0, sensors.pauseOnBattery);
    Unmoved(s.nonce, s.nonce);
  }

  lemma {:induction false} ActiveKept(s: State, on: bool, pauseOnBattery: bool)
    requires s.Valid()
    ensures Enable(s, on, pauseOnBattery).active == s.active
  {
  }

  lemma {:induction false} TickAdvances(b: Build, s: State, sensors: Sensors)
    requires s.Valid()
    ensures Advanced(s.nonce, Next(b, s, Tick(sensors, false)).nonce, News(b, s, Tick(sensors, false)))
  {
    hide Halfway, SecondHalf, Advanced;
    var m := Halfway(s, sensors);
    var t := SecondHalf(m, sensors);
    HalfwayAdvances(s, sensors);
    SecondHalfAdvances(m, sensors);
    Onward(s.nonce, m.nonce, t.nonce, One(s.active && m.enabled != s.enabled), One(s.active && t.enabled != m.enabled));
  }

  lemma {:induction false} JobAdvances(b: Build, s: State, a: Action)
    requires s.Valid() && a.SetJob? && !Zeroes(b, s, a)
    ensures Advanced(s.nonce, Next(b, s, a).nonce, News(b, s, a))
  {
    hide TakeOver, AfterJobChange, Advanced;
    var isReady := !b.randomX || a.ready;
    var t := TakeOver(b, s, a.job, a.donate, a.wasReady, isReady);
    PublishAdvances(b, s, a.job, a.donate, a.wasReady, isReady);
    HandOverAdvances(t);
    if isReady {
      Onward(s.nonce, t.nonce, AfterJobChange(t).nonce, One(Awaits(b, s, a.job, a.wasReady)), 1);
    }
  }

  /** Every operation that does not stop the workers advances the numbers by its news. */
  lemma {:induction false} StepAdvances(b: Build, s: State, a: Action)
    requires s.Valid() && !Zeroes(b, s, a)
    ensures Advanced(s.nonce, Next(b, s, a).nonce, News(b, s, a))
  {
    match a
    case SetJob(_, _, _, _) =>
      JobAdvances(b, s, a);
      hide Next, News, Advanced;
    case DatasetReady(isReady) =>
      HandOverAdvances(s);
      Unmoved(s.nonce, s.nonce);
      hide AfterJobChange, Advanced;
    case Pause =>
      PauseAdvances(s);
      hide PauseMining, Advanced;
    case SetEnabled(on, pauseOnBattery) =>
      SwitchAdvances(s, on, pauseOnBattery);
      hide Enable, Advanced;
    case Tick(sensors, _) =>
      TickAdvances(b, s, sensors);
      hide Next, News, Advanced;
    case StopMiner =>
    case _ =>
      Unmoved(s.nonce, Next(b, s, a).nonce);
      hide Advanced;
  }

  /** Over every run that does not stop the workers, the numbers count the news. */
  lemma {:induction false} RunAdvances(b: Build, s: State, actions: seq<Action>)
    requires s.Valid() && Through(b, s, actions, (t, a) => !Zeroes(b, t, a))
    ensures Advanced(s.nonce, Run(b, s, actions).nonce, TotalNews(b, s, actions))
    decreases |actions|
  {
    hide Next, Possible, Zeroes, News, Advanced;
    if actions == [] {
      Unmoved(s.nonce, s.nonce);
    } else {
      var t := Next(b, s, actions[0]);
      StepAdvances(b, s, actions[0]);
      RunAdvances(b, t, actions[1..]);
      Onward(s.nonce, t.nonce, Run(b, t, actions[1..]).nonce, News(b, s, actions[0]), TotalNews(b, t, actions[1..]));
    }
  }

  lemma {:induction false} NewsBound(b: Build, s: State, actions: seq<Action>)
    requires s.Valid()
    ensures TotalNews(b, s, actions) <= 2 * |actions|
    decreases |actions|
  {
    hide Next, Enable, Halfway, SecondHalf;
    if actions != [] {
      NewsBound(b, Next(b, s, actions[0]), actions[1..]);
    }
  }

  lemma {:induction false} HandOverIsNews(b: Build, s: State, actions: seq<Action>, i: nat)
    requires s.Valid() && i < |actions| && HandsOver(b, actions[i])
    ensures TotalNews(b, s, actions) > 0
    decreases |actions|
  {
    hide Next;
    if i > 0 {
      HandOverIsNews(b, Next(b, s, actions[0]), actions[1..], i - 1);
    }
  }

  /**
   Main result: a worker that fetched its job at the beginning of a run sees itself outdated
   at the end if and only if there was news for it. (The bound is the width of the numbers.)
   */
  lemma {:induction false} OutdatedExactly(b: Build, s: State, actions: seq<Action>, k: nat)
    requires s.Valid() && Through(b, s, actions, (t, a) => !Zeroes(b, t, a))
    requires 2 * |actions| < TWO64 && k < 3
    ensures Outdated(s.nonce, Run(b, s, actions).nonce, k) <==> TotalNews(b, s, actions) > 0
  {
    RunAdvances(b, s, actions);
    NewsBound(b, s, actions);
    DifferentExactly(s.nonce, Run(b, s, actions).nonce, TotalNews(b, s, actions), k);
  }

  /** In particular if a job was handed over in between. */
  lemma {:induction false} NewJobIsSeen(b: Build, s: State, actions: seq<Action>, i: nat, k: nat)
    requires s.Valid() && Through(b, s, actions, (t, a) => !Zeroes(b, t, a))
    requires i < |actions| && HandsOver(b, actions[i]) && 2 * |actions| < TWO64 && k < 3
    ensures Outdated(s.nonce, Run(b, s, actions).nonce, k)
  {
    HandOverIsNews(b, s, actions, i);
    OutdatedExactly(b, s, actions, k);
  }
}
