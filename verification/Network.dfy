/**
 Jobs and results between the pools and the miner (`src/net/Network.cpp`). Jobs come from
 the main strategy or from the donate strategy; results come back later, in any order,
 and go to the donate strategy if their job was donated, and otherwise to the main strategy
 of the moment, which new settings may have put in the place of the one that sent the job.
 */
module Network {
  import opened Jobs
  import opened Nonces
  import M = Miner

  /** The states of `DonateStrategy` (DonateStrategy.h:77-83). */
  datatype Phase = New | Idle | Connect | Active | Wait

  /** `m_donate`, which may be absent. */
  datatype Donate = NoDonate | Donate(phase: Phase) {
    predicate IsActive() {
      Donate? && phase.Active?
    }
  }

  /**
   A main strategy: a number to tell it from the ones it replaced, whether it has several
   pools (`FailoverStrategy`) or one (`SinglePoolStrategy`), and its client's last job.
   */
  datatype Strategy = Strategy(id: nat, failover: bool, active: bool, job: Job)

  datatype Supplier = FromMain(id: nat) | FromDonate

  /** A job as the miner was given it, and who supplied it: which main strategy, or the donate strategy. */
  datatype Given = Given(job: Job, supplier: Supplier)

  /** A result: the number of the job it was made from, and the index copied from that job. */
  datatype Result = Result(made: nat, index: Index)

  datatype Target = ToMain(id: nat) | ToDonate

  /** A call of `submit`; `main` is the main strategy at that time. */
  datatype Sent = Sent(result: Result, target: Target, main: nat)

  datatype State = State(
    donate: Donate,
    strategy: Strategy,
    miner: M.State,
    given: seq<Given>,
    queue: seq<Result>,
    sent: seq<Sent>)

  /** The answers of the dataset code about a job (see `Miner.Action`). */
  datatype Ready = Ready(before: bool, after: bool)

  datatype Action =
    | MainLogin | MainClose | MainJob(job: Job, ready: Ready)
    | DonateLogin | DonateJob(job: Job, ready: Ready) | DonateTimer(ready: Ready) | DonateTick
    | ConfigChanged(samePools: bool, pools: nat, closes: bool)
    | Mine(action: M.Action) | Find(made: nat) | Deliver

  /** `pools` of the configured pools are enabled (Pools.cpp:83-100). */
  function Initial(donates: bool, pools: nat): State {
    State(if donates then Donate(Idle) else NoDonate, Strategy(0, pools != 1, false, NO_JOB), M.INITIAL, [], [], [])
  }

  // ---- The callbacks, on values ----

  function SupplierOf(s: State, donate: bool): Supplier {
    if donate then FromDonate else FromMain(s.strategy.id)
  }

  /** `setJob` (Network.cpp:265-299) */
  function JobSet(b: M.Build, s: State, job: Job, donate: bool, ready: Ready): (t: State)
    requires s.miner.Valid()
    ensures t.miner.Valid()
  {
    var m := M.Next(b, s.miner, M.SetJob(job, donate, ready.before, ready.after));
    s.(miner := m, given := s.given + [Given(m.job, SupplierOf(s, donate))])
  }

  /** `onJob` (Network.cpp:166-173) */
  function JobSeen(b: M.Build, s: State, donate: bool, job: Job, ready: Ready): (t: State)
    requires s.miner.Valid()
    ensures t.miner.Valid()
  {
    if s.donate.IsActive() && !donate then s else JobSet(b, s, job, donate, ready)
  }

  /** `onPause` (Network.cpp:211-223), with `resume` of the main strategy. */
  function PauseSeen(b: M.Build, s: State, donate: bool, ready: Ready): (t: State)
    requires s.miner.Valid()
    ensures t.miner.Valid()
  {
    var t := if donate && s.strategy.active then JobSeen(b, s, false, s.strategy.job, ready) else s;
    if !t.strategy.active then t.(miner := M.Next(b, t.miner, M.Pause)) else t
  }

  /** `onJobResult` (Network.cpp:176-184) */
  function ResultSeen(s: State, r: Result): State {
    var target := if r.index == 1 && s.donate.Donate? then ToDonate else ToMain(s.strategy.id);
    s.(sent := s.sent + [Sent(r, target, s.strategy.id)])
  }

  /**
   `onConfigChanged` (Network.cpp:150-163). Stopping a strategy of several pools always
   reports a pause (FailoverStrategy.cpp:110-120); a strategy of one pool reports it if it
   was active and disconnecting `closes` its connection at once.
   */
  function ConfigSeen(b: M.Build, s: State, samePools: bool, pools: nat, closes: bool): (t: State)
    requires s.miner.Valid()
    ensures t.miner.Valid()
  {
    if samePools || pools == 0 then s
    else
      var t := if ReportsPause(s.strategy, closes)
               then PauseSeen(b, s.(strategy := s.strategy.(active := false)), false, Ready(false, false)) else s;
      t.(strategy := Strategy(s.strategy.id + 1, pools != 1, false, NO_JOB))
  }

  /** Whether stopping the strategy calls `onPause`. */
  predicate ReportsPause(strategy: Strategy, closes: bool) {
    strategy.failover || (strategy.active && closes)
  }

  /** What the surroundings can do; jobs reach the miner through `onJob` only. */
  predicate Possible(b: M.Build, s: State, a: Action)
    requires s.miner.Valid()
  {
    match a
    case MainJob(job, ready) => M.Possible(b, s.miner, M.SetJob(job, false, ready.before, ready.after))
    case DonateJob(job, ready) => M.Possible(b, s.miner, M.SetJob(job, true, ready.before, ready.after))
    case DonateTimer(ready) => M.Possible(b, s.miner, M.SetJob(s.strategy.job, false, ready.before, ready.after))
    case Mine(action) => !action.SetJob? && M.Possible(b, s.miner, action)
    case Find(made) => made < |s.given|
    case Deliver => s.queue != []
    case _ => true
  }

  function Next(b: M.Build, s: State, a: Action): (t: State)
    requires s.miner.Valid() && Possible(b, s, a)
    ensures t.miner.Valid()
  {
    match a
    case MainLogin => s.(strategy := s.strategy.(active := true))
    case MainClose =>
      if s.strategy.active
      then PauseSeen(b, s.(strategy := s.strategy.(active := false)), false, Ready(false, false)) else s
    case MainJob(job, ready) => JobSeen(b, s.(strategy := s.strategy.(job := job)), false, job, ready)
    case DonateLogin => if s.donate.Donate? then s.(donate := Donate(Active)) else s
    case DonateJob(job, ready) => if s.donate.IsActive() then JobSeen(b, s, true, job, ready) else s
    case DonateTimer(ready) =>
      if !s.donate.Donate? then s
      else if s.donate.IsActive() then PauseSeen(b, s.(donate := Donate(Wait)), true, ready)
      else s.(donate := Donate(Connect))
    case DonateTick => if s.donate == Donate(Wait) then s.(donate := Donate(Idle)) else s
    case ConfigChanged(samePools, pools, closes) => ConfigSeen(b, s, samePools, pools, closes)
    case Mine(action) => s.(miner := M.Next(b, s.miner, action))
    case Find(made) => s.(queue := s.queue + [Result(made, s.given[made].job.info.index)])
    case Deliver => ResultSeen(s.(queue := s.queue[1..]), s.queue[0])
  }

  /** A run, or an impossible one. */
  ghost predicate Runs(b: M.Build, s: State, actions: seq<Action>, t: State)
    requires s.miner.Valid()
    decreases |actions|
  {
    if actions == [] then s == t
    else Possible(b, s, actions[0]) && Runs(b, Next(b, s, actions[0]), actions[1..], t)
  }

  // ---- Routing ----

  predicate GivenSound(s: State) {
    forall g <- s.given ::
      g.job.info.index == (if g.supplier.FromDonate? then 1 else 0) && (g.supplier.FromDonate? ==> s.donate.Donate?)
  }

  predicate ResultSound(s: State, r: Result) {
    r.made < |s.given| && r.index == s.given[r.made].job.info.index
  }

  /** Sent to the donate strategy if its job supplied the result, to the main strategy of the moment otherwise. */
  predicate SentSound(s: State, e: Sent) {
    && ResultSound(s, e.result)
    && e.target == if s.given[e.result.made].supplier.FromDonate? then ToDonate else ToMain(e.main)
  }

  predicate Routed(s: State) {
    && s.miner.Valid() && s.miner.autoPause == M.Count(s.miner)
    && GivenSound(s)
    && (forall r <- s.queue :: ResultSound(s, r))
    && (forall e <- s.sent :: SentSound(s, e))
  }

  /** Setting a job adds one entry to the history, with the right index. */
  lemma {:induction false} SetJobEffect(b: M.Build, s: State, job: Job, donate: bool, ready: Ready)
    requires s.miner.Valid() && s.miner.autoPause == M.Count(s.miner)
    requires M.Possible(b, s.miner, M.SetJob(job, donate, ready.before, ready.after))
    ensures var t := JobSet(b, s, job, donate, ready);
            && t == s.(miner := t.miner, given := t.given)
            && t.miner.autoPause == M.Count(t.miner) && t.miner.active
            && t.miner.job == job.WithIndex(if donate then 1 else 0)
            && t.given == s.given + [Given(t.miner.job, SupplierOf(s, donate))]
  {
    hide M.Count, M.TakeJob, M.Possible;
    M.StepEffect(b, s.miner, M.SetJob(job, donate, ready.before, ready.after));
    M.TakeJobEffect(b, s.miner, job, donate, ready.before, ready.after);
  }

  lemma {:induction false} GivenMore(s: State, t: State, g: Given)
    requires Routed(s) && t.given == s.given + [g] && t.donate == s.donate && t.queue == s.queue && t.sent == s.sent
    requires t.miner.Valid() && t.miner.autoPause == M.Count(t.miner)
    requires g.job.info.index == (if g.supplier.FromDonate? then 1 else 0)
    requires g.supplier.FromDonate? ==> s.donate.Donate?
    ensures Routed(t)
  {
    forall x <- t.given
      ensures x in s.given || x == g
    {
    }
    assert forall k :: 0 <= k < |s.given| ==> t.given[k] == s.given[k];
  }

  lemma {:induction false} OnJobKeeps(b: M.Build, s: State, donate: bool, job: Job, ready: Ready)
    requires Routed(s) && (donate ==> s.donate.Donate?)
    requires M.Possible(b, s.miner, M.SetJob(job, donate, ready.before, ready.after))
    ensures Routed(JobSeen(b, s, donate, job, ready))
    ensures JobSeen(b, s, donate, job, ready).strategy == s.strategy
  {
    hide JobSet, M.Count, M.Possible, Routed;
    if !(s.donate.IsActive() && !donate) {
      assert s.miner.Valid() && s.miner.autoPause == M.Count(s.miner) by { MinerSound(s); }
      SetJobEffect(b, s, job, donate, ready);
      var t := JobSet(b, s, job, donate, ready);
      GivenMore(s, t, Given(t.miner.job, SupplierOf(s, donate)));
    }
  }

  lemma {:induction false} MinerSound(s: State)
    requires Routed(s)
    ensures s.miner.Valid() && s.miner.autoPause == M.Count(s.miner)
  {
  }

  /** Only the miner, the phase of the donate strategy or the main strategy changes. */
  lemma {:induction false} SameHistory(s: State, t: State)
    requires Routed(s) && t.given == s.given && t.queue == s.queue && t.sent == s.sent
    requires t.donate.Donate? == s.donate.Donate?
    requires t.miner.Valid() && t.miner.autoPause == M.Count(t.miner)
    ensures Routed(t)
  {
  }

  lemma {:induction false} MineKeeps(b: M.Build, s: State, a: M.Action)
    requires Routed(s) && M.Possible(b, s.miner, a)
    ensures Routed(s.(miner := M.Next(b, s.miner, a)))
  {
    hide M.Next, M.Count, M.Possible, GivenSound, SentSound, ResultSound;
    M.StepEffect(b, s.miner, a);
    SameHistory(s, s.(miner := M.Next(b, s.miner, a)));
  }

  lemma {:induction false} PauseKeeps(b: M.Build, s: State, donate: bool, ready: Ready)
    requires Routed(s)
    requires donate && s.strategy.active ==>
               M.Possible(b, s.miner, M.SetJob(s.strategy.job, false, ready.before, ready.after))
    ensures Routed(PauseSeen(b, s, donate, ready))
  {
    hide JobSeen, Routed, M.Next;
    MinerSound(s);
    var t := s;
    if donate && s.strategy.active {
      OnJobKeeps(b, s, false, s.strategy.job, ready);
      t := JobSeen(b, s, false, s.strategy.job, ready);
    }
    if !t.strategy.active {
      MineKeeps(b, t, M.Pause);
    }
  }

  lemma {:induction false} ResultKeeps(s: State, r: Result)
    requires Routed(s) && ResultSound(s, r)
    ensures Routed(ResultSeen(s, r))
  {
    var t := ResultSeen(s, r);
    assert s.given[r.made] in s.given;
    forall e <- t.sent
      ensures SentSound(t, e)
    {
      assert e in s.sent || e == t.sent[|s.sent|];
    }
  }

  lemma {:induction false} FindKeeps(s: State, made: nat)
    requires Routed(s) && made < |s.given|
    ensures Routed(s.(queue := s.queue + [Result(made, s.given[made].job.info.index)]))
  {
  }

  lemma {:induction false} PopKeeps(s: State)
    requires Routed(s) && s.queue != []
    ensures Routed(s.(queue := s.queue[1..])) && ResultSound(s.(queue := s.queue[1..]), s.queue[0])
  {
    assert forall r <- s.queue[1..] :: r in s.queue;
    assert s.queue[0] in s.queue;
  }

  lemma {:induction false} StepKeeps(b: M.Build, s: State, a: Action)
    requires Routed(s) && Possible(b, s, a)
    ensures Routed(Next(b, s, a))
  {
    MinerSound(s);
    hide Routed, JobSeen, PauseSeen, ResultSeen, M.Next, M.Possible, M.Count;
    match a
    case MainLogin => SameHistory(s, s.(strategy := s.strategy.(active := true)));
    case MainClose =>
      var t := s.(strategy := s.strategy.(active := false));
      SameHistory(s, t);
      PauseKeeps(b, t, false, Ready(false, false));
    case MainJob(job, ready) =>
      var t := s.(strategy := s.strategy.(job := job));
      SameHistory(s, t);
      OnJobKeeps(b, t, false, job, ready);
    case DonateLogin =>
      if s.donate.Donate? { SameHistory(s, s.(donate := Donate(Active))); }
    case DonateJob(job, ready) =>
      if s.donate.IsActive() { OnJobKeeps(b, s, true, job, ready); }
    case DonateTimer(ready) =>
      if s.donate.IsActive() {
        SameHistory(s, s.(donate := Donate(Wait)));
        PauseKeeps(b, s.(donate := Donate(Wait)), true, ready);
      } else if s.donate.Donate? {
        SameHistory(s, s.(donate := Donate(Connect)));
      }
    case DonateTick =>
      if s.donate == Donate(Wait) { SameHistory(s, s.(donate := Donate(Idle))); }
    case ConfigChanged(samePools, pools, closes) => ConfigKeeps(b, s, samePools, pools, closes);
    case Mine(action) => MineKeeps(b, s, action);
    case Find(made) => FindKeeps(s, made);
    case Deliver =>
      PopKeeps(s);
      ResultKeeps(s.(queue := s.queue[1..]), s.queue[0]);
  }

  lemma {:induction false} ConfigKeeps(b: M.Build, s: State, samePools: bool, pools: nat, closes: bool)
    requires Routed(s)
    ensures Routed(ConfigSeen(b, s, samePools, pools, closes))
  {
    MinerSound(s);
    hide Routed, PauseSeen, M.Count;
    var t := s;
    if ReportsPause(s.strategy, closes) {
      var u := s.(strategy := s.strategy.(active := false));
      SameHistory(s, u);
      PauseKeeps(b, u, false, Ready(false, false));
      t := PauseSeen(b, u, false, Ready(false, false));
    }
    MinerSound(t);
    SameHistory(t, t.(strategy := Strategy(s.strategy.id + 1, pools != 1, false, NO_JOB)));
  }

  /**
   Whatever happens, results of donated jobs go to the donate strategy and all others to the
   main strategy of the moment. (`Delivery.BackToItsSupplier` says when that is the one
   that supplied the job.)
   */
  lemma {:induction false} Routing(b: M.Build, s: State, actions: seq<Action>, t: State)
    requires Routed(s) && Runs(b, s, actions, t)
    ensures Routed(t)
    decreases |actions|
  {
    hide Routed, Next, Possible;
    MinerSound(s);
    if actions != [] {
      StepKeeps(b, s, actions[0]);
      Routing(b, Next(b, s, actions[0]), actions[1..], t);
    }
  }

  lemma {:induction false} RoutingFromStart(b: M.Build, donates: bool, pools: nat, actions: seq<Action>, t: State)
    requires Runs(b, Initial(donates, pools), actions, t)
    ensures forall e <- t.sent ::
              && e.result.made < |t.given|
              && e.target == if t.given[e.result.made].supplier.FromDonate? then ToDonate else ToMain(e.main)
  {
    Routing(b, Initial(donates, pools), actions, t);
    assert forall e <- t.sent :: SentSound(t, e);
  }

  // ---- Replacing the pools ----

  /** `onConfigChanged` puts another main strategy in place (Network.cpp:150-163). */
  predicate Replaces(a: Action) {
    a.ConfigChanged? && !a.samePools && a.pools > 0
  }

  /** The strategy that supplied a job. */
  function Home(supplier: Supplier): Target {
    match supplier
    case FromMain(id) => ToMain(id)
    case FromDonate => ToDonate
  }

  /** Only this makes the main strategy another one, and it gives the miner no job itself. */
  lemma {:induction false} StrategyStep(b: M.Build, s: State, a: Action)
    requires s.miner.Valid() && Possible(b, s, a)
    ensures var t := Next(b, s, a);
            && t.strategy.id == s.strategy.id + (if Replaces(a) then 1 else 0)
            && s.given <= t.given && (Replaces(a) ==> t.given == s.given)
            && forall k :: |s.given| <= k < |t.given| ==>
                 t.given[k].supplier.FromDonate? || t.given[k].supplier == FromMain(s.strategy.id)
  {
    hide M.Next, M.Possible;
  }

  /** New pools, and then a result of the user's that was on its way. */
  lemma {:induction false} ResultAfterNewPools(b: M.Build, s: State, r: Result) returns (t: State)
    requires s.miner.Valid() && s.queue == [r] && r.index == 0
    ensures Runs(b, s, [ConfigChanged(false, 1, false), Deliver], t)
    ensures t.given == s.given && t.sent == s.sent + [Sent(r, ToMain(s.strategy.id + 1), s.strategy.id + 1)]
  {
    hide M.Next, M.Possible;
    var a := ConfigChanged(false, 1, false);
    var u := Next(b, s, a);
    t := Next(b, u, Deliver);
    RunsStep(b, s, a, [Deliver], t);
    RunsStep(b, u, Deliver, [], t);
  }

  /** A result of the first job of a single pool is on its way. */
  lemma {:induction false} FirstResult(b: M.Build, job: Job) returns (t: State)
    ensures Runs(b, Initial(false, 1), [MainLogin, MainJob(job, Ready(true, true)), Find(0)], t)
    ensures t.miner.Valid() && t.strategy.id == 0 && t.given == [Given(job.WithIndex(0), FromMain(0))]
    ensures t.queue == [Result(0, 0)] && t.sent == []
  {
    var ready := Ready(true, true);
    var s := Initial(false, 1);
    var s0 := Next(b, s, MainLogin);
    var s1 := Next(b, s0, MainJob(job, ready));
    SetJobEffect(b, s0.(strategy := s0.strategy.(job := job)), job, false, ready);
    hide M.Next, M.Possible, JobSet;
    t := Next(b, s1, Find(0));
    RunsStep(b, s, MainLogin, [MainJob(job, ready), Find(0)], t);
    RunsStep(b, s0, MainJob(job, ready), [Find(0)], t);
    RunsStep(b, s1, Find(0), [], t);
  }

  /**
   A result that does not go back to its supplier: the pools are replaced while it is on its
   way, and the new main strategy gets the result of the old one's job.
   */
  lemma {:induction false} SentToNewPools(b: M.Build, job: Job) returns (t: State)
    ensures Runs(b, Initial(false, 1),
                 [MainLogin, MainJob(job, Ready(true, true)), Find(0), ConfigChanged(false, 1, false), Deliver], t)
    ensures |t.given| == 1 && t.given[0].supplier == FromMain(0)
    ensures t.sent == [Sent(Result(0, 0), ToMain(1), 1)]
  {
    var first, last := [MainLogin, MainJob(job, Ready(true, true)), Find(0)], [ConfigChanged(false, 1, false), Deliver];
    var s := FirstResult(b, job);
    t := ResultAfterNewPools(b, s, Result(0, 0));
    hide Runs, Initial;
    RunsAppend(b, Initial(false, 1), first, s, last, t);
    assert first + last
        == [MainLogin, MainJob(job, Ready(true, true)), Find(0), ConfigChanged(false, 1, false), Deliver];
  }

  lemma {:induction false} RunsAppend(b: M.Build, s: State, p: seq<Action>, u: State, q: seq<Action>, t: State)
    requires s.miner.Valid() && Runs(b, s, p, u) && u.miner.Valid() && Runs(b, u, q, t)
    ensures Runs(b, s, p + q, t)
    decreases |p|
  {
    hide Next, Possible;
    if p == [] {
      assert p + q == q;
    } else {
      RunsAppend(b, Next(b, s, p[0]), p[1..], u, q, t);
      RunsStep(b, s, p[0], p[1..] + q, t);
      assert [p[0]] + (p[1..] + q) == p + q;
    }
  }

  lemma {:induction false} RunsStep(b: M.Build, s: State, a: Action, rest: seq<Action>, t: State)
    requires s.miner.Valid() && Possible(b, s, a)
    ensures Runs(b, s, [a] + rest, t) == Runs(b, Next(b, s, a), rest, t)
  {
    assert ([a] + rest)[1..] == rest;
  }

  // ---- Donating excludes mining for the user ----

  /** The donate strategy is active before and after every step. */
  ghost predicate Donating(b: M.Build, s: State, actions: seq<Action>)
    requires s.miner.Valid()
    decreases |actions|
  {
    s.donate.IsActive() &&
    (actions == [] || (Possible(b, s, actions[0]) && Donating(b, Next(b, s, actions[0]), actions[1..])))
  }

  /** A step that leaves the donate strategy active gives the miner no job of the main strategy. */
  lemma {:induction false} DonatingStep(b: M.Build, s: State, a: Action)
    requires s.miner.Valid() && Possible(b, s, a) && s.donate.IsActive() && Next(b, s, a).donate.IsActive()
    ensures var t := Next(b, s, a);
            t.given == s.given
            || (&& |t.given| == |s.given| + 1 && t.given[..|s.given|] == s.given
                && t.given[|s.given|].supplier.FromDonate?)
  {
    hide M.Next, M.Possible;
  }

  lemma {:induction false} NoUserJobWhileDonating(b: M.Build, s: State, actions: seq<Action>, t: State)
    requires s.miner.Valid() && Donating(b, s, actions) && Runs(b, s, actions, t)
    ensures |s.given| <= |t.given|
    ensures forall k :: |s.given| <= k < |t.given| ==> t.given[k].supplier.FromDonate?
    decreases |actions|
  {
    hide Next, Possible;
    if actions != [] {
      DonatingStep(b, s, actions[0]);
      NoUserJobWhileDonating(b, Next(b, s, actions[0]), actions[1..], t);
      SameGiven(b, Next(b, s, actions[0]), actions[1..], t);
    }
  }

  lemma {:induction false} GivenGrows(b: M.Build, s: State, a: Action)
    requires s.miner.Valid() && Possible(b, s, a)
    ensures s.given <= Next(b, s, a).given
  {
    hide M.Next, M.Possible;
  }

  /** Only results are submitted. */
  lemma {:induction false} SentKept(b: M.Build, s: State, a: Action)
    requires s.miner.Valid() && Possible(b, s, a) && !a.Deliver?
    ensures Next(b, s, a).sent == s.sent
  {
    hide M.Next, M.Possible;
  }

  lemma {:induction false} SameGiven(b: M.Build, s: State, actions: seq<Action>, t: State)
    requires s.miner.Valid() && Runs(b, s, actions, t)
    ensures s.given <= t.given
    decreases |actions|
  {
    hide Next, Possible;
    if actions != [] {
      GivenGrows(b, s, actions[0]);
      SameGiven(b, Next(b, s, actions[0]), actions[1..], t);
    }
  }

  // ---- Jobs reach the miner ----

  /**
   A job of the main strategy is worked on at once, or kept for later while donating; a
   donated job is worked on while donating, and otherwise dropped.
   */
  lemma {:induction false} JobsReachTheMiner(b: M.Build, s: State, job: Job, ready: Ready)
    requires Routed(s) && Possible(b, s, MainJob(job, ready)) && Possible(b, s, DonateJob(job, ready))
    ensures var t := Next(b, s, MainJob(job, ready));
            && t.strategy.job == job
            && (s.donate.IsActive() ==> t.miner == s.miner)
            && (!s.donate.IsActive() ==> t.miner.active && t.miner.job == job.WithIndex(0))
    ensures var t := Next(b, s, DonateJob(job, ready));
            && (s.donate.IsActive() ==> t.miner.active && t.miner.job == job.WithIndex(1))
            && (!s.donate.IsActive() ==> t == s)
  {
    hide M.TakeJob, M.Count, M.Next, M.Possible, JobSet;
    MinerSound(s);
    SetJobEffect(b, s.(strategy := s.strategy.(job := job)), job, false, ready);
    SetJobEffect(b, s, job, true, ready);
  }

  /**
   A round of the donate strategy: its timer lets it connect, logging in makes it active, the
   timer ends that, and after a while it can connect again.
   */
  lemma {:induction false} DonateRound(b: M.Build, s: State, ready: Ready)
    requires s.miner.Valid() && s.donate == Donate(Idle) && Possible(b, s, DonateTimer(ready))
    ensures var connecting := Next(b, s, DonateTimer(ready));
            var active := Next(b, connecting, DonateLogin);
            && connecting == s.(donate := Donate(Connect)) && active == s.(donate := Donate(Active))
            && Possible(b, active, DonateTimer(ready))
            && var over := Next(b, active, DonateTimer(ready));
               over.donate == Donate(Wait) && Next(b, over, DonateTick) == over.(donate := Donate(Idle))
  {
    hide M.Next, M.Possible;
  }

  // ---- When a strategy pauses ----

  /**
   When donating ends, the miner is back on the job of the main strategy if that one is
   active, and paused if it is not; likewise paused when the main strategy closes.
   */
  lemma {:induction false} AfterDonating(b: M.Build, s: State, ready: Ready)
    requires Routed(s) && s.donate.IsActive() && Possible(b, s, DonateTimer(ready))
    ensures var t := Next(b, s, DonateTimer(ready));
            && (s.strategy.active ==> t.miner.active && t.miner.job == s.strategy.job.WithIndex(0))
            && (!s.strategy.active ==> !t.miner.active && t.miner.nonce.paused)
  {
    hide M.TakeJob, M.Count, JobSet;
    MinerSound(s);
    if s.strategy.active {
      SetJobEffect(b, s.(donate := Donate(Wait)), s.strategy.job, false, ready);
    }
  }

  lemma {:induction false} AfterClose(b: M.Build, s: State)
    requires s.miner.Valid() && s.strategy.active
    ensures var t := Next(b, s, MainClose); !t.miner.active && t.miner.nonce.paused
  {
  }

  /**
   Replacing the pools pauses the miner exactly if stopping the old strategy reports a
   pause: with several pools always, even if none was active and donated work goes on.
   */
  lemma {:induction false} AfterPoolsReplaced(b: M.Build, s: State, pools: nat, closes: bool)
    requires s.miner.Valid() && pools > 0
    ensures var t := Next(b, s, ConfigChanged(false, pools, closes));
            && t.donate == s.donate && t.strategy.id == s.strategy.id + 1 && !t.strategy.active
            && (ReportsPause(s.strategy, closes) ==> !t.miner.active && t.miner.nonce.paused)
            && (!ReportsPause(s.strategy, closes) ==> t.miner == s.miner)
  {
  }

  // ---- A round of donation keeps the user's nonces ----

  /** The main strategy's last job is the user's job `id`, which the miner works on or left for a donated one. */
  predicate InRound(s: State, id: string) {
    && s.miner.Valid() && s.miner.autoPause == M.Count(s.miner)
    && !s.miner.building && s.miner.userJobId == id && s.strategy.job.info.id == id
    && (s.miner.job.info.index == 1 || s.miner.job.EqualBlob(s.strategy.job))
  }

  /** The pool sends no new job, the pools stay the same, and donated jobs are ready. */
  predicate Quiet(b: M.Build, a: Action) {
    match a
    case DonateJob(_, ready) => b.randomX ==> ready.after
    case MainJob(_, _) => false
    case ConfigChanged(_, _, _) => false
    case _ => true
  }

  /** Quiet steps with the donate strategy active before and after each. */
  ghost predicate Round(b: M.Build, s: State, actions: seq<Action>)
    requires s.miner.Valid()
    decreases |actions|
  {
    s.donate.IsActive() &&
    (actions == []
     || (Possible(b, s, actions[0]) && Quiet(b, actions[0]) && Round(b, Next(b, s, actions[0]), actions[1..])))
  }

  /** What workers take from the user's counter. */
  function TakenIn(a: Action): Word64 {
    if a.Mine? && a.action.Take? && a.action.index == 0 then a.action.count else 0
  }

  function TotalTaken(actions: seq<Action>): nat {
    if actions == [] then 0 else TakenIn(actions[0]) + TotalTaken(actions[1..])
  }

  lemma {:induction false} AddNothing(x: Word64)
    ensures Add(x, 0) == x
  {
  }

  /** Handing a donated job, or the user's own job again, to the miner. */
  lemma {:induction false} RoundJob(b: M.Build, s: State, id: string, job: Job, donate: bool, ready: Ready)
    requires InRound(s, id) && (b.randomX ==> ready.after)
    requires M.Possible(b, s.miner, M.SetJob(job, donate, ready.before, ready.after))
    requires donate || job == s.strategy.job
    ensures var t := JobSet(b, s, job, donate, ready);
            InRound(t, id) && t.miner.nonce.counters[0] == s.miner.nonce.counters[0]
  {
    hide M.Next, M.Possible, M.TakeJob, M.Count;
    M.ContinuityStep(b, s.miner, M.SetJob(job, donate, ready.before, ready.after), id);
    SetJobEffect(b, s, job, donate, ready);
  }

  /** Anything else the miner is told. */
  lemma {:induction false} RoundMine(b: M.Build, s: State, id: string, a: M.Action)
    requires InRound(s, id) && !a.SetJob? && M.Possible(b, s.miner, a)
    ensures var t := s.(miner := M.Next(b, s.miner, a));
            InRound(t, id) && t.miner.nonce.counters[0] == Add(s.miner.nonce.counters[0], TakenIn(Mine(a)))
  {
    AddNothing(s.miner.nonce.counters[0]);
    M.ContinuityStep(b, s.miner, a, id);
    M.JobStays(b, s.miner, a);
    hide M.Next, M.Possible, M.Count;
  }

  lemma {:induction false} RoundStep(b: M.Build, s: State, id: string, a: Action)
    requires InRound(s, id) && s.donate.IsActive() && Possible(b, s, a) && Quiet(b, a)
    requires Next(b, s, a).donate.IsActive()
    ensures var t := Next(b, s, a);
            InRound(t, id) && t.miner.nonce.counters[0] == Add(s.miner.nonce.counters[0], TakenIn(a))
  {
    AddNothing(s.miner.nonce.counters[0]);
    hide M.Next, M.Possible, M.Count, JobSet, Add;
    match a
    case MainClose =>
      if s.strategy.active { RoundMine(b, s.(strategy := s.strategy.(active := false)), id, M.Pause); }
    case DonateJob(job, ready) => RoundJob(b, s, id, job, true, ready);
    case Mine(action) => RoundMine(b, s, id, action);
    case _ =>
  }

  lemma {:induction false} RoundRun(b: M.Build, s: State, id: string, actions: seq<Action>, t: State)
    requires InRound(s, id) && Round(b, s, actions) && Runs(b, s, actions, t)
    requires s.miner.nonce.counters[0] + TotalTaken(actions) < TWO64
    ensures InRound(t, id) && t.donate.IsActive()
    ensures t.miner.nonce.counters[0] == s.miner.nonce.counters[0] + TotalTaken(actions)
    decreases |actions|
  {
    hide Next, Possible, M.Count, Quiet, TakenIn;
    if actions != [] {
      var u := Next(b, s, actions[0]);
      assert Round(b, u, actions[1..]);
      RoundStep(b, s, id, actions[0]);
      RoundRun(b, u, id, actions[1..], t);
    }
  }

  /**
   Over a whole round of donation, up to and including the return to the user's job, the
   user's nonces go on where they were: only what the workers took is missing.
   */
  lemma {:induction false} DonationRound(b: M.Build, s: State, id: string, actions: seq<Action>, t: State, ready: Ready)
    requires InRound(s, id) && Round(b, s, actions) && Runs(b, s, actions, t)
    requires s.miner.nonce.counters[0] + TotalTaken(actions) < TWO64
    requires t.miner.Valid() && Possible(b, t, DonateTimer(ready)) && (b.randomX ==> ready.after)
    ensures var u := Next(b, t, DonateTimer(ready));
            && !u.donate.IsActive()
            && (t.strategy.active ==> u.miner.job == t.strategy.job.WithIndex(0))
            && u.miner.nonce.counters[0] == s.miner.nonce.counters[0] + TotalTaken(actions)
  {
    RoundRun(b, s, id, actions, t);
    hide M.Next, M.Possible, M.Count, Runs, Round, PauseSeen;
    RoundEnd(b, t.(donate := Donate(Wait)), id, ready);
  }

  lemma {:induction false} RoundEnd(b: M.Build, s: State, id: string, ready: Ready)
    requires InRound(s, id) && !s.donate.IsActive() && (b.randomX ==> ready.after)
    requires M.Possible(b, s.miner, M.SetJob(s.strategy.job, false, ready.before, ready.after))
    ensures var t := PauseSeen(b, s, true, ready);
            && t.donate == s.donate && t.miner.nonce.counters[0] == s.miner.nonce.counters[0]
            && (s.strategy.active ==> t.miner.job == s.strategy.job.WithIndex(0))
  {
    hide M.Next, M.Count, JobSet, Add;
    if s.strategy.active {
      RoundJob(b, s, id, s.strategy.job, false, ready);
      SetJobEffect(b, s, s.strategy.job, false, ready);
    } else {
      AddNothing(s.miner.nonce.counters[0]);
      RoundMine(b, s, id, M.Pause);
    }
  }

  // ---- The code ----

  /** The loop and the swap of `onLogin` (Network.cpp:192-201): the pool's own algorithm goes first. */
  method PreferAlgorithm(algorithms: array<Algorithm>, own: Algorithm)
    modifies algorithms
    ensures multiset(algorithms[..]) == old(multiset(algorithms[..]))
    ensures own in old(algorithms[..]) ==> algorithms[0] == own
    ensures own !in old(algorithms[..]) ==> algorithms[..] == old(algorithms[..])
  {
    var index := 0;
    while index < algorithms.Length && algorithms[index] != own
      invariant index <= algorithms.Length && own !in algorithms[..index]
    {
      index := index + 1;
    }
    if index > 0 && index < algorithms.Length {
      algorithms[0], algorithms[index] := algorithms[index], algorithms[0];
    }
  }

  /**
   `Network`. The strategies are values; `given` and `queue` (results not handed over yet)
   only record what happened. `sent` records the calls of `submit`.
   */
  class Network {
    const build: M.Build
    const miner: M.Miner
    var donate: Donate
    var strategy: Strategy
    ghost var given: seq<Given>
    ghost var queue: seq<Result>
    var sent: seq<Sent>

    ghost predicate Valid()
      reads this, miner, miner.nonce
    {
      miner.Valid() && miner.build == build
    }

    ghost function View(): (s: State)
      reads this, miner, miner.nonce
      requires Valid()
      ensures s.miner.Valid()
    {
      State(donate, strategy, miner.View(), given, queue, sent)
    }

    constructor (build: M.Build, donates: bool, pools: nat)
      ensures Valid() && fresh(miner) && fresh(miner.nonce) && View() == Initial(donates, pools)
    {
      this.build := build;
      miner := new M.Miner(build);
      donate := if donates then Donate(Idle) else NoDonate;
      strategy := Strategy(0, pools != 1, false, NO_JOB);
      given, queue, sent := [], [], [];
    }

    method SetJob(job: Job, donates: bool, ready: Ready)
      requires Valid()
      modifies this`given, miner, miner.nonce
      ensures Valid() && View() == JobSet(build, old(View()), job, donates, ready)
    {
      hide M.TakeJob;
      miner.SetJob(job, donates, ready.before, ready.after);
      given := given + [Given(miner.job, if donates then FromDonate else FromMain(strategy.id))];
    }

    method OnJob(fromDonate: bool, job: Job, ready: Ready)
      requires Valid()
      modifies this`given, miner, miner.nonce
      ensures Valid() && View() == JobSeen(build, old(View()), fromDonate, job, ready)
    {
      if donate.IsActive() && !fromDonate {
        return;
      }
      SetJob(job, fromDonate, ready);
    }

    method OnJobResult(result: Result)
      requires Valid()
      modifies this`sent
      ensures Valid() && View() == ResultSeen(old(View()), result)
    {
      if result.index == 1 && donate.Donate? {
        sent := sent + [Sent(result, ToDonate, strategy.id)];
        return;
      }
      sent := sent + [Sent(result, ToMain(strategy.id), strategy.id)];
    }

    method OnPause(fromDonate: bool, ready: Ready)
      requires Valid()
      modifies this`given, miner, miner.nonce
      ensures Valid() && View() == PauseSeen(build, old(View()), fromDonate, ready)
    {
      hide JobSet, M.PauseMining;
      if fromDonate {
        if strategy.active {
          OnJob(false, strategy.job, ready);
        }
      }
      if !strategy.active {
        miner.Pause();
      }
    }

    method OnConfigChanged(samePools: bool, pools: nat, closes: bool)
      requires Valid()
      modifies this`given, this`strategy, miner, miner.nonce
      ensures Valid() && View() == ConfigSeen(build, old(View()), samePools, pools, closes)
    {
      hide M.PauseMining, PauseSeen;
      if samePools || pools == 0 {
        return;
      }
      StopStrategy(closes);
      strategy := Strategy(strategy.id + 1, pools != 1, false, NO_JOB);
    }

    /** `stop` of either kind of main strategy, as far as it calls back. */
    method StopStrategy(closes: bool)
      requires Valid()
      modifies this`given, this`strategy, miner, miner.nonce
      ensures Valid() && strategy.id == old(strategy.id)
      ensures View() == if ReportsPause(old(strategy), closes)
                        then PauseSeen(build, old(View()).(strategy := old(strategy).(active := false)),
                                       false, Ready(false, false))
                        else old(View())
    {
      hide M.PauseMining, PauseSeen;
      if strategy.failover || (strategy.active && closes) {
        strategy := strategy.(active := false);
        OnPause(false, Ready(false, false));
      }
    }
  }
}
