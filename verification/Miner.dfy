/**
 The miner (`src/core/Miner.cpp`): which job is worked on, when work pauses, and when
 nonce counters start again. The class does what the program does; `Next` gives the effect
 of each of its operations on a value, and the properties are proved about runs of `Next`.
 */
module Miner {
  import opened Jobs
  import opened Nonces

  /**
   The fields of `MinerPrivate` and the nonces. `backendJob` is the job the backends last
   chose their threads for (workers ask for the current job themselves); `building` says
   that some job found its dataset missing.
   */
  datatype State = State(
    active: bool,
    batteryPower: bool,
    userActive: bool,
    enabled: bool,
    autoPause: int,
    reset: bool,
    job: Job,
    userJobId: string,
    ticks: nat,
    algorithm: Algorithm,
    backendJob: Job,
    building: bool,
    nonce: NonceState) {

    predicate Valid() {
      nonce.Valid()
    }
  }

  const INITIAL := State(false, false, false, true, 0, true, NO_JOB, "", 0, NO_ALGORITHM, NO_JOB, false, FRESH)

  /** What a tick finds: the settings, and the state of the machine. */
  datatype Sensors = Sensors(pauseOnBattery: bool, pauseOnActive: bool, onBattery: bool, userPresent: bool)

  /**
   Calls from outside. `wasReady` and `ready` are the answers of `Rx::isReady` before the
   job is taken over and of `Rx::init` after; `Take` is a worker taking nonces, `Exhaust`
   a worker pausing because it took the last ones.
   */
  datatype Action =
    | SetJob(job: Job, donate: bool, wasReady: bool, ready: bool)
    | DatasetReady(isReady: bool)
    | Pause
    | SetEnabled(on: bool, pauseOnBattery: bool)
    | Tick(sensors: Sensors, stopMiner: bool)
    | ConfigChanged(poolsReplaced: bool)
    | Take(index: Index, count: Word64)
    | Exhaust
    | StopMiner

  /** Builds without RandomX have no datasets to wait for. */
  datatype Build = Build(randomX: bool)

  // ---- The operations, on values ----

  function Touch(s: State): (t: State)
    requires s.Valid()
    ensures t.Valid()
  {
    s.(nonce := Touched(s.nonce))
  }

  function SetPaused(s: State, p: bool): (t: State)
    requires s.Valid()
    ensures t.Valid()
  {
    s.(nonce := Paused(s.nonce, p))
  }

  function AfterJobChange(s: State): (t: State)
    requires s.Valid()
    ensures t.Valid()
  {
    var n1 := if !s.enabled then Paused(s.nonce, true) else s.nonce;
    var n2 := Touched(if s.reset then WithReset(n1, s.job.info.index) else n1);
    var n3 := if s.active && s.enabled then Paused(n2, false) else n2;
    s.(backendJob := s.job, nonce := n3, ticks := if s.ticks == 0 then 1 else s.ticks)
  }

  function PauseMining(s: State): (t: State)
    requires s.Valid()
    ensures t.Valid()
  {
    Touch(SetPaused(s.(active := false), true))
  }

  /** Whether `setEnabled` does anything. */
  predicate Switches(s: State, on: bool, pauseOnBattery: bool) {
    s.enabled != on && !(pauseOnBattery && s.batteryPower && on)
  }

  function Enable(s: State, on: bool, pauseOnBattery: bool): (t: State)
    requires s.Valid()
    ensures t.Valid()
  {
    if !Switches(s, on, pauseOnBattery) then s
    else if !s.active then s.(enabled := on)
    else Touch(SetPaused(s.(enabled := on), !on))
  }

  function StopNow(s: State): (t: State)
    requires s.Valid()
    ensures t.Valid()
  {
    s.(nonce := Stopped(s.nonce))
  }

  /** `setJob` stops the workers if the dataset is missing and the algorithm is new. */
  predicate StopsForJob(b: Build, s: State, job: Job, wasReady: bool) {
    b.randomX && job.info.algorithm.family.RandomX? && !wasReady && s.algorithm != job.info.algorithm
  }

  /** Whether the nonces start again with this job. */
  predicate Restarts(s: State, job: Job, donate: bool) {
    !(s.job.info.index == 1 && !donate && s.userJobId == job.info.id) && !s.job.EqualBlob(job)
  }

  /** Nobody works while the dataset of the new job is missing. */
  function NonceDuring(b: Build, s: State, job: Job, wasReady: bool): (n: NonceState)
    requires s.Valid()
    ensures n.Valid()
  {
    if !(b.randomX && job.info.algorithm.family.RandomX? && !wasReady) then s.nonce
    else if s.algorithm != job.info.algorithm then Stopped(s.nonce)
    else Touched(Paused(s.nonce, true))
  }

  /** `setJob` up to the call of `handleJobChange`. */
  function TakeOver(b: Build, s: State, job: Job, donate: bool, wasReady: bool, isReady: bool): (t: State)
    requires s.Valid()
    ensures t.Valid()
  {
    s.(nonce := NonceDuring(b, s, job, wasReady),
       algorithm := job.info.algorithm,
       reset := Restarts(s, job, donate) || !isReady,
       job := job.WithIndex(if donate then 1 else 0),
       userJobId := if donate then s.userJobId else job.info.id,
       active := true,
       building := s.building || !isReady)
  }

  function TakeJob(b: Build, s: State, job: Job, donate: bool, wasReady: bool, ready: bool): (t: State)
    requires s.Valid()
    ensures t.Valid()
  {
    var isReady := !b.randomX || ready;
    var t := TakeOver(b, s, job, donate, wasReady, isReady);
    if isReady then AfterJobChange(t) else t
  }

  /** The lambda of `onTimer`, for either flag. */
  function AutoPauseBattery(s: State, pause: bool, pauseOnBattery: bool): (t: State)
    requires s.Valid()
    ensures t.Valid()
  {
    if s.batteryPower == pause then s
    else
      var n := s.autoPause + if pause then 1 else -1;
      Enable(s.(batteryPower := pause, autoPause := n), n == 0, pauseOnBattery)
  }

  function AutoPauseUser(s: State, pause: bool, pauseOnBattery: bool): (t: State)
    requires s.Valid()
    ensures t.Valid()
  {
    if s.userActive == pause then s
    else
      var n := s.autoPause + if pause then 1 else -1;
      Enable(s.(userActive := pause, autoPause := n), n == 0, pauseOnBattery)
  }

  /** A tick up to the point where it looks at the user. */
  function Halfway(s: State, sensors: Sensors): (t: State)
    requires s.Valid()
    ensures t.Valid()
  {
    var s1 := s.(ticks := s.ticks + 1);
    if sensors.pauseOnBattery then AutoPauseBattery(s1, sensors.onBattery, true) else s1
  }

  function SecondHalf(s: State, sensors: Sensors): (t: State)
    requires s.Valid()
    ensures t.Valid()
  {
    if sensors.pauseOnActive then AutoPauseUser(s, sensors.userPresent, sensors.pauseOnBattery) else s
  }

  function AfterTick(s: State, sensors: Sensors, stopMiner: bool): (t: State)
    requires s.Valid()
    ensures t.Valid()
  {
    var t := SecondHalf(Halfway(s, sensors), sensors);
    if stopMiner then StopNow(t) else t
  }

  /**
   What the surroundings can do: a dataset in use stays ready, one is announced only if it was
   asked for, and the timer runs from the first hand-over on.
   */
  predicate Possible(b: Build, s: State, a: Action) {
    match a
    case SetJob(job, _, wasReady, ready) => (wasReady ==> ready) && (!job.info.algorithm.family.RandomX? ==> ready)
    case DatasetReady(_) => b.randomX && s.building
    case Tick(_, _) => s.ticks > 0
    case _ => true
  }

  function Next(b: Build, s: State, a: Action): (t: State)
    requires s.Valid()
    ensures t.Valid()
  {
    match a
    case SetJob(job, donate, wasReady, ready) => TakeJob(b, s, job, donate, wasReady, ready)
    case DatasetReady(isReady) => if isReady then AfterJobChange(s) else s
    case Pause => PauseMining(s)
    case SetEnabled(on, pauseOnBattery) => Enable(s, on, pauseOnBattery)
    case Tick(sensors, stopMiner) => AfterTick(s, sensors, stopMiner)
    case ConfigChanged(poolsReplaced) => if poolsReplaced then s else s.(backendJob := s.job)
    case Take(index, count) => s.(nonce := Taken(s.nonce, index, count))
    case Exhaust => SetPaused(s, true)
    case StopMiner => StopNow(s)
  }

  function Run(b: Build, s: State, actions: seq<Action>): (t: State)
    requires s.Valid()
    ensures t.Valid()
    decreases |actions|
  {
    if actions == [] then s else Run(b, Next(b, s, actions[0]), actions[1..])
  }

  /** A run of possible actions, each of which satisfies `p` where it happens. */
  ghost predicate Through(b: Build, s: State, actions: seq<Action>, p: (State, Action) -> bool)
    requires s.Valid()
    decreases |actions|
  {
    actions == [] ||
    (Possible(b, s, actions[0]) && p(s, actions[0]) && Through(b, Next(b, s, actions[0]), actions[1..], p))
  }

  // ---- What the operations change ----

  /** Switching on or off, with or without a change of the reasons to pause. */
  predicate Toggled(s: State, t: State) {
    && t.active == s.active && t.reset == s.reset && t.job == s.job && t.userJobId == s.userJobId
    && t.algorithm == s.algorithm && t.backendJob == s.backendJob && t.building == s.building
    && t.nonce.counters == s.nonce.counters
    && t.nonce.paused == if t.enabled == s.enabled || !s.active then s.nonce.paused else !t.enabled
  }

  /** Reasons to pause. */
  function Count(s: State): int {
    (if s.batteryPower then 1 else 0) + if s.userActive then 1 else 0
  }

  lemma {:induction false} EnableEffect(s: State, on: bool, pauseOnBattery: bool)
    requires s.Valid()
    ensures var t := Enable(s, on, pauseOnBattery);
            && Toggled(s, t)
            && t.batteryPower == s.batteryPower && t.userActive == s.userActive && t.autoPause == s.autoPause
            && t.enabled == if Switches(s, on, pauseOnBattery) then on else s.enabled
  {
  }

  lemma {:induction false} BatteryEffect(s: State, pause: bool, pauseOnBattery: bool)
    requires s.Valid() && s.autoPause == Count(s)
    ensures var t := AutoPauseBattery(s, pause, pauseOnBattery);
            && Toggled(s, t) && t.autoPause == Count(t) && t.batteryPower == pause && t.userActive == s.userActive
            && t.enabled == if s.batteryPower == pause then s.enabled else t.autoPause == 0
  {
    hide Enable;
    var n := s.autoPause + if pause then 1 else -1;
    EnableEffect(s.(batteryPower := pause, autoPause := n), n == 0, pauseOnBattery);
  }

  lemma {:induction false} UserEffect(s: State, pause: bool, pauseOnBattery: bool)
    requires s.Valid() && s.autoPause == Count(s)
    ensures var t := AutoPauseUser(s, pause, pauseOnBattery);
            && Toggled(s, t) && t.autoPause == Count(t) && t.userActive == pause && t.batteryPower == s.batteryPower
            && t.enabled == if s.userActive == pause then s.enabled else t.autoPause == 0
  {
    hide Enable;
    var n := s.autoPause + if pause then 1 else -1;
    EnableEffect(s.(userActive := pause, autoPause := n), n == 0, pauseOnBattery);
  }

  lemma {:induction false} HalfwayEffect(s: State, sensors: Sensors)
    requires s.Valid() && s.autoPause == Count(s)
    ensures var t := Halfway(s, sensors);
            && Toggled(s, t) && t.autoPause == Count(t) && t.userActive == s.userActive
            && t.batteryPower == (if sensors.pauseOnBattery then sensors.onBattery else s.batteryPower)
            && t.enabled == (if t.batteryPower == s.batteryPower then s.enabled else t.autoPause == 0)
  {
    hide AutoPauseBattery;
    var s1 := s.(ticks := s.ticks + 1);
    BatteryEffect(s1, sensors.onBattery, true);
  }

  lemma {:induction false} SecondHalfEffect(s: State, sensors: Sensors)
    requires s.Valid() && s.autoPause == Count(s)
    ensures var t := SecondHalf(s, sensors);
            && Toggled(s, t) && t.autoPause == Count(t) && t.batteryPower == s.batteryPower
            && t.userActive == (if sensors.pauseOnActive then sensors.userPresent else s.userActive)
            && t.enabled == (if t.userActive == s.userActive then s.enabled else t.autoPause == 0)
  {
    hide AutoPauseUser;
    UserEffect(s, sensors.userPresent, sensors.pauseOnBattery);
  }

  /** A tick is two changes of state, one for each reason to pause, and possibly a stop. */
  lemma {:induction false} TickEffect(b: Build, s: State, sensors: Sensors, stopMiner: bool)
    requires s.Valid() && s.autoPause == Count(s)
    ensures var m := Halfway(s, sensors);
            var t := SecondHalf(m, sensors);
            && Next(b, s, Tick(sensors, stopMiner)) == (if stopMiner then StopNow(t) else t)
            && Toggled(s, m) && Toggled(m, t) && m.autoPause == Count(m) && t.autoPause == Count(t)
            && m.userActive == s.userActive && t.batteryPower == m.batteryPower
            && m.batteryPower == (if sensors.pauseOnBattery then sensors.onBattery else s.batteryPower)
            && t.userActive == (if sensors.pauseOnActive then sensors.userPresent else s.userActive)
            && m.enabled == (if m.batteryPower == s.batteryPower then s.enabled else m.autoPause == 0)
            && t.enabled == (if t.userActive == m.userActive then m.enabled else t.autoPause == 0)
  {
    HalfwayEffect(s, sensors);
    SecondHalfEffect(Halfway(s, sensors), sensors);
    hide Toggled, Count, Halfway, SecondHalf;
  }

  /** Giving the current job to the backends. */
  lemma {:induction false} ChangeEffect(s: State)
    requires s.Valid()
    ensures var t := AfterJobChange(s);
            && t.active == s.active && t.batteryPower == s.batteryPower && t.userActive == s.userActive
            && t.enabled == s.enabled && t.autoPause == s.autoPause && t.job == s.job && t.userJobId == s.userJobId
            && t.algorithm == s.algorithm && t.backendJob == s.job && t.building == s.building && t.reset == s.reset
            && t.nonce.counters == (if s.reset then s.nonce.counters[s.job.info.index := 0] else s.nonce.counters)
            && t.nonce.paused == if s.enabled then s.nonce.paused && !s.active else true
  {
  }

  lemma {:induction false} TakeOverEffect(b: Build, s: State, job: Job, donate: bool, wasReady: bool, isReady: bool)
    requires s.Valid()
    ensures var t := TakeOver(b, s, job, donate, wasReady, isReady);
            && t.active && t.batteryPower == s.batteryPower && t.userActive == s.userActive
            && t.enabled == s.enabled && t.autoPause == s.autoPause && t.backendJob == s.backendJob
            && t.job == job.WithIndex(if donate then 1 else 0)
            && t.userJobId == (if donate then s.userJobId else job.info.id)
            && t.building == (s.building || !isReady)
            && t.reset == (Restarts(s, job, donate) || !isReady)
            && t.algorithm == job.info.algorithm
            && t.nonce.counters == s.nonce.counters
            && (b.randomX && job.info.algorithm.family.RandomX? && !wasReady
                ==> t.nonce.paused == !StopsForJob(b, s, job, wasReady))
  {
    hide Restarts;
  }

  lemma {:induction false} TakeJobEffect(b: Build, s: State, job: Job, donate: bool, wasReady: bool, ready: bool)
    requires s.Valid() && Possible(b, s, SetJob(job, donate, wasReady, ready))
    ensures var t := TakeJob(b, s, job, donate, wasReady, ready);
            var isReady := !b.randomX || ready;
            && t.active && t.batteryPower == s.batteryPower && t.userActive == s.userActive
            && t.enabled == s.enabled && t.autoPause == s.autoPause
            && t.job == job.WithIndex(if donate then 1 else 0)
            && t.userJobId == (if donate then s.userJobId else job.info.id)
            && t.building == (s.building || !isReady) && t.reset == (Restarts(s, job, donate) || !isReady)
            && t.algorithm == job.info.algorithm
            && t.backendJob == (if isReady then t.job else s.backendJob)
            && t.nonce.counters == (if isReady && Restarts(s, job, donate) then s.nonce.counters[t.job.info.index := 0]
                                    else s.nonce.counters)
            && t.nonce.paused == if isReady then !s.enabled else !StopsForJob(b, s, job, wasReady)
  {
    hide AfterJobChange, Restarts, TakeOver, StopsForJob;
    var isReady := !b.randomX || ready;
    TakeOverEffect(b, s, job, donate, wasReady, isReady);
    ChangeEffect(TakeOver(b, s, job, donate, wasReady, isReady));
  }

  /** What a step does to the fields the invariants speak of. */
  lemma {:induction false} StepEffect(b: Build, s: State, a: Action)
    requires s.Valid() && s.autoPause == Count(s) && Possible(b, s, a)
    ensures var t := Next(b, s, a);
            && t.autoPause == Count(t)
            && (a.Tick? || (t.enabled == s.enabled && t.batteryPower == s.batteryPower) || a.SetEnabled?)
  {
    if a.Tick? {
      TickFlags(b, s, a.sensors, a.stopMiner);
      hide Next;
    } else if a.SetEnabled? {
      EnableEffect(s, a.on, a.pauseOnBattery);
      hide Enable;
    } else {
      OtherFlags(b, s, a);
      hide Next;
    }
  }

  /** Neither a tick nor the switch. */
  lemma {:induction false} OtherFlags(b: Build, s: State, a: Action)
    requires s.Valid() && Possible(b, s, a) && !a.Tick? && !a.SetEnabled?
    ensures SameSwitch(s, Next(b, s, a))
  {
    if a.SetJob? {
      JobFlags(b, s, a.job, a.donate, a.wasReady, a.ready);
      hide TakeJob, SameSwitch;
    } else if a.DatasetReady? {
      JobFlags(b, s, NO_JOB, false, true, true);
      hide AfterJobChange;
    } else {
      PausingEffect(s);
      hide PauseMining, StopNow, SetPaused;
    }
  }

  /** Pausing and stopping leave the switch and the reasons alone. */
  lemma {:induction false} PausingEffect(s: State)
    requires s.Valid()
    ensures SameSwitch(s, PauseMining(s)) && SameSwitch(s, StopNow(s)) && SameSwitch(s, SetPaused(s, true))
  {
  }

  /** So do new jobs. */
  lemma {:induction false} JobFlags(b: Build, s: State, job: Job, donate: bool, wasReady: bool, ready: bool)
    requires s.Valid() && Possible(b, s, SetJob(job, donate, wasReady, ready))
    ensures SameSwitch(s, TakeJob(b, s, job, donate, wasReady, ready)) && SameSwitch(s, AfterJobChange(s))
  {
    hide AfterJobChange, TakeJob;
    ChangeEffect(s);
    TakeJobEffect(b, s, job, donate, wasReady, ready);
  }

  predicate SameSwitch(s: State, t: State) {
    && t.autoPause == s.autoPause && t.batteryPower == s.batteryPower
    && t.userActive == s.userActive && t.enabled == s.enabled
  }

  lemma {:induction false} TickFlags(b: Build, s: State, sensors: Sensors, stopMiner: bool)
    requires s.Valid() && s.autoPause == Count(s)
    ensures var t := Next(b, s, Tick(sensors, stopMiner)); t.autoPause == Count(t)
  {
    hide Next, Halfway, SecondHalf;
    TickEffect(b, s, sensors, stopMiner);
  }

  /** What is worked on, and how far. */
  predicate SameJob(s: State, t: State) {
    && t.job == s.job && t.userJobId == s.userJobId && t.reset == s.reset && t.building == s.building
    && t.nonce.counters == s.nonce.counters
  }

  /** Pausing, stopping, switching and new settings do not touch it. */
  lemma {:induction false} PauseSameJob(s: State)
    requires s.Valid()
    ensures SameJob(s, PauseMining(s)) && SameJob(s, StopNow(s)) && SameJob(s, SetPaused(s, true))
  {
  }

  lemma {:induction false} EnableSameJob(s: State, on: bool, pauseOnBattery: bool)
    requires s.Valid()
    ensures SameJob(s, Enable(s, on, pauseOnBattery))
  {
    EnableEffect(s, on, pauseOnBattery);
    hide Enable;
  }

  lemma {:induction false} TickSameJob(s: State, sensors: Sensors, stopMiner: bool)
    requires s.Valid() && s.autoPause == Count(s)
    ensures SameJob(s, AfterTick(s, sensors, stopMiner))
  {
    var m := Halfway(s, sensors);
    HalfwayEffect(s, sensors);
    SecondHalfEffect(m, sensors);
    PauseSameJob(SecondHalf(m, sensors));
    hide Halfway, SecondHalf, StopNow, Count;
  }

  /** Only jobs, announced datasets and workers do. */
  lemma {:induction false} QuietJob(b: Build, s: State, a: Action)
    requires s.Valid() && s.autoPause == Count(s) && !a.SetJob? && !a.DatasetReady? && !a.Take?
    ensures SameJob(s, Next(b, s, a))
  {
    match a
    case Tick(sensors, stopMiner) =>
      TickSameJob(s, sensors, stopMiner);
      hide AfterTick, SameJob;
    case SetEnabled(on, pauseOnBattery) =>
      EnableSameJob(s, on, pauseOnBattery);
      hide Enable, SameJob;
    case _ =>
      PauseSameJob(s);
      hide PauseMining, StopNow, SetPaused;
  }

  lemma {:induction false} TakeSameJob(b: Build, s: State, index: Index, count: Word64)
    requires s.Valid()
    ensures var t := Next(b, s, Take(index, count));
            && t.job == s.job && t.userJobId == s.userJobId && t.reset == s.reset && t.building == s.building
            && t.nonce.counters == s.nonce.counters[index := Add(s.nonce.counters[index], count)]
  {
  }

  /** Only `setJob` changes the job, and it alone tells whose job it is. */
  lemma {:induction false} JobStays(b: Build, s: State, a: Action)
    requires s.Valid() && s.autoPause == Count(s) && !a.SetJob?
    ensures Next(b, s, a).job == s.job && Next(b, s, a).userJobId == s.userJobId
  {
    if a.DatasetReady? {
      ChangeEffect(s);
      hide AfterJobChange;
    } else if a.Take? {
      TakeSameJob(b, s, a.index, a.count);
      hide Next;
    } else {
      QuietJob(b, s, a);
      hide Next;
    }
  }

  // ---- Pausing ----

  /** `auto_pause` is the number of reasons to pause. */
  lemma {:induction false} ReasonsCounted(b: Build, s: State, actions: seq<Action>)
    requires s.Valid() && s.autoPause == Count(s)
    requires Through(b, s, actions, (_, _) => true)
    ensures var t := Run(b, s, actions); t.autoPause == Count(t)
    decreases |actions|
  {
    hide Next, Possible, Count;
    if actions != [] {
      StepEffect(b, s, actions[0]);
      ReasonsCounted(b, Next(b, s, actions[0]), actions[1..]);
    }
  }

  /** A tick that changes a reason leaves the miner enabled exactly if no reason is left. */
  lemma {:induction false} TickDecides(b: Build, s: State, sensors: Sensors, stopMiner: bool)
    requires s.Valid() && s.autoPause == Count(s)
    ensures var t := Next(b, s, Tick(sensors, stopMiner));
            t.batteryPower != s.batteryPower || t.userActive != s.userActive
            ==> (t.enabled <==> t.autoPause == 0)
  {
    hide Next, Halfway, SecondHalf;
    TickEffect(b, s, sensors, stopMiner);
  }

  /** The user resumes only with pausing on battery switched on. */
  predicate BatteryOption(a: Action) {
    a.SetEnabled? && a.on ==> a.pauseOnBattery
  }

  /** One step enables the miner on battery power exactly if the user resumes with the option off. */
  lemma {:induction false} BatteryExactly(b: Build, s: State, a: Action)
    requires s.Valid() && s.autoPause == Count(s) && (s.batteryPower ==> !s.enabled) && Possible(b, s, a)
    ensures var t := Next(b, s, a);
            (t.batteryPower ==> !t.enabled) <==> (BatteryOption(a) || !s.batteryPower)
  {
    StepEffect(b, s, a);
    if a.Tick? {
      hide Next, Halfway, SecondHalf, Possible;
      TickEffect(b, s, a.sensors, a.stopMiner);
    } else if a.SetEnabled? {
      EnableEffect(s, a.on, a.pauseOnBattery);
      hide Enable, Possible;
    } else {
      hide Next, Possible;
    }
  }

  /** So with the option on whenever the user resumes, battery power means disabled. */
  lemma {:induction false} BatteryDisables(b: Build, s: State, actions: seq<Action>)
    requires s.Valid() && s.autoPause == Count(s) && (s.batteryPower ==> !s.enabled)
    requires Through(b, s, actions, (_, a) => BatteryOption(a))
    ensures var t := Run(b, s, actions); t.batteryPower ==> !t.enabled
    decreases |actions|
  {
    hide Next, Possible, Count, BatteryOption;
    if actions != [] {
      StepEffect(b, s, actions[0]);
      BatteryExactly(b, s, actions[0]);
      BatteryDisables(b, Next(b, s, actions[0]), actions[1..]);
    }
  }

  /** Switching the option off at the wrong moment defeats it: the flag stays, the guard does not. */
  lemma {:induction false} BatteryOptionNeeded(b: Build, job: Job)
    ensures var onBattery := Tick(Sensors(true, false, true, false), false);
            var actions := [SetJob(job, false, true, true), onBattery, SetEnabled(true, false)];
            && Through(b, INITIAL, actions, (_, _) => true)
            && var t := Run(b, INITIAL, actions); t.batteryPower && t.enabled
  {
    hide Next, TakeJob;
    var a0, a1 := SetJob(job, false, true, true), Tick(Sensors(true, false, true, false), false);
    var a2 := SetEnabled(true, false);
    var s0 := Next(b, INITIAL, a0);
    JobTicks(b, INITIAL, job, false, true);
    TakeJobEffect(b, INITIAL, job, false, true, true);
    JobIsTaken(b, INITIAL, job, false, true, true);
    var s1 := Next(b, s0, a1);
    OnBattery(b, s0);
    ActionsStep(b, INITIAL, a0, [a1, a2]);
    ActionsStep(b, s0, a1, [a2]);
    ActionsStep(b, s1, a2, []);
  }

  lemma {:induction false} JobIsTaken(b: Build, s: State, job: Job, donate: bool, wasReady: bool, ready: bool)
    requires s.Valid()
    ensures Next(b, s, SetJob(job, donate, wasReady, ready)) == TakeJob(b, s, job, donate, wasReady, ready)
  {
    hide TakeJob;
  }

  lemma {:induction false} ActionsStep(b: Build, s: State, a: Action, rest: seq<Action>)
    requires s.Valid() && Possible(b, s, a)
    ensures Run(b, s, [a] + rest) == Run(b, Next(b, s, a), rest)
    ensures Through(b, s, [a] + rest, (_, _) => true) == Through(b, Next(b, s, a), rest, (_, _) => true)
  {
    assert ([a] + rest)[1..] == rest;
  }

  /** The first hand-over starts the timer. */
  lemma {:induction false} HandOverTicks(s: State)
    requires s.Valid()
    ensures AfterJobChange(s).ticks > 0
  {
  }

  lemma {:induction false} JobTicks(b: Build, s: State, job: Job, donate: bool, wasReady: bool)
    requires s.Valid()
    ensures Next(b, s, SetJob(job, donate, wasReady, true)).ticks > 0
  {
    HandOverTicks(TakeOver(b, s, job, donate, wasReady, true));
    hide TakeOver, AfterJobChange;
  }

  lemma {:induction false} OnBattery(b: Build, s: State)
    requires s.Valid() && s.enabled && !s.batteryPower
    ensures var t := Next(b, Next(b, s, Tick(Sensors(true, false, true, false), false)), SetEnabled(true, false));
            t.batteryPower && t.enabled
  {
  }

  /** Actions that leave the workers stopped. */
  predicate Stops(b: Build, s: State, a: Action) {
    match a
    case StopMiner => true
    case Tick(_, stopMiner) => stopMiner
    case SetJob(job, _, wasReady, ready) => b.randomX && !ready && StopsForJob(b, s, job, wasReady)
    case _ => false
  }

  predicate MayWork(s: State) {
    s.active && s.enabled
  }

  /** The reasons are counted, and nonces are handed out only while the miner is active and enabled. */
  predicate Sound(s: State) {
    s.autoPause == Count(s) && (!s.nonce.paused ==> MayWork(s))
  }

  lemma {:induction false} SoundStep(b: Build, s: State, a: Action)
    requires s.Valid() && Sound(s) && Possible(b, s, a) && !Stops(b, s, a)
    ensures Sound(Next(b, s, a))
    ensures !b.randomX && !a.Exhaust? && (MayWork(s) ==> !s.nonce.paused)
            ==> (MayWork(Next(b, s, a)) ==> !Next(b, s, a).nonce.paused)
  {
    StepEffect(b, s, a);
    match a
    case SetJob(job, donate, wasReady, ready) =>
      TakeJobEffect(b, s, job, donate, wasReady, ready);
      hide TakeJob, Count;
    case DatasetReady(_) =>
      ChangeEffect(s);
      hide AfterJobChange, Count;
    case SetEnabled(on, pauseOnBattery) =>
      EnableEffect(s, on, pauseOnBattery);
      hide Enable, Count;
    case Tick(sensors, stopMiner) =>
      TickEffect(b, s, sensors, stopMiner);
      hide Next, Count, Halfway, SecondHalf;
    case _ =>
      hide Count;
  }

  /** Unless the miner was stopped, nonces are handed out only while it is active and enabled. */
  lemma {:induction false} UnpausedMeansWorking(b: Build, s: State, actions: seq<Action>)
    requires s.Valid() && Sound(s)
    requires Through(b, s, actions, (t, a) => !Stops(b, t, a))
    ensures Sound(Run(b, s, actions))
    decreases |actions|
  {
    hide Next, Possible, Sound, Stops;
    if actions != [] {
      SoundStep(b, s, actions[0]);
      UnpausedMeansWorking(b, Next(b, s, actions[0]), actions[1..]);
    }
  }

  /** Whether a tick leaves the miner enabled: no reason is left, or none has changed and it was. */
  predicate EnabledAfter(s: State, sensors: Sensors) {
    var battery := if sensors.pauseOnBattery then sensors.onBattery else s.batteryPower;
    var user := if sensors.pauseOnActive then sensors.userPresent else s.userActive;
    if battery == s.batteryPower && user == s.userActive then s.enabled else !battery && !user
  }

  /** The step stops the workers of a miner that is not to work. */
  predicate StopsIdle(b: Build, s: State, a: Action) {
    match a
    case StopMiner => !s.active || !s.enabled
    case Tick(sensors, stopMiner) => stopMiner && (!s.active || !EnabledAfter(s, sensors))
    case SetJob(job, _, wasReady, ready) => b.randomX && !ready && StopsForJob(b, s, job, wasReady) && !s.enabled
    case _ => false
  }

  lemma {:induction false} TickEnables(b: Build, s: State, sensors: Sensors, stopMiner: bool)
    requires s.Valid() && s.autoPause == Count(s)
    ensures var t := Next(b, s, Tick(sensors, stopMiner));
            t.enabled == EnabledAfter(s, sensors) && t.active == s.active && (stopMiner ==> !t.nonce.paused)
  {
    TickEffect(b, s, sensors, stopMiner);
    hide Next, Halfway, SecondHalf, StopNow;
    var m := Halfway(s, sensors);
    var t := SecondHalf(m, sensors);
    LeftEnabled(s, m, t, sensors);
    StoppedMiner(t);
    hide Toggled, EnabledAfter, Count;
  }

  lemma {:induction false} LeftEnabled(s: State, m: State, t: State, sensors: Sensors)
    requires Toggled(s, m) && Toggled(m, t) && m.autoPause == Count(m) && t.autoPause == Count(t)
    requires m.userActive == s.userActive && t.batteryPower == m.batteryPower
    requires m.batteryPower == (if sensors.pauseOnBattery then sensors.onBattery else s.batteryPower)
    requires t.userActive == (if sensors.pauseOnActive then sensors.userPresent else s.userActive)
    requires m.enabled == (if m.batteryPower == s.batteryPower then s.enabled else m.autoPause == 0)
    requires t.enabled == (if t.userActive == m.userActive then m.enabled else t.autoPause == 0)
    ensures t.enabled == EnabledAfter(s, sensors) && t.active == s.active
  {
  }

  lemma {:induction false} StoppedMiner(s: State)
    requires s.Valid()
    ensures var t := StopNow(s); t.enabled == s.enabled && t.active == s.active && !t.nonce.paused
  {
  }

  /** Stopping is what breaks this, and only stopping a miner that is not to work. */
  lemma {:induction false} SoundExactly(b: Build, s: State, a: Action)
    requires s.Valid() && Sound(s) && Possible(b, s, a)
    ensures Sound(Next(b, s, a)) <==> !StopsIdle(b, s, a)
  {
    StepEffect(b, s, a);
    if !Stops(b, s, a) {
      SoundStep(b, s, a);
      hide Next, Sound, Possible;
    } else if a.SetJob? {
      TakeJobEffect(b, s, a.job, a.donate, a.wasReady, a.ready);
      hide TakeJob, Count, StopsForJob;
    } else if a.Tick? {
      TickEnables(b, s, a.sensors, a.stopMiner);
      hide Next, Count, EnabledAfter;
    } else {
      hide Count;
    }
  }

  /** Without RandomX, and until a worker takes the last nonce, it is an equivalence. */
  lemma {:induction false} WorkingMeansUnpaused(s: State, actions: seq<Action>)
    requires s.Valid() && Sound(s) && (MayWork(s) ==> !s.nonce.paused)
    requires Through(Build(false), s, actions, (t, a) => !Stops(Build(false), t, a) && !a.Exhaust?)
    ensures var t := Run(Build(false), s, actions); !t.nonce.paused <==> MayWork(t)
    decreases |actions|
  {
    hide Next, Possible, Stops;
    if actions != [] {
      SoundStep(Build(false), s, actions[0]);
      WorkingMeansUnpaused(Next(Build(false), s, actions[0]), actions[1..]);
    }
  }

  // ---- Nonce continuity ----

  /**
   A segment of one user job: donated jobs come and go, and every job of the user is the
   same one coming back after a donated one, or repeats the blob being worked on. All
   jobs are ready.
   */
  predicate SameUserJob(b: Build, s: State, a: Action, id: string) {
    a.SetJob? ==>
      && (b.randomX ==> a.ready)
      && (!a.donate ==> a.job.info.id == id && (s.job.info.index == 1 || s.job.EqualBlob(a.job)))
  }

  /** Nonces the workers take from the user's counter. */
  function UserTakes(actions: seq<Action>): seq<Word64> {
    if actions == [] then []
    else (if actions[0].Take? && actions[0].index == 0 then [actions[0].count] else []) + UserTakes(actions[1..])
  }

  function Sum(counts: seq<Word64>): nat {
    if counts == [] then 0 else counts[0] + Sum(counts[1..])
  }

  lemma {:induction false} TakesStep(a: Action, rest: seq<Action>)
    ensures UserTakes([a] + rest) == (if a.Take? && a.index == 0 then [a.count] else []) + UserTakes(rest)
    ensures Sum(UserTakes([a] + rest)) == (if a.Take? && a.index == 0 then a.count else 0) + Sum(UserTakes(rest))
  {
    assert ([a] + rest)[1..] == rest;
    if a.Take? && a.index == 0 {
      assert ([a.count] + UserTakes(rest))[1..] == UserTakes(rest);
    } else {
      assert [] + UserTakes(rest) == UserTakes(rest);
    }
  }

  /** One step of the segment moves the user's counter only by what is taken. */
  lemma {:induction false} ContinuityStep(b: Build, s: State, a: Action, id: string)
    requires s.Valid() && s.autoPause == Count(s) && !s.building && s.userJobId == id
    requires Possible(b, s, a) && SameUserJob(b, s, a, id)
    ensures var t := Next(b, s, a);
            && t.autoPause == Count(t) && !t.building && t.userJobId == id
            && t.nonce.counters[0] == (if a.Take? && a.index == 0 then Add(s.nonce.counters[0], a.count)
                                       else s.nonce.counters[0])
  {
    StepEffect(b, s, a);
    if a.SetJob? {
      TakeJobEffect(b, s, a.job, a.donate, a.wasReady, a.ready);
      hide TakeJob, Count;
    } else if a.Take? {
      TakeSameJob(b, s, a.index, a.count);
      hide Next, Count;
    } else {
      QuietJob(b, s, a);
      hide Next, Count;
    }
  }

  /**
   Over the whole segment the user's counter is never reset: it advances by what was taken
   and nothing else. (The bound is the width of the counter.)
   */
  lemma {:induction false} NonceContinuity(b: Build, s: State, actions: seq<Action>, id: string)
    requires s.Valid() && s.autoPause == Count(s) && !s.building && s.userJobId == id
    requires Through(b, s, actions, (t, a) => SameUserJob(b, t, a, id))
    requires s.nonce.counters[0] + Sum(UserTakes(actions)) < TWO64
    ensures Run(b, s, actions).nonce.counters[0] == s.nonce.counters[0] + Sum(UserTakes(actions))
    decreases |actions|
  {
    hide Next, Possible, SameUserJob, Count;
    if actions != [] {
      var a, rest := actions[0], actions[1..];
      ContinuityStep(b, s, a, id);
      TakesStep(a, rest);
      assert [a] + rest == actions;
      NonceContinuity(b, Next(b, s, a), rest, id);
    }
  }

  lemma {:induction false} RunAppend(b: Build, s: State, p: seq<Action>, q: seq<Action>)
    requires s.Valid()
    ensures Run(b, s, p + q) == Run(b, Run(b, s, p), q)
    decreases |p|
  {
    if p == [] {
      assert p + q == q;
    } else {
      assert (p + q)[1..] == p[1..] + q;
      RunAppend(b, Next(b, s, p[0]), p[1..], q);
    }
  }

  lemma {:induction false} ThroughAppend(b: Build, s: State, p: seq<Action>, q: seq<Action>, f: (State, Action) -> bool)
    requires s.Valid() && Through(b, s, p + q, f)
    ensures Through(b, s, p, f) && Through(b, Run(b, s, p), q, f)
    decreases |p|
  {
    if p == [] {
      assert p + q == q;
    } else {
      assert (p + q)[1..] == p[1..] + q;
      ThroughAppend(b, Next(b, s, p[0]), p[1..], q, f);
    }
  }

  lemma {:induction false} Uncons<T>(p: seq<T>, q: seq<T>)
    requires p != []
    ensures p + q == [p[0]] + (p[1..] + q) && p == [p[0]] + p[1..]
  {
  }

  lemma {:induction false} TakesAppend(p: seq<Action>, q: seq<Action>)
    ensures Sum(UserTakes(p + q)) == Sum(UserTakes(p)) + Sum(UserTakes(q))
    decreases |p|
  {
    if p == [] {
      assert p + q == q;
      assert Sum(UserTakes(p)) == 0;
    } else {
      hide *;
      TakesAppend(p[1..], q);
      TakesStep(p[0], p[1..] + q);
      TakesStep(p[0], p[1..]);
      Uncons(p, q);
    }
  }

  /**
   So no nonce is handed out twice for the user's job: of two ranges taken anywhere in the
   segment, the later one starts at or after the end of the earlier one.
   */
  lemma {:induction false} NoNonceTwice(b: Build, s: State, before: seq<Action>, m: Word64, between: seq<Action>,
          n: Word64, id: string)
    requires s.Valid() && s.autoPause == Count(s) && !s.building && s.userJobId == id
    requires Through(b, s, before + [Take(0, m)] + between + [Take(0, n)], (t, a) => SameUserJob(b, t, a, id))
    requires s.nonce.counters[0] + Sum(UserTakes(before + [Take(0, m)] + between + [Take(0, n)])) < TWO64
    ensures var first := Run(b, s, before).nonce.counters[0];
            var second := Run(b, s, before + [Take(0, m)] + between).nonce.counters[0];
            first + m <= second
  {
    hide Next, Possible, SameUserJob, Run, Count;
    var f := (t, a) => SameUserJob(b, t, a, id);
    var whole := before + [Take(0, m)] + between;
    ThroughAppend(b, s, whole, [Take(0, n)], f);
    ThroughAppend(b, s, before + [Take(0, m)], between, f);
    ThroughAppend(b, s, before, [Take(0, m)], f);
    TakesAppend(whole, [Take(0, n)]);
    TakesAppend(before + [Take(0, m)], between);
    TakesAppend(before, [Take(0, m)]);
    assert [Take(0, m)][1..] == [];
    assert UserTakes([Take(0, m)]) == [m];
    assert [m][1..] == [];
    NonceContinuity(b, s, before, id);
    NonceContinuity(b, s, whole, id);
  }

  predicate JobReady(b: Build, a: Action) {
    a.SetJob? && b.randomX ==> a.ready
  }

  lemma {:induction false} ReadyRun(b: Build, s: State, actions: seq<Action>)
    requires s.Valid() && s.autoPause == Count(s) && !s.building
    requires Through(b, s, actions, (_, a) => JobReady(b, a))
    ensures var t := Run(b, s, actions); t.autoPause == Count(t) && !t.building
    decreases |actions|
  {
    hide Next, Possible, JobReady, Count;
    if actions != [] {
      ReadyStep(b, s, actions[0]);
      ReadyRun(b, Next(b, s, actions[0]), actions[1..]);
    }
  }

  lemma {:induction false} ReadyStep(b: Build, s: State, a: Action)
    requires s.Valid() && s.autoPause == Count(s) && !s.building && Possible(b, s, a) && JobReady(b, a)
    ensures var t := Next(b, s, a); t.autoPause == Count(t) && !t.building
  {
    StepEffect(b, s, a);
    if a.SetJob? {
      TakeJobEffect(b, s, a.job, a.donate, a.wasReady, a.ready);
      hide TakeJob, Count;
    } else if a.Take? {
      TakeSameJob(b, s, a.index, a.count);
      hide Next, Count;
    } else {
      QuietJob(b, s, a);
      hide Next, Count;
    }
  }

  /** From the start of the program: any past in which jobs were ready, then a user's job and its segment. */
  lemma {:induction false} UserJobNoncesOnce(b: Build, past: seq<Action>, job: Job, before: seq<Action>, m: Word64,
          between: seq<Action>, n: Word64)
    requires Through(b, INITIAL, past, (_, a) => JobReady(b, a))
    requires var s := Next(b, Run(b, INITIAL, past), SetJob(job, false, true, true));
             && Through(b, s, before + [Take(0, m)] + between + [Take(0, n)],
                        (t, a) => SameUserJob(b, t, a, job.info.id))
             && s.nonce.counters[0] + Sum(UserTakes(before + [Take(0, m)] + between + [Take(0, n)])) < TWO64
    ensures var s := Next(b, Run(b, INITIAL, past), SetJob(job, false, true, true));
            Run(b, s, before).nonce.counters[0] + m
            <= Run(b, s, before + [Take(0, m)] + between).nonce.counters[0]
  {
    ReadyRun(b, INITIAL, past);
    var s := Run(b, INITIAL, past);
    ReadyStep(b, s, SetJob(job, false, true, true));
    TakeJobEffect(b, s, job, false, true, true);
    hide Through, Run, Sum, UserTakes, SameUserJob, TakeJob;
    NoNonceTwice(b, Next(b, s, SetJob(job, false, true, true)), before, m, between, n, job.info.id);
  }

  /** Another size, or another byte within it. */
  predicate OtherBlob(a: Job, b: Job) {
    a.info.Size() != b.info.Size() || exists k :: 0 <= k < a.info.Size() && a.blob[k] != b.blob[k]
  }

  lemma {:induction false} OtherBlobIs(a: Job, b: Job)
    ensures OtherBlob(a, b) <==> !a.EqualBlob(b)
  {
    if !OtherBlob(a, b) {
      assert forall k :: 0 <= k < a.info.Size() ==> a.blob[k] == b.blob[k];
    } else if a.info.Size() == b.info.Size() {
      var k :| 0 <= k < a.info.Size() && a.blob[k] != b.blob[k];
      assert a.blob[..a.info.Size()][k] != b.blob[..b.info.Size()][k];
    }
  }

  /**
   A job with another blob starts its own counter again, donated or not, and leaves the other
   counter alone; so does nothing else: not the user's job coming back after a donated one,
   nor a job that repeats the blob.
   */
  lemma {:induction false} NewJobResets(b: Build, s: State, job: Job, donate: bool, wasReady: bool)
    requires s.Valid()
    ensures var own: Index := if donate then 1 else 0;
            var back := s.job.info.index == 1 && !donate && s.userJobId == job.info.id;
            Next(b, s, SetJob(job, donate, wasReady, true)).nonce.counters
            == if OtherBlob(s.job, job) && !back then s.nonce.counters[own := 0] else s.nonce.counters
  {
    OtherBlobIs(s.job, job);
    TakeJobEffect(b, s, job, donate, wasReady, true);
    hide TakeJob, OtherBlob;
  }

  /** New settings are passed on with the current job, unless new pools are about to send another. */
  lemma {:induction false} SettingsPassedOn(b: Build, s: State)
    requires s.Valid()
    ensures Next(b, s, ConfigChanged(false)).backendJob == s.job
    ensures Next(b, s, ConfigChanged(true)) == s
  {
  }

  // ---- The code ----

  /** `Miner` with its private part; logging, hash rates and the task bar are left out. */
  class Miner {
    const build: Build
    const nonce: Nonce
    var active: bool
    var batteryPower: bool
    var userActive: bool
    var enabled: bool
    var autoPause: int
    var reset: bool
    var job: Job
    var userJobId: string
    var ticks: nat
    var algorithm: Algorithm
    var backendJob: Job
    var building: bool

    ghost function View(): State
      reads this, nonce
    {
      State(active, batteryPower, userActive, enabled, autoPause, reset, job, userJobId, ticks,
            algorithm, backendJob, building, nonce.State())
    }

    ghost predicate Valid()
      reads nonce
    {
      nonce.Valid()
    }

    constructor (build: Build)
      ensures Valid() && fresh(nonce) && this.build == build && View() == INITIAL
    {
      this.build := build;
      active, batteryPower, userActive, enabled, autoPause := false, false, false, true, 0;
      reset, job, userJobId, ticks, algorithm := true, NO_JOB, "", 0, NO_ALGORITHM;
      backendJob, building := NO_JOB, false;
      nonce := new Nonce();
    }

    /** `handleJobChange` (Miner.cpp:117-141) */
    method HandleJobChange()
      requires Valid()
      modifies this`backendJob, this`ticks, nonce
      ensures Valid() && View() == AfterJobChange(old(View()))
    {
      if !enabled {
        nonce.Pause(true);
      }
      if reset {
        nonce.Reset(job.info.index);
      }
      backendJob := job;
      nonce.Touch();
      if active && enabled {
        nonce.Pause(false);
      }
      if ticks == 0 {
        ticks := ticks + 1;
      }
    }

    /** `pause` (Miner.cpp:506-513) */
    method Pause()
      requires Valid()
      modifies this`active, nonce
      ensures Valid() && View() == PauseMining(old(View()))
    {
      active := false;
      nonce.Pause(true);
      nonce.Touch();
    }

    /** `setEnabled` (Miner.cpp:516-549) */
    method SetEnabled(on: bool, pauseOnBattery: bool)
      requires Valid()
      modifies this`enabled, nonce
      ensures Valid() && View() == Enable(old(View()), on, pauseOnBattery)
    {
      if enabled == on {
        return;
      }
      if pauseOnBattery && batteryPower && on {
        return;
      }
      enabled := on;
      if !active {
        return;
      }
      nonce.Pause(!on);
      nonce.Touch();
    }

    /** The first half of `setJob`: wait for a missing dataset (Miner.cpp:558-568). */
    method AwaitDataset(job: Job, wasReady: bool)
      requires Valid()
      modifies nonce
      ensures Valid() && nonce.State() == NonceDuring(build, old(View()), job, wasReady)
    {
      if build.randomX && job.info.algorithm.family.RandomX? && !wasReady {
        if algorithm != job.info.algorithm {
          Stop();
        } else {
          nonce.Pause(true);
          nonce.Touch();
        }
      }
    }

    /** The second half: take the job over (Miner.cpp:570-609). */
    method Replace(job: Job, donate: bool, isReady: bool)
      modifies this`algorithm, this`reset, this`job, this`userJobId, this`building, this`active
      ensures algorithm == job.info.algorithm && active && building == (old(building) || !isReady)
      ensures reset == (Restarts(old(View()), job, donate) || !isReady)
      ensures this.job == job.WithIndex(if donate then 1 else 0)
      ensures userJobId == if donate then old(userJobId) else job.info.id
    {
      algorithm := job.info.algorithm;
      var index: Index := if donate then 1 else 0;
      reset := !(this.job.info.index == 1 && index == 0 && userJobId == job.info.id);
      if this.job.EqualBlob(job) {
        reset := false;
      }
      this.job := job.WithIndex(index);
      if index == 0 {
        userJobId := job.info.id;
      }
      if !isReady {
        reset := true;
        building := true;
      }
      active := true;
    }

    /** `setJob` (Miner.cpp:552-615) */
    method SetJob(job: Job, donate: bool, wasReady: bool, ready: bool)
      requires Valid()
      modifies this, nonce
      ensures Valid() && View() == TakeJob(build, old(View()), job, donate, wasReady, ready)
    {
      hide NonceDuring, AfterJobChange;
      var isReady := !build.randomX || ready;
      AwaitDataset(job, wasReady);
      Replace(job, donate, isReady);
      assert View() == TakeOver(build, old(View()), job, donate, wasReady, isReady);
      if isReady {
        HandleJobChange();
      }
    }

    /** `stop` (Miner.cpp:618-625) */
    method Stop()
      requires Valid()
      modifies nonce
      ensures Valid() && View() == StopNow(old(View()))
    {
      nonce.Stop();
    }

    /** `onConfigChanged` (Miner.cpp:628-641) */
    method OnConfigChanged(poolsReplaced: bool)
      requires Valid()
      modifies this`backendJob
      ensures Valid() && View() == Next(build, old(View()), ConfigChanged(poolsReplaced))
    {
      if poolsReplaced {
        return;
      }
      backendJob := job;
    }

    /** The lambda `autoPause` (Miner.cpp:678-687), for the flag of the battery or of the user. */
    method AutoPause(battery: bool, pause: bool, pauseOnBattery: bool)
      requires Valid()
      modifies this`batteryPower, this`userActive, this`autoPause, this`enabled, nonce
      ensures Valid()
      ensures View() == if battery then AutoPauseBattery(old(View()), pause, pauseOnBattery)
                         else AutoPauseUser(old(View()), pause, pauseOnBattery)
    {
      hide Enable;
      var flag := if battery then batteryPower else userActive;
      if (pause && !flag) || (!pause && flag) {
        if battery {
          batteryPower := pause;
        } else {
          userActive := pause;
        }
        autoPause := autoPause + if pause then 1 else -1;
        assert View() == if battery then old(View()).(batteryPower := pause, autoPause := autoPause)
                         else old(View()).(userActive := pause, autoPause := autoPause);
        SetEnabled(autoPause == 0, pauseOnBattery);
      }
    }

    /** `onTimer` (Miner.cpp:644-700) */
    method OnTimer(sensors: Sensors, stopMiner: bool)
      requires Valid()
      modifies this, nonce
      ensures Valid() && View() == AfterTick(old(View()), sensors, stopMiner)
    {
      hide AutoPauseBattery, AutoPauseUser;
      ticks := ticks + 1;
      if sensors.pauseOnBattery {
        AutoPause(true, sensors.onBattery, sensors.pauseOnBattery);
      }
      assert View() == Halfway(old(View()), sensors);
      if sensors.pauseOnActive {
        AutoPause(false, sensors.userPresent, sensors.pauseOnBattery);
      }
      if stopMiner {
        Stop();
      }
    }

    /** `onDatasetReady` (Miner.cpp:745-752) */
    method OnDatasetReady(isReady: bool)
      requires Valid()
      modifies this`backendJob, this`ticks, nonce
      ensures Valid() && View() == Next(build, old(View()), DatasetReady(isReady))
    {
      if !isReady {
        return;
      }
      HandleJobChange();
    }
  }
}
