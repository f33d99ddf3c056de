/**
 The nonces handed out for one job of the user, datasets missing or not. `setJob` is taken
 apart here, because workers do not wait for it: they can see a job, and take nonces for
 it, before the counter is reset.
 */
module UserNonces {
  import opened Jobs
  import opened M = Miner
  import opened NonceRanges
  import opened Nonces

  /**
   `Publish` is `setJob` up to the release of the mutex, with the flags set right after it;
   `HandOver` is its call of `handleJobChange`. Every other operation is one step.
   */
  datatype Step =
    | Whole(action: Action)
    | Publish(job: Job, donate: bool, wasReady: bool, ready: bool)
    | HandOver

  /** `handing`: a job is published and is still to be handed over. */
  datatype Position = Position(state: State, handing: bool) {
    predicate Valid() {
      state.Valid()
    }

    predicate Counted() {
      state.Valid() && state.autoPause == Count(state)
    }
  }

  const START := Position(INITIAL, false)

  /** While `setJob` runs, only workers do something. */
  predicate Can(b: Build, p: Position, step: Step) {
    match step
    case Whole(a) => !a.SetJob? && M.Possible(b, p.state, a) && (p.handing ==> a.Take? || a.Exhaust?)
    case Publish(job, donate, wasReady, ready) =>
      !p.handing && M.Possible(b, p.state, SetJob(job, donate, wasReady, ready))
    case HandOver => p.handing
  }

  function After(b: Build, p: Position, step: Step): (q: Position)
    requires p.Valid()
    ensures q.Valid()
  {
    match step
    case Whole(a) => p.(state := M.Next(b, p.state, a))
    case Publish(job, donate, wasReady, ready) =>
      var isReady := !b.randomX || ready;
      Position(TakeOver(b, p.state, job, donate, wasReady, isReady), isReady)
    case HandOver => Position(AfterJobChange(p.state), false)
  }

  function Walk(b: Build, p: Position, steps: seq<Step>): (q: Position)
    requires p.Valid()
    ensures q.Valid()
    decreases |steps|
  {
    if steps == [] then p else Walk(b, After(b, p, steps[0]), steps[1..])
  }

  /** A run of possible steps, each of which satisfies `f` where it happens. */
  ghost predicate Along(b: Build, p: Position, steps: seq<Step>, f: (State, Step) -> bool)
    requires p.Valid()
    decreases |steps|
  {
    steps == [] ||
    (Can(b, p, steps[0]) && f(p.state, steps[0]) && Along(b, After(b, p, steps[0]), steps[1..], f))
  }

  ghost predicate PossibleRun(b: Build, p: Position, steps: seq<Step>)
    requires p.Valid()
  {
    Along(b, p, steps, (_, _) => true)
  }

  lemma {:induction false} WalkStep(b: Build, p: Position, step: Step, rest: seq<Step>)
    requires p.Valid()
    ensures Walk(b, p, [step] + rest) == Walk(b, After(b, p, step), rest)
  {
    assert ([step] + rest)[1..] == rest;
  }

  lemma {:induction false} AlongStep(b: Build, p: Position, step: Step, rest: seq<Step>, f: (State, Step) -> bool)
    requires p.Valid()
    ensures Along(b, p, [step] + rest, f)
            == (Can(b, p, step) && f(p.state, step) && Along(b, After(b, p, step), rest, f))
  {
    assert ([step] + rest)[1..] == rest;
  }

  // ---- Runs of whole operations are among these ----

  function StepsOf(b: Build, a: Action): seq<Step> {
    match a
    case SetJob(job, donate, wasReady, ready) =>
      [Publish(job, donate, wasReady, ready)] + if !b.randomX || ready then [HandOver] else []
    case _ => [Whole(a)]
  }

  /** The same run with each `setJob` in its steps. */
  function InSteps(b: Build, actions: seq<Action>): seq<Step> {
    if actions == [] then [] else StepsOf(b, actions[0]) + InSteps(b, actions[1..])
  }

  lemma {:induction false} WholeStep(b: Build, s: State, a: Action, rest: seq<Step>)
    requires s.Valid() && M.Possible(b, s, a)
    ensures var p, q := Position(s, false), Position(M.Next(b, s, a), false);
            && Walk(b, p, StepsOf(b, a) + rest) == Walk(b, q, rest)
            && PossibleRun(b, p, StepsOf(b, a) + rest) == PossibleRun(b, q, rest)
  {
    var p := Position(s, false);
    var f := (_: State, _: Step) => true;
    hide TakeOver, AfterJobChange;
    if a.SetJob? {
      var publish := Publish(a.job, a.donate, a.wasReady, a.ready);
      var more := if !b.randomX || a.ready then [HandOver] else [];
      assert StepsOf(b, a) + rest == [publish] + (more + rest);
      WalkStep(b, p, publish, more + rest);
      AlongStep(b, p, publish, more + rest, f);
      if more == [] {
        assert more + rest == rest;
      } else {
        WalkStep(b, After(b, p, publish), HandOver, rest);
        AlongStep(b, After(b, p, publish), HandOver, rest, f);
      }
    } else {
      WalkStep(b, p, Whole(a), rest);
      AlongStep(b, p, Whole(a), rest, f);
    }
  }

  /** Uninterrupted, the steps have the effect of the whole operations. */
  lemma {:induction false} WholeRuns(b: Build, s: State, actions: seq<Action>)
    requires s.Valid() && Through(b, s, actions, (_, _) => true)
    ensures PossibleRun(b, Position(s, false), InSteps(b, actions))
    ensures Walk(b, Position(s, false), InSteps(b, actions)) == Position(Run(b, s, actions), false)
    decreases |actions|
  {
    hide M.Next, M.Possible, StepsOf;
    if actions != [] {
      WholeStep(b, s, actions[0], InSteps(b, actions[1..]));
      WholeRuns(b, M.Next(b, s, actions[0]), actions[1..]);
    }
  }

  // ---- The user's counter ----

  /**
   A segment of one user job: donated jobs come and go, and jobs of the user are the same
   one coming back after a donated one, or repeat the blob being worked on.
   */
  predicate OneUserJob(s: State, step: Step, id: string) {
    step.Publish? && !step.donate ==> step.job.info.id == id && (s.job.info.index == 1 || s.job.EqualBlob(step.job))
  }

  predicate TakesFromUser(step: Step) {
    step.Whole? && step.action.Take? && step.action.index == 0
  }

  /**
   What a step does to the user's counter. It is reset when the job is handed over, or its
   dataset announced, while `reset` is set, and nothing ever clears `reset` but another job.
   */
  function CounterEvent(s: State, step: Step): seq<Event> {
    if TakesFromUser(step) then [Took(step.action.count)]
    else if Hands(step) && s.reset && s.job.info.index == 0 then [Restarted]
    else []
  }

  predicate Hands(step: Step) {
    step.HandOver? || (step.Whole? && step.action.DatasetReady? && step.action.isReady)
  }

  function CounterEvents(b: Build, p: Position, steps: seq<Step>): seq<Event>
    requires p.Valid()
    decreases |steps|
  {
    if steps == [] then []
    else CounterEvent(p.state, steps[0]) + CounterEvents(b, After(b, p, steps[0]), steps[1..])
  }

  /** The ranges workers take from the user's counter in a run. */
  function UserRanges(b: Build, p: Position, steps: seq<Step>): seq<Range>
    requires p.Valid()
    decreases |steps|
  {
    if steps == [] then []
    else
      (if TakesFromUser(steps[0]) then [Range(p.state.nonce.counters[0], steps[0].action.count)] else [])
      + UserRanges(b, After(b, p, steps[0]), steps[1..])
  }

  function TakenIn(step: Step): Word64 {
    if TakesFromUser(step) then step.action.count else 0
  }

  /** Nonces taken from the user's counter in a run. */
  function TakenFromUser(steps: seq<Step>): nat {
    if steps == [] then 0 else TakenIn(steps[0]) + TakenFromUser(steps[1..])
  }

  /** A counter of the machine after at most one event. */
  function CounterAfter(c: Word64, events: seq<Event>): Word64 {
    if events == [] then c
    else match events[0]
      case Took(n) => (c + n) % TWO64
      case Restarted => 0
  }

  lemma {:induction false} PublishKeeps(b: Build, p: Position, step: Step)
    requires p.Counted() && step.Publish? && Can(b, p, step)
    ensures var q := After(b, p, step);
            && q.Counted() && q.state.nonce.counters == p.state.nonce.counters
            && q.state.userJobId == if step.donate then p.state.userJobId else step.job.info.id
  {
    hide TakeOver;
    TakeOverEffect(b, p.state, step.job, step.donate, step.wasReady, !b.randomX || step.ready);
  }

  lemma {:induction false} HandOverKeeps(b: Build, p: Position)
    requires p.Counted()
    ensures var q := After(b, p, HandOver);
            && q.Counted() && q.state.userJobId == p.state.userJobId
            && q.state.nonce.counters[0] == CounterAfter(p.state.nonce.counters[0], CounterEvent(p.state, HandOver))
  {
    hide AfterJobChange;
    ChangeEffect(p.state);
  }

  lemma {:induction false} WholeKeeps(b: Build, p: Position, step: Step)
    requires p.Counted() && step.Whole? && Can(b, p, step)
    ensures var q := After(b, p, step);
            && q.Counted() && q.state.userJobId == p.state.userJobId
            && q.state.nonce.counters[0] == CounterAfter(p.state.nonce.counters[0], CounterEvent(p.state, step))
  {
    var s, a := p.state, step.action;
    StepEffect(b, s, a);
    if a.DatasetReady? {
      ChangeEffect(s);
      hide AfterJobChange, Count, M.Possible;
    } else if a.Take? {
      TakeSameJob(b, s, a.index, a.count);
      hide M.Next, Count, M.Possible;
    } else {
      QuietJob(b, s, a);
      hide M.Next, Count, M.Possible;
    }
  }

  lemma {:induction false} SegmentStep(b: Build, p: Position, step: Step, id: string)
    requires p.Counted() && p.state.userJobId == id && Can(b, p, step) && OneUserJob(p.state, step, id)
    ensures var q := After(b, p, step);
            && q.Counted() && q.state.userJobId == id
            && q.state.nonce.counters[0] == CounterAfter(p.state.nonce.counters[0], CounterEvent(p.state, step))
  {
    match step {
      case Whole(_) => WholeKeeps(b, p, step);
      case Publish(_, _, _, _) => PublishKeeps(b, p, step);
      case HandOver => HandOverKeeps(b, p);
    }
    hide Can, After, Position.Counted;
  }

  /**
   The user's counter, and the ranges taken from it, are those of its events: it restarts
   when a job is handed over or a dataset announced with `reset` set and at no other time.
   (The bound is the width of the counter.)
   */
  lemma {:induction false} CounterFollows(b: Build, p: Position, steps: seq<Step>, id: string)
    requires p.Counted() && p.state.userJobId == id
    requires Along(b, p, steps, (s, step) => OneUserJob(s, step, id))
    requires p.state.nonce.counters[0] + TakenFromUser(steps) < TWO64
    ensures Walk(b, p, steps).state.nonce.counters[0]
            == Counter(p.state.nonce.counters[0], CounterEvents(b, p, steps))
    ensures UserRanges(b, p, steps) == Ranges(p.state.nonce.counters[0], CounterEvents(b, p, steps))
    decreases |steps|
  {
    hide After, Can, OneUserJob, Count, CounterEvent, CounterAfter, TakenIn;
    if steps != [] {
      var step, rest := steps[0], steps[1..];
      assert [step] + rest == steps;
      SegmentStep(b, p, step, id);
      hide Counter, CounterEvents, UserRanges, Ranges, Walk;
      NextCounter(p.state, step);
      CounterFollows(b, After(b, p, step), rest, id);
      FollowsFirst(b, p, step, rest);
    }
  }

  lemma {:induction false} NextCounter(s: State, step: Step)
    requires s.Valid() && s.nonce.counters[0] + TakenIn(step) < TWO64
    ensures CounterAfter(s.nonce.counters[0], CounterEvent(s, step))
            == Counter(s.nonce.counters[0], CounterEvent(s, step))
    ensures CounterAfter(s.nonce.counters[0], CounterEvent(s, step)) <= s.nonce.counters[0] + TakenIn(step)
  {
    var e := CounterEvent(s, step);
    assert e != [] ==> e[1..] == [];
  }

  /** One step in front of a run whose counter follows its events. */
  lemma {:induction false} FollowsFirst(b: Build, p: Position, step: Step, rest: seq<Step>)
    requires p.Valid()
    requires var q := After(b, p, step);
             && q.state.nonce.counters[0] == Counter(p.state.nonce.counters[0], CounterEvent(p.state, step))
             && Walk(b, q, rest).state.nonce.counters[0]
                == Counter(q.state.nonce.counters[0], CounterEvents(b, q, rest))
             && UserRanges(b, q, rest) == Ranges(q.state.nonce.counters[0], CounterEvents(b, q, rest))
    ensures var c, events := p.state.nonce.counters[0], CounterEvents(b, p, [step] + rest);
            && Walk(b, p, [step] + rest).state.nonce.counters[0] == Counter(c, events)
            && UserRanges(b, p, [step] + rest) == Ranges(c, events)
  {
    hide After;
    var q := After(b, p, step);
    var first, later := CounterEvent(p.state, step), CounterEvents(b, q, rest);
    WalkStep(b, p, step, rest);
    EventsStep(b, p, step, rest);
    EventFirst(p.state.nonce.counters[0], first, later);
    assert ([step] + rest)[1..] == rest;
    hide Walk, CounterEvents, Counter, Ranges;
  }

  lemma {:induction false} EventsStep(b: Build, p: Position, step: Step, rest: seq<Step>)
    requires p.Valid()
    ensures CounterEvents(b, p, [step] + rest)
            == CounterEvent(p.state, step) + CounterEvents(b, After(b, p, step), rest)
  {
    assert ([step] + rest)[1..] == rest;
  }

  lemma {:induction false} EventFirst(c: nat, first: seq<Event>, rest: seq<Event>)
    requires |first| <= 1
    ensures Counter(c, first + rest) == Counter(Counter(c, first), rest)
    ensures Ranges(c, first + rest)
         == (if first != [] && first[0].Took? then [Range(c, first[0].count)] else []) + Ranges(Counter(c, first), rest)
  {
    if first == [] {
      assert first + rest == rest;
    } else {
      assert (first + rest)[1..] == rest && first[1..] == [];
    }
  }

  /**
   Main result: in every segment of one user job, whatever datasets are missing and wherever
   workers come in between, no nonce is handed out twice if and only if, of any two stretches
   between restarts, the earlier took nothing or the later did not get as far as where the
   earlier began.
   */
  lemma {:induction false} NoncesOnceExactly(b: Build, p: Position, steps: seq<Step>, id: string)
    requires p.Counted() && p.state.userJobId == id
    requires Along(b, p, steps, (s, step) => OneUserJob(s, step, id))
    requires p.state.nonce.counters[0] + TakenFromUser(steps) < TWO64
    ensures (forall nonce: nat :: TakenOnce(UserRanges(b, p, steps), nonce))
            <==> Apart(p.state.nonce.counters[0], Totals(CounterEvents(b, p, steps)))
  {
    CounterFollows(b, p, steps, id);
    OnceExactly(p.state.nonce.counters[0], CounterEvents(b, p, steps));
  }

  lemma {:induction false} PastCounted(b: Build, p: Position, steps: seq<Step>)
    requires p.Counted() && PossibleRun(b, p, steps)
    ensures Walk(b, p, steps).Counted()
    decreases |steps|
  {
    hide After, Can, Count;
    if steps != [] {
      match steps[0] {
        case Whole(_) => WholeKeeps(b, p, steps[0]);
        case Publish(_, _, _, _) => PublishKeeps(b, p, steps[0]);
        case HandOver => HandOverKeeps(b, p);
      }
      PastCounted(b, After(b, p, steps[0]), steps[1..]);
    }
  }

  /**
   From the start of the program, after any past: once a job of the user is published, no
   nonce is handed out twice for it if and only if nothing is taken on both sides of a later
   restart and, if anything was taken before the first restart (the hand-over, for a new
   job), the counter never again gets past where it stood at publication.
   */
  lemma {:induction false} UserJobNoncesExactly(b: Build, past: seq<Step>, publish: Step, steps: seq<Step>)
    requires PossibleRun(b, START, past)
    requires publish.Publish? && !publish.donate
    requires var p := Walk(b, START, past);
             && Can(b, p, publish)
             && var q := After(b, p, publish);
             && Along(b, q, steps, (s, step) => OneUserJob(s, step, publish.job.info.id))
             && q.state.nonce.counters[0] + TakenFromUser(steps) < TWO64
    ensures var q := After(b, Walk(b, START, past), publish);
            var c, events := q.state.nonce.counters[0], CounterEvents(b, q, steps);
            (forall nonce: nat :: TakenOnce(UserRanges(b, q, steps), nonce))
            <==> !TakenAround(Later(events)) && (AnyTaken(First(events)) ==> Within(c, 0, Later(events)))
  {
    var p := Walk(b, START, past);
    PastCounted(b, START, past);
    PublishKeeps(b, p, publish);
    hide After, Along, Walk, Can, Position.Counted;
    var q := After(b, p, publish);
    CounterFollows(b, q, steps, publish.job.info.id);
    OnceFrom(q.state.nonce.counters[0], CounterEvents(b, q, steps));
  }

  // ---- How it fails ----

  lemma {:induction false} WalkAppend(b: Build, p: Position, steps: seq<Step>, more: seq<Step>)
    requires p.Valid()
    ensures Walk(b, p, steps + more) == Walk(b, Walk(b, p, steps), more)
    decreases |steps|
  {
    if steps == [] {
      assert steps + more == more;
    } else {
      assert (steps + more)[1..] == steps[1..] + more;
      WalkAppend(b, After(b, p, steps[0]), steps[1..], more);
    }
  }

  lemma {:induction false} PossibleStep(b: Build, p: Position, step: Step, rest: seq<Step>)
    requires p.Valid() && Can(b, p, step) && PossibleRun(b, After(b, p, step), rest)
    ensures PossibleRun(b, p, [step] + rest)
  {
    assert ([step] + rest)[1..] == rest;
  }

  lemma {:induction false} PossibleAppend(b: Build, p: Position, steps: seq<Step>, more: seq<Step>)
    requires p.Valid() && PossibleRun(b, p, steps) && PossibleRun(b, Walk(b, p, steps), more)
    ensures PossibleRun(b, p, steps + more)
    decreases |steps|
  {
    hide Can, After;
    if steps == [] {
      assert steps + more == more;
    } else {
      assert (steps + more)[1..] == steps[1..] + more;
      PossibleAppend(b, After(b, p, steps[0]), steps[1..], more);
    }
  }

  /** A first job is published, handed over and worked on. */
  function WorkedOn(first: Job, m: Word64): seq<Step> {
    [Publish(first, false, true, true), HandOver, Whole(Take(0, m))]
  }

  lemma {:induction false} FirstJob(b: Build, first: Job, m: Word64)
    ensures var p := Walk(b, START, WorkedOn(first, m));
            && PossibleRun(b, START, WorkedOn(first, m))
            && !p.handing && p.state.job == first.WithIndex(0) && p.state.algorithm == first.info.algorithm
            && p.state.active && p.state.enabled && !p.state.batteryPower && !p.state.nonce.paused
            && p.state.nonce.counters[0] == m
  {
    var a0, a1, a2 := Publish(first, false, true, true), HandOver, Whole(Take(0, m));
    var p0 := After(b, START, a0);
    var p1 := After(b, p0, a1);
    TakeOverEffect(b, INITIAL, first, false, true, true);
    hide TakeOver, AfterJobChange;
    ChangeEffect(p0.state);
    WalkStep(b, START, a0, [a1, a2]);
    WalkStep(b, p0, a1, [a2]);
    WalkStep(b, p1, a2, []);
    PossibleStep(b, p1, a2, []);
    PossibleStep(b, p0, a1, [a2]);
    PossibleStep(b, START, a0, [a1, a2]);
  }

  /** A second job is published after it. */
  lemma {:induction false} SecondJob(b: Build, first: Job, m: Word64, second: Job, ready: bool)
    requires !first.EqualBlob(second) || (b.randomX && !ready)
    requires !second.info.algorithm.family.RandomX? ==> ready
    ensures var steps := WorkedOn(first, m) + [Publish(second, false, ready, ready)];
            var p := Walk(b, START, steps);
            && PossibleRun(b, START, steps)
            && p.handing == (!b.randomX || ready) && p.state.job == second.WithIndex(0) && p.state.reset
            && p.state.active && p.state.enabled && !p.state.batteryPower && p.state.nonce.counters[0] == m
            && (ready ==> !p.state.nonce.paused)
  {
    var publish := Publish(second, false, ready, ready);
    var p := Walk(b, START, WorkedOn(first, m));
    FirstJob(b, first, m);
    WalkAppend(b, START, WorkedOn(first, m), [publish]);
    hide WorkedOn;
    WalkStep(b, p, publish, []);
    PossibleStep(b, p, publish, []);
    PossibleAppend(b, START, WorkedOn(first, m), [publish]);
    TakeOverEffect(b, p.state, second, false, ready, !b.randomX || ready);
  }

  /**
   A worker sees the new job before its counter is reset: nonces taken in between are handed
   out again as soon as the counter gets there, at once if it stood at zero.
   */
  lemma {:induction false} TakenBeforeReset(b: Build, first: Job, second: Job, m: Word64, n: Word64, k: Word64)
    requires !first.EqualBlob(second) && n > 0 && k > m
    ensures var past := WorkedOn(first, m) + [Publish(second, false, true, true)];
            var p := Walk(b, START, past);
            var steps := [Whole(Take(0, n)), HandOver, Whole(Take(0, k))];
            && PossibleRun(b, START, past)
            && Along(b, p, steps, (s, step) => OneUserJob(s, step, second.info.id))
            && p.state.job == second.WithIndex(0) && !p.state.nonce.paused
            && UserRanges(b, p, steps) == [Range(m, n), Range(0, k)]
            && !TakenOnce(UserRanges(b, p, steps), m)
  {
    SecondJob(b, first, m, second, true);
    hide Walk, After;
    TakenTwice(b, Walk(b, START, WorkedOn(first, m) + [Publish(second, false, true, true)]), n, k, second.info.id);
  }

  lemma {:induction false} TakenTwice(b: Build, p: Position, n: Word64, k: Word64, id: string)
    requires p.Valid() && p.handing && p.state.reset && p.state.job.info.index == 0
    requires n > 0 && k > p.state.nonce.counters[0]
    ensures var steps := [Whole(Take(0, n)), HandOver, Whole(Take(0, k))];
            && Along(b, p, steps, (s, step) => OneUserJob(s, step, id))
            && UserRanges(b, p, steps) == [Range(p.state.nonce.counters[0], n), Range(0, k)]
            && !TakenOnce(UserRanges(b, p, steps), p.state.nonce.counters[0])
  {
    var f := (s, step) => OneUserJob(s, step, id);
    var a0, a1, a2 := Whole(Take(0, n)), HandOver, Whole(Take(0, k));
    var q := After(b, p, a0);
    var r := After(b, q, a1);
    TakeSameJob(b, p.state, 0, n);
    hide AfterJobChange;
    ChangeEffect(q.state);
    AlongStep(b, p, a0, [a1, a2], f);
    AlongStep(b, q, a1, [a2], f);
    AlongStep(b, r, a2, [], f);
    RangesStep(b, p, a0, [a1, a2]);
    RangesStep(b, q, a1, [a2]);
    RangesStep(b, r, a2, []);
    hide After, Along, UserRanges;
    var c := p.state.nonce.counters[0];
    assert UserRanges(b, p, [a0, a1, a2]) == [Range(c, n)] + [Range(0, k)];
    assert [Range(c, n), Range(0, k)][1..] == [Range(0, k)];
    assert Times([Range(0, k)], c) == 1;
  }

  lemma {:induction false} RangesStep(b: Build, p: Position, step: Step, rest: seq<Step>)
    requires p.Valid()
    ensures UserRanges(b, p, [step] + rest)
            == (if TakesFromUser(step) then [Range(p.state.nonce.counters[0], step.action.count)] else [])
               + UserRanges(b, After(b, p, step), rest)
  {
    assert ([step] + rest)[1..] == rest;
  }

  /**
   A late callback: the dataset of a first job is missing, a second job is found ready
   before the callback for the first arrives, workers take nonces for it, and then the
   callback starts its counter again.
   */
  lemma {:induction false} StartedOver(first: Job, second: Job, n: Word64)
    requires first.info.algorithm.family.RandomX? && !first.EqualBlob(second) && n > 0
    ensures var b := Build(true);
            var past := [Publish(first, false, false, false), Publish(second, false, true, true), HandOver];
            var p := Walk(b, START, past);
            var steps := [Whole(Take(0, n)), Whole(DatasetReady(true))];
            var q := Walk(b, p, steps);
            && PossibleRun(b, START, past)
            && Along(b, p, steps, (s, step) => OneUserJob(s, step, second.info.id))
            && q.state.job == p.state.job == second.WithIndex(0)
            && !p.state.nonce.paused && !q.state.nonce.paused
            && p.state.nonce.counters[0] == 0 && q.state.nonce.counters[0] == 0
  {
    var b := Build(true);
    var a0, a1 := Publish(first, false, false, false), Publish(second, false, true, true);
    var p0 := After(b, START, a0);
    var p1 := After(b, p0, a1);
    var p2 := After(b, p1, HandOver);
    TakeOverEffect(b, INITIAL, first, false, false, false);
    hide TakeOver, AfterJobChange;
    TakeOverEffect(b, p0.state, second, false, true, true);
    ChangeEffect(p1.state);
    WalkStep(b, START, a0, [a1, HandOver]);
    WalkStep(b, p0, a1, [HandOver]);
    WalkStep(b, p1, HandOver, []);
    PossibleStep(b, p1, HandOver, []);
    PossibleStep(b, p0, a1, [HandOver]);
    PossibleStep(b, START, a0, [a1, HandOver]);
    hide Walk, After;
    AnnouncedLate(p2, n, second.info.id);
  }

  lemma {:induction false} AnnouncedLate(p: Position, n: Word64, id: string)
    requires p.Valid() && !p.handing && p.state.building && p.state.reset && p.state.job.info.index == 0
    requires p.state.active && p.state.enabled && !p.state.nonce.paused
    ensures var b := Build(true);
            var steps := [Whole(Take(0, n)), Whole(DatasetReady(true))];
            var q := Walk(b, p, steps);
            && Along(b, p, steps, (s, step) => OneUserJob(s, step, id))
            && q.state.job == p.state.job && !q.state.nonce.paused && q.state.nonce.counters[0] == 0
  {
    var b := Build(true);
    var f := (s, step) => OneUserJob(s, step, id);
    var a0, a1 := Whole(Take(0, n)), Whole(DatasetReady(true));
    var q := After(b, p, a0);
    TakeSameJob(b, p.state, 0, n);
    hide AfterJobChange;
    ChangeEffect(q.state);
    WalkStep(b, p, a0, [a1]);
    WalkStep(b, q, a1, []);
    AlongStep(b, p, a0, [a1], f);
    AlongStep(b, q, a1, [], f);
  }

  /**
   A user too quick: while the dataset of a new job is being built the user pauses and
   resumes, which lets workers take nonces for the new job from a counter about to be reset.
   */
  lemma {:induction false} ResumedTooEarly(first: Job, second: Job, m: Word64, n: Word64)
    requires first.info.algorithm == second.info.algorithm && first.info.algorithm.family.RandomX?
    ensures var b := Build(true);
            var past := WorkedOn(first, m) + [Publish(second, false, false, false)];
            var p := Walk(b, START, past);
            var switches := [Whole(SetEnabled(false, false)), Whole(SetEnabled(true, false))];
            var q := Walk(b, p, switches);
            && PossibleRun(b, START, past) && PossibleRun(b, p, switches)
            && p.state.nonce.paused && !q.state.nonce.paused
            && q.state.job == p.state.job == second.WithIndex(0) && q.state.nonce.counters[0] == m
            && CounterEvents(b, q, [Whole(Take(0, n)), Whole(DatasetReady(true))]) == [Took(n), Restarted]
  {
    var b := Build(true);
    var p := Walk(b, START, WorkedOn(first, m) + [Publish(second, false, false, false)]);
    var off, on := Whole(SetEnabled(false, false)), Whole(SetEnabled(true, false));
    SecondJob(b, first, m, second, false);
    AwaitedJob(first, m, second);
    hide M.Next, WorkedOn;
    OffAndOn(b, p.state);
    WalkStep(b, p, off, [on]);
    WalkStep(b, After(b, p, off), on, []);
    PossibleStep(b, After(b, p, off), on, []);
    PossibleStep(b, p, off, [on]);
    TookThenRestarted(b, Walk(b, p, [off, on]), n);
  }

  /** While the dataset is missing nobody works on the new job. */
  lemma {:induction false} AwaitedJob(first: Job, m: Word64, second: Job)
    requires first.info.algorithm == second.info.algorithm && first.info.algorithm.family.RandomX?
    ensures Walk(Build(true), START, WorkedOn(first, m) + [Publish(second, false, false, false)]).state.nonce.paused
  {
    var b := Build(true);
    var publish := Publish(second, false, false, false);
    var p := Walk(b, START, WorkedOn(first, m));
    FirstJob(b, first, m);
    WalkAppend(b, START, WorkedOn(first, m), [publish]);
    hide WorkedOn;
    WalkStep(b, p, publish, []);
    TakeOverEffect(b, p.state, second, false, false, false);
  }

  lemma {:induction false} TookThenRestarted(b: Build, p: Position, n: Word64)
    requires p.Valid() && p.state.reset && p.state.job.info.index == 0
    ensures CounterEvents(b, p, [Whole(Take(0, n)), Whole(DatasetReady(true))]) == [Took(n), Restarted]
  {
    TakeSameJob(b, p.state, 0, n);
    hide M.Next;
    var q := After(b, p, Whole(Take(0, n)));
    EventsStep(b, p, Whole(Take(0, n)), [Whole(DatasetReady(true))]);
    EventsStep(b, q, Whole(DatasetReady(true)), []);
    assert [Took(n)] + ([Restarted] + []) == [Took(n), Restarted];
  }

  /** Pausing and resuming by hand leaves the miner unpaused, with its job as it was. */
  lemma {:induction false} OffAndOn(b: Build, s: State)
    requires s.Valid() && s.active && s.enabled && !s.batteryPower
    ensures var t := M.Next(b, M.Next(b, s, SetEnabled(false, false)), SetEnabled(true, false));
            SameJob(s, t) && !t.nonce.paused && t.enabled
  {
    EnableEffect(s, false, false);
    EnableSameJob(s, false, false);
    var off := Enable(s, false, false);
    EnableEffect(off, true, false);
    EnableSameJob(off, true, false);
    hide Enable;
  }
}
