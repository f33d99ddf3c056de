/**
 The double buffer of `GpuWorker` (`src/backend/common/GpuWorker.cpp`): one thread stores
 statistics, any number of threads read them, and no lock is taken. Every load and every
 store of shared memory is a step of its own; steps interleave freely, each one atomic and
 seen by all threads at once.
 */
module DoubleBuffer {
  import opened Options

  datatype Pair = Pair(count: nat, stamp: nat)

  /** The shared fields. */
  datatype Memory = Memory(index: nat, counts: seq<nat>, stamps: seq<nat>) {
    predicate Valid() {
      index < 2 && |counts| == 2 && |stamps| == 2
    }

    function At(i: nat): Pair
      requires Valid() && i < 2
    {
      Pair(counts[i], stamps[i])
    }
  }

  /** Where the writer is in `storeStats`, with the slot it took and the values of this call. */
  datatype Writer = Idle | HasSlot(slot: nat, pair: Pair) | CountStored(slot: nat, pair: Pair) | BothStored(pair: Pair)

  predicate Writing(w: Writer) {
    w.CountStored? || w.BothStored?
  }

  /**
   Where a reader is in `hashrateData`. The program has no `since`, `from` and `to`: they
   name the number of flips before the load of the index, and the calls of `storeStats`
   that stored the count and the time that were read.
   */
  datatype Reader =
    | Resting
    | HasIndex(index: nat, since: nat)
    | HasCount(index: nat, since: nat, count: nat, from: nat)
    | Done(since: nat, pair: Pair, from: nat, to: nat)

  /**
   `history` lists the initial contents, as call 0, and the pair of every completed call.
   `counted` and `stamped` name, for each slot, the calls whose count and time it holds.
   */
  datatype State = State(memory: Memory, writer: Writer, readers: map<nat, Reader>, history: seq<Pair>,
                         counted: seq<nat>, stamped: seq<nat>) {
    predicate Valid() {
      memory.Valid() && |counted| == 2 && |stamped| == 2
    }

    function Flips(): int {
      |history| - 1
    }

    /** The pairs of all calls that have stored something. */
    function Calls(): seq<Pair> {
      history + if Writing(writer) then [writer.pair] else []
    }

    function Reader(r: nat): Reader {
      if r in readers then readers[r] else Resting
    }
  }

  datatype Action =
    | StoreBegin(pair: Pair) | StoreCount | StoreStamp | StoreFlip
    | ReadIndex(reader: nat) | ReadCount(reader: nat) | ReadStamp(reader: nat)

  const INITIAL := State(Memory(0, [0, 0], [0, 0]), Idle, map[], [Pair(0, 0)], [0, 0], [0, 0])

  /** `m_index ^ 1` */
  function Other(i: nat): nat {
    if i == 0 then 1 else 0
  }

  /** One step, or `None` if the thread is not at that point. */
  function Next(s: State, a: Action): (r: Option<State>)
    requires s.Valid()
    ensures r.Some? ==> r.value.Valid()
  {
    var m := s.memory;
    match a
    case StoreBegin(p) =>
      if s.writer.Idle? then Some(s.(writer := HasSlot(Other(m.index), p))) else None
    case StoreCount =>
      if s.writer.HasSlot? && s.writer.slot < 2
      then Some(s.(memory := m.(counts := m.counts[s.writer.slot := s.writer.pair.count]),
                   counted := s.counted[s.writer.slot := |s.history|],
                   writer := CountStored(s.writer.slot, s.writer.pair)))
      else None
    case StoreStamp =>
      if s.writer.CountStored? && s.writer.slot < 2
      then Some(s.(memory := m.(stamps := m.stamps[s.writer.slot := s.writer.pair.stamp]),
                   stamped := s.stamped[s.writer.slot := |s.history|],
                   writer := BothStored(s.writer.pair)))
      else None
    case StoreFlip =>
      if s.writer.BothStored?
      then Some(s.(memory := m.(index := Other(m.index)), writer := Idle, history := s.history + [s.writer.pair]))
      else None
    case ReadIndex(r) =>
      if (s.Reader(r).Resting? || s.Reader(r).Done?) && s.history != []
      then Some(s.(readers := s.readers[r := HasIndex(m.index, s.Flips())])) else None
    case ReadCount(r) =>
      var q := s.Reader(r);
      if q.HasIndex? && q.index < 2
      then Some(s.(readers := s.readers[r := HasCount(q.index, q.since, m.counts[q.index], s.counted[q.index])]))
      else None
    case ReadStamp(r) =>
      var q := s.Reader(r);
      if q.HasCount? && q.index < 2
      then Some(s.(readers := s.readers[r := Done(q.since, Pair(q.count, m.stamps[q.index]),
                                                 q.from, s.stamped[q.index])]))
      else None
  }

  function Run(s: State, actions: seq<Action>): (r: Option<State>)
    requires s.Valid()
    ensures r.Some? ==> r.value.Valid()
    decreases |actions|
  {
    if actions == [] then Some(s)
    else
      var t :- Next(s, actions[0]);
      Run(t, actions[1..])
  }

  // ---- What every interleaving keeps ----

  ghost predicate Inv(s: State) {
    && s.Valid()
    && s.history != []
    && s.memory.index == s.Flips() % 2
    && s.memory.At(s.memory.index) == s.history[s.Flips()]
    && match s.writer
       case Idle => true
       case HasSlot(slot, _) => slot == Other(s.memory.index)
       case CountStored(slot, p) => slot == Other(s.memory.index) && s.memory.counts[slot] == p.count
       case BothStored(p) => s.memory.At(Other(s.memory.index)) == p
  }

  predicate Active(q: Reader) {
    q.HasIndex? || q.HasCount?
  }

  /**
   Reader `r` and its read: while it is under way, either no flip followed its load of the
   index, or one did and nothing was stored after that flip; then its slot still holds the
   pair that was the newest at its load. What it has returned is such a pair.
   */
  ghost predicate Undisturbed(s: State, r: nat)
    requires Inv(s)
  {
    match s.Reader(r)
    case Resting => true
    case HasIndex(i, since) => Steady(s, i, since)
    case HasCount(i, since, count, _) => Steady(s, i, since) && count == s.history[since].count
    case Done(since, pair, _, _) => since < |s.history| && pair == s.history[since]
  }

  ghost predicate Steady(s: State, i: nat, since: nat)
    requires Inv(s)
  {
    && since <= s.Flips() && i == since % 2
    && s.memory.At(i) == s.history[since]
    && (since == s.Flips() || (since + 1 == s.Flips() && !Writing(s.writer)))
  }

  /** The proviso, for one step: a call that starts storing finds no flip since the load of `r`. */
  predicate Allowed(s: State, a: Action, r: nat) {
    a.StoreCount? && Active(s.Reader(r)) ==> s.Reader(r).since == s.Flips()
  }

  predicate AllowedRun(s: State, actions: seq<Action>, r: nat)
    requires s.Valid() && Run(s, actions).Some?
    decreases |actions|
  {
    actions == [] || (Allowed(s, actions[0], r) && AllowedRun(Next(s, actions[0]).value, actions[1..], r))
  }

  lemma {:induction false} InvStep(s: State, a: Action)
    requires Inv(s) && Next(s, a).Some?
    ensures Inv(Next(s, a).value)
    ensures s.history <= Next(s, a).value.history
  {
  }

  lemma {:induction false} WriterStep(s: State, a: Action, r: nat)
    requires Inv(s) && Next(s, a).Some? && Undisturbed(s, r) && Allowed(s, a, r)
    requires !a.ReadIndex? && !a.ReadCount? && !a.ReadStamp?
    ensures Inv(Next(s, a).value) && Undisturbed(Next(s, a).value, r)
  {
    InvStep(s, a);
    assert Next(s, a).value.Reader(r) == s.Reader(r);
  }

  lemma {:induction false} ReaderStep(s: State, a: Action, r: nat)
    requires Inv(s) && Next(s, a).Some? && Undisturbed(s, r)
    requires a.ReadIndex? || a.ReadCount? || a.ReadStamp?
    ensures Inv(Next(s, a).value) && Undisturbed(Next(s, a).value, r)
  {
    InvStep(s, a);
    var t := Next(s, a).value;
    assert a.reader != r ==> t.Reader(r) == s.Reader(r);
    assert t.memory == s.memory && t.history == s.history && t.writer == s.writer;
  }

  lemma {:induction false} RunKeeps(s: State, actions: seq<Action>, r: nat)
    requires Inv(s) && Run(s, actions).Some? && Undisturbed(s, r) && AllowedRun(s, actions, r)
    ensures Inv(Run(s, actions).value) && Undisturbed(Run(s, actions).value, r)
    decreases |actions|
  {
    if actions != [] {
      if actions[0].ReadIndex? || actions[0].ReadCount? || actions[0].ReadStamp? {
        ReaderStep(s, actions[0], r);
      } else {
        WriterStep(s, actions[0], r);
      }
      RunKeeps(Next(s, actions[0]).value, actions[1..], r);
    }
  }

  /**
   Under the proviso a reader returns a pair stored by one call of `storeStats` (or the
   initial one): the newest one completed when it loaded the index.
   */
  lemma {:induction false} ConsistentRead(actions: seq<Action>, r: nat)
    requires Run(INITIAL, actions).Some? && AllowedRun(INITIAL, actions, r)
    ensures var s := Run(INITIAL, actions).value;
            s.Reader(r).Done? ==> s.Reader(r).since < |s.history| && s.Reader(r).pair == s.history[s.Reader(r).since]
  {
    RunKeeps(INITIAL, actions, r);
  }

  /** The pairs handed to the calls that were completed, in order. */
  function Completed(pending: Option<Pair>, actions: seq<Action>): seq<Pair>
    decreases |actions|
  {
    if actions == [] then []
    else match actions[0]
      case StoreBegin(p) => Completed(Some(p), actions[1..])
      case StoreFlip => (if pending.Some? then [pending.value] else []) + Completed(None, actions[1..])
      case _ => Completed(pending, actions[1..])
  }

  function Pending(w: Writer): Option<Pair> {
    if w.Idle? then None else Some(w.pair)
  }

  /** `history` is what it is said to be. */
  lemma {:induction false} HistoryIs(s: State, actions: seq<Action>)
    requires s.Valid() && Run(s, actions).Some?
    ensures Run(s, actions).value.history == s.history + Completed(Pending(s.writer), actions)
    decreases |actions|
  {
    if actions == [] {
      assert s.history + [] == s.history;
    } else {
      var t := Next(s, actions[0]).value;
      HistoryIs(t, actions[1..]);
      if actions[0].StoreFlip? {
        assert s.history + [s.writer.pair] + Completed(None, actions[1..])
            == s.history + ([s.writer.pair] + Completed(None, actions[1..]));
      }
    }
  }

  // ---- Without the proviso: which calls a read comes from ----

  /** Slots hold words of the calls named; only a call under way leaves a slot out of step. */
  ghost predicate Owned(s: State)
    requires Inv(s)
  {
    forall i: nat :: i < 2 ==> SlotOwned(s, i)
  }

  ghost predicate SlotOwned(s: State, i: nat)
    requires Inv(s) && i < 2
  {
    && s.counted[i] < |s.Calls()| && s.stamped[i] < |s.Calls()|
    && s.memory.At(i) == Pair(s.Calls()[s.counted[i]].count, s.Calls()[s.stamped[i]].stamp)
    && if s.writer.CountStored? && s.writer.slot == i
       then s.counted[i] == |s.history| && s.stamped[i] < |s.history|
       else s.counted[i] == s.stamped[i] && (s.counted[i] == |s.history| ==> i == Other(s.memory.index))
  }

  /** What reader `r` has read are words of the calls it names. */
  ghost predicate ReadFrom(s: State, r: nat)
    requires Inv(s)
  {
    match s.Reader(r)
    case HasCount(i, _, count, from) => i < 2 && from < |s.Calls()| && count == s.Calls()[from].count
    case Done(_, pair, from, to) =>
      && from < |s.Calls()| && to < |s.Calls()|
      && pair == Pair(s.Calls()[from].count, s.Calls()[to].stamp)
    case _ => true
  }

  lemma {:induction false} CallsGrow(s: State, a: Action)
    requires Inv(s) && Next(s, a).Some?
    ensures s.Calls() <= Next(s, a).value.Calls()
  {
  }

  lemma {:induction false} OwnedStep(s: State, a: Action)
    requires Inv(s) && Owned(s) && Next(s, a).Some?
    ensures Inv(Next(s, a).value) && Owned(Next(s, a).value)
  {
    InvStep(s, a);
    CallsGrow(s, a);
    assert SlotOwned(s, 0) && SlotOwned(s, 1);
    var t := Next(s, a).value;
    forall i: nat | i < 2
      ensures SlotOwned(t, i)
    {
      assert SlotOwned(s, i);
    }
  }

  lemma {:induction false} ReadFromStep(s: State, a: Action, r: nat)
    requires Inv(s) && Owned(s) && ReadFrom(s, r) && Next(s, a).Some?
    ensures Inv(Next(s, a).value) && ReadFrom(Next(s, a).value, r)
  {
    InvStep(s, a);
    CallsGrow(s, a);
    assert SlotOwned(s, 0) && SlotOwned(s, 1);
  }

  lemma {:induction false} OwnedRun(s: State, actions: seq<Action>, r: nat)
    requires Inv(s) && Owned(s) && ReadFrom(s, r) && Run(s, actions).Some?
    ensures var t := Run(s, actions).value; Inv(t) && Owned(t) && ReadFrom(t, r)
    decreases |actions|
  {
    assert s.Valid();
    hide Next, Inv, Owned, ReadFrom;
    if actions != [] {
      OwnedStep(s, actions[0]);
      ReadFromStep(s, actions[0], r);
      OwnedRun(Next(s, actions[0]).value, actions[1..], r);
    }
  }

  /** `StoreStamp` steps into a slot. */
  function StampsInto(s: State, actions: seq<Action>, slot: nat): nat
    requires s.Valid() && Run(s, actions).Some?
    decreases |actions|
  {
    if actions == [] then 0
    else
      (if actions[0].StoreStamp? && s.writer.CountStored? && s.writer.slot == slot then 1 else 0)
      + StampsInto(Next(s, actions[0]).value, actions[1..], slot)
  }

  /** One step and the time stored in a slot. */
  lemma {:induction false} StampStep(s: State, a: Action, i: nat)
    requires Inv(s) && Owned(s) && i < 2 && Next(s, a).Some?
    ensures var t := Next(s, a).value;
            if a.StoreStamp? && s.writer.CountStored? && s.writer.slot == i
            then t.stamped[i] == |s.history| > s.stamped[i]
            else t.stamped[i] == s.stamped[i]
    ensures s.writer.CountStored? && !a.StoreStamp?
            ==> Next(s, a).value.writer == s.writer && Next(s, a).value.history == s.history
  {
    assert SlotOwned(s, i);
  }

  /**
   Call `c` stored the count of slot `i`. The slot holds the time of `c` too as long as no
   other time is stored there, if it did at first, and after exactly one more if it did not.
   */
  lemma {:induction false} StampTrack(s: State, actions: seq<Action>, i: nat, c: nat)
    requires Inv(s) && Owned(s) && i < 2 && Run(s, actions).Some?
    requires s.stamped[i] < c ==> s.writer.CountStored? && s.writer.slot == i && |s.history| == c
    ensures s.stamped[i] > c ==> Run(s, actions).value.stamped[i] > c
    ensures s.stamped[i] == c ==> (Run(s, actions).value.stamped[i] == c <==> StampsInto(s, actions, i) == 0)
    ensures s.stamped[i] == c ==> Run(s, actions).value.stamped[i] >= c
    ensures s.stamped[i] < c ==> (Run(s, actions).value.stamped[i] == c <==> StampsInto(s, actions, i) == 1)
    decreases |actions|
  {
    assert s.Valid();
    hide Next, Inv, Owned;
    if actions != [] {
      OwnedStep(s, actions[0]);
      StampStep(s, actions[0], i);
      StampTrack(Next(s, actions[0]).value, actions[1..], i, c);
    }
  }

  /** A reader between its two loads is left alone by everybody else. */
  lemma {:induction false} ReaderWaits(s: State, actions: seq<Action>, r: nat)
    requires s.Valid() && Run(s, actions).Some? && s.Reader(r).HasCount? && ReadStamp(r) !in actions
    ensures Run(s, actions).value.Reader(r) == s.Reader(r)
    decreases |actions|
  {
    if actions != [] {
      assert actions[0] in actions && forall a <- actions[1..] :: a in actions;
      ReaderWaits(Next(s, actions[0]).value, actions[1..], r);
    }
  }

  /** Where the words of a read come from: the calls named at its two loads. */
  lemma {:induction false} ReadComesFrom(actions: seq<Action>, r: nat)
    requires Run(INITIAL, actions).Some? && Run(INITIAL, actions).value.Reader(r).Done?
    ensures var s := Run(INITIAL, actions).value;
            var q := s.Reader(r);
            && q.from < |s.Calls()| && q.to < |s.Calls()|
            && q.pair == Pair(s.Calls()[q.from].count, s.Calls()[q.to].stamp)
  {
    StartsOwned();
    OwnedRun(INITIAL, actions, r);
  }

  lemma {:induction false} StartsOwned()
    ensures Inv(INITIAL) && Owned(INITIAL)
  {
  }

  /**
   Main result, on every schedule: a read is of one single call if and only if between its
   two loads no time is stored into its slot, or exactly one if the slot was out of step
   when the count was loaded.
   */
  lemma {:induction false} OneCallExactly(before: seq<Action>, r: nat, between: seq<Action>)
    requires var s := Run(INITIAL, before);
             && s.Some? && s.value.Reader(r).HasIndex? && Next(s.value, ReadCount(r)).Some?
             && var t := Run(Next(s.value, ReadCount(r)).value, between);
                t.Some? && ReadStamp(r) !in between
    ensures var s := Run(INITIAL, before).value;
            var i := s.Reader(r).index;
            var u := Next(s, ReadCount(r)).value;
            var end := Next(Run(u, between).value, ReadStamp(r));
            && end.Some? && end.value.Reader(r).Done? && i < 2
            && end.value.Reader(r).from == s.counted[i]
            && (end.value.Reader(r).from == end.value.Reader(r).to
                <==> StampsInto(u, between, i) == if s.counted[i] == s.stamped[i] then 0 else 1)
  {
    var s := Run(INITIAL, before).value;
    StartsOwned();
    OwnedRun(INITIAL, before, r);
    var i := s.Reader(r).index;
    var u := Next(s, ReadCount(r)).value;
    OwnedStep(s, ReadCount(r));
    ReaderWaits(u, between, r);
    assert SlotOwned(s, i);
    StampTrack(u, between, i, s.counted[i]);
  }

  /** No two calls store the same count, and no two the same time. */
  predicate Distinct(calls: seq<Pair>) {
    forall i, j :: 0 <= i < j < |calls| ==> calls[i].count != calls[j].count && calls[i].stamp != calls[j].stamp
  }

  /** Then a read that is not of one call returns a pair that nobody stored, whatever the schedule. */
  lemma {:induction false} TornExactly(actions: seq<Action>, r: nat)
    requires Run(INITIAL, actions).Some? && Run(INITIAL, actions).value.Reader(r).Done?
    requires Distinct(Run(INITIAL, actions).value.Calls())
    ensures var s := Run(INITIAL, actions).value;
            var q := s.Reader(r);
            q.pair in s.Calls() <==> q.from == q.to
  {
    ReadComesFrom(actions, r);
    var s := Run(INITIAL, actions).value;
    var q := s.Reader(r);
    if q.pair in s.Calls() {
      var k: nat :| k < |s.Calls()| && s.Calls()[k] == q.pair;
      assert k == q.from && k == q.to;
    }
  }

  function StoreSteps(p: Pair): seq<Action> {
    [StoreBegin(p), StoreCount, StoreStamp, StoreFlip]
  }

  // ---- The proviso is needed ----

  lemma {:induction false} RunAppend(s: State, a: seq<Action>, b: seq<Action>)
    requires s.Valid() && Run(s, a).Some?
    ensures Run(s, a + b) == Run(Run(s, a).value, b)
    decreases |a|
  {
    if a == [] {
      assert a + b == b;
    } else {
      assert (a + b)[1..] == a[1..] + b;
      RunAppend(Next(s, a[0]).value, a[1..], b);
    }
  }

  /** A whole call, in a state where nobody stores. */
  lemma {:induction false} StoreRuns(s: State, p: Pair)
    requires s.Valid() && s.writer.Idle?
    ensures var slot := Other(s.memory.index);
            Run(s, StoreSteps(p)) == Some(s.(
              memory := Memory(slot, s.memory.counts[slot := p.count], s.memory.stamps[slot := p.stamp]),
              history := s.history + [p],
              counted := s.counted[slot := |s.history|], stamped := s.stamped[slot := |s.history|]))
  {
    var s1 := Next(s, StoreBegin(p)).value;
    var s2 := Next(s1, StoreCount).value;
    var s3 := Next(s2, StoreStamp).value;
    var s4 := Next(s3, StoreFlip).value;
    RunStep(s3, StoreFlip, []);
    RunStep(s2, StoreStamp, [StoreFlip]);
    RunStep(s1, StoreCount, [StoreStamp, StoreFlip]);
    RunStep(s, StoreBegin(p), [StoreCount, StoreStamp, StoreFlip]);
  }

  lemma {:induction false} RunStep(s: State, a: Action, rest: seq<Action>)
    requires s.Valid() && Next(s, a).Some?
    ensures Run(s, [a] + rest) == Run(Next(s, a).value, rest)
  {
    assert ([a] + rest)[1..] == rest;
  }

  /**
   Without it a read can be torn, whatever the values: if a first call completed after the
   load and a second one has stored its count, the reader gets the count of the second and
   the time of the pair it started from.
   */
  lemma {:induction false} TornRead(s: State, p: Pair, q: Pair, r: nat)
    requires Inv(s) && s.writer.Idle? && !Active(s.Reader(r))
    ensures var first := [ReadIndex(r)] + StoreSteps(p) + [StoreBegin(q), StoreCount];
            var t := Run(s, first + [ReadCount(r), ReadStamp(r)]);
            t.Some? && t.value.Reader(r).Done?
            && t.value.Reader(r).pair == Pair(q.count, s.history[s.Flips()].stamp)
  {
    var s1 := Next(s, ReadIndex(r)).value;
    StoreRuns(s1, p);
    TornEnd(Run(s1, StoreSteps(p)).value, q, r);
    RunAppend(s1, StoreSteps(p), TornSteps(q, r));
    RunStep(s, ReadIndex(r), StoreSteps(p) + TornSteps(q, r));
    assert [ReadIndex(r)] + StoreSteps(p) + [StoreBegin(q), StoreCount] + [ReadCount(r), ReadStamp(r)]
        == [ReadIndex(r)] + (StoreSteps(p) + TornSteps(q, r));
  }

  function TornSteps(q: Pair, r: nat): seq<Action> {
    [StoreBegin(q), StoreCount, ReadCount(r), ReadStamp(r)]
  }

  lemma {:induction false} TornEnd(s: State, q: Pair, r: nat)
    requires s.Valid() && s.writer.Idle?
    requires s.Reader(r).HasIndex? && s.Reader(r).index == Other(s.memory.index)
    ensures var t := Run(s, TornSteps(q, r));
            t.Some? && t.value.Reader(r).Done?
            && t.value.Reader(r).pair == Pair(q.count, s.memory.stamps[s.Reader(r).index])
  {
    var s1 := Next(s, StoreBegin(q)).value;
    var s2 := Next(s1, StoreCount).value;
    var s3 := Next(s2, ReadCount(r)).value;
    var s4 := Next(s3, ReadStamp(r)).value;
    RunStep(s3, ReadStamp(r), []);
    RunStep(s2, ReadCount(r), [ReadStamp(r)]);
    RunStep(s1, StoreCount, [ReadCount(r), ReadStamp(r)]);
    RunStep(s, StoreBegin(q), [StoreCount, ReadCount(r), ReadStamp(r)]);
  }

  // ---- The two functions, each run without interruption ----

  class GpuWorker {
    var index: nat
    const hashCount: array<nat>
    const timestamp: array<nat>

    ghost predicate Valid()
      reads this
    {
      index < 2 && hashCount.Length == 2 && timestamp.Length == 2 && hashCount != timestamp
    }

    ghost function Shared(): Memory
      reads this, hashCount, timestamp
    {
      Memory(index, hashCount[..], timestamp[..])
    }

    constructor ()
      ensures Valid() && Shared() == INITIAL.memory
      ensures fresh(hashCount) && fresh(timestamp)
    {
      hashCount := new nat[2](_ => 0);
      timestamp := new nat[2](_ => 0);
      index := 0;
    }

    /** `storeStats` (GpuWorker.cpp:30-42) with the values of `m_count` and of the clock. */
    method StoreStats(count: nat, now: nat)
      requires Valid()
      modifies this, hashCount, timestamp
      ensures Valid()
      ensures forall s: State :: s.Valid() && s.memory == old(Shared()) && s.writer.Idle? ==>
                Run(s, StoreSteps(Pair(count, now))) == Some(s.(
                  memory := Shared(), history := s.history + [Pair(count, now)],
                  counted := s.counted[index := |s.history|], stamped := s.stamped[index := |s.history|]))
      ensures Shared().At(index) == Pair(count, now)
      ensures Shared().At(Other(index)) == old(Shared().At(index))
    {
      var unused := Other(index);
      hashCount[unused] := count;
      timestamp[unused] := now;
      index := Other(index);
      forall s: State | s.Valid() && s.memory == old(Shared()) && s.writer.Idle?
        ensures Run(s, StoreSteps(Pair(count, now))) == Some(s.(
                  memory := Shared(), history := s.history + [Pair(count, now)],
                  counted := s.counted[index := |s.history|], stamped := s.stamped[index := |s.history|]))
      {
        StoreRuns(s, Pair(count, now));
      }
    }

    /** `hashrateData` (GpuWorker.cpp:45-52), without the interpolated raw hashes. */
    method HashrateData() returns (count: nat, stamp: nat)
      requires Valid()
      ensures Shared().Valid() && Pair(count, stamp) == Shared().At(index)
    {
      var i := index;
      count := hashCount[i];
      stamp := timestamp[i];
    }
  }
}
