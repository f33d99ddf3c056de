/**
 One nonce counter over time: ranges are taken from it, and now and then it starts again
 at zero. When is no nonce handed out twice?
 */
module NonceRanges {
  datatype Event = Took(count: nat) | Restarted

  /** Nonces `start` to `start + count - 1`. */
  datatype Range = Range(start: nat, count: nat)

  /** The counter after some events. */
  function Counter(c: nat, events: seq<Event>): nat
    decreases |events|
  {
    if events == [] then c
    else match events[0]
      case Took(n) => Counter(c + n, events[1..])
      case Restarted => Counter(0, events[1..])
  }

  /** The ranges handed out, in order. */
  function Ranges(c: nat, events: seq<Event>): seq<Range>
    decreases |events|
  {
    if events == [] then []
    else match events[0]
      case Took(n) => [Range(c, n)] + Ranges(c + n, events[1..])
      case Restarted => Ranges(0, events[1..])
  }

  /** How often `nonce` was handed out. */
  function Times(ranges: seq<Range>, nonce: nat): nat {
    if ranges == [] then 0
    else
      (if ranges[0].start <= nonce < ranges[0].start + ranges[0].count then 1 else 0)
      + Times(ranges[1..], nonce)
  }

  predicate TakenOnce(ranges: seq<Range>, nonce: nat) {
    Times(ranges, nonce) <= 1
  }

  // ---- The condition, on the schedule ----

  /** What was taken before the first restart, between restarts, and after the last one. */
  function Totals(events: seq<Event>): (t: seq<nat>)
    ensures |t| > 0
    decreases |events|
  {
    if events == [] then [0]
    else
      var t := Totals(events[1..]);
      match events[0]
      case Took(n) => [n + t[0]] + t[1..]
      case Restarted => [0] + t
  }

  /** Where the counter stood at the beginning of stretch `i`. */
  function Base(c: nat, i: nat): nat {
    if i == 0 then c else 0
  }

  /** Once something was taken, no later stretch reaches up to where that stretch began. */
  predicate Apart(c: nat, totals: seq<nat>) {
    forall i: nat, j: nat :: i < j < |totals| ==> !Clash(c, totals, i, j)
  }

  predicate Clash(c: nat, totals: seq<nat>, i: nat, j: nat)
    requires i < j < |totals|
  {
    totals[i] > 0 && totals[j] > Base(c, i)
  }

  // ---- Proof ----

  /** In how many stretches `nonce` was handed out. */
  function Stretches(c: nat, totals: seq<nat>, nonce: nat): nat {
    if totals == [] then 0
    else (if c <= nonce < c + totals[0] then 1 else 0) + Stretches(0, totals[1..], nonce)
  }

  lemma {:induction false} TimesAre(c: nat, events: seq<Event>, nonce: nat)
    ensures Times(Ranges(c, events), nonce) == Stretches(c, Totals(events), nonce)
    decreases |events|
  {
    if events == [] {
      assert [0][1..] == [];
    } else {
      var rest := events[1..];
      var t := Totals(rest);
      match events[0]
      case Took(n) =>
        TimesAre(c + n, rest, nonce);
        assert ([Range(c, n)] + Ranges(c + n, rest))[1..] == Ranges(c + n, rest);
        assert ([n + t[0]] + t[1..])[1..] == t[1..];
      case Restarted =>
        TimesAre(0, rest, nonce);
        assert ([0] + t)[1..] == t;
    }
  }

  predicate Holds(c: nat, totals: seq<nat>, i: nat, nonce: nat)
    requires i < |totals|
  {
    Base(c, i) <= nonce < Base(c, i) + totals[i]
  }

  lemma {:induction false} AtLeastOnce(c: nat, totals: seq<nat>, i: nat, nonce: nat)
    requires i < |totals| && Holds(c, totals, i, nonce)
    ensures Stretches(c, totals, nonce) >= 1
    decreases i
  {
    if i > 0 {
      AtLeastOnce(0, totals[1..], i - 1, nonce);
    }
  }

  lemma {:induction false} AtLeastTwice(c: nat, totals: seq<nat>, i: nat, j: nat, nonce: nat)
    requires i < j < |totals| && Holds(c, totals, i, nonce) && Holds(c, totals, j, nonce)
    ensures Stretches(c, totals, nonce) >= 2
    decreases i
  {
    if i == 0 {
      AtLeastOnce(0, totals[1..], j - 1, nonce);
    } else {
      AtLeastTwice(0, totals[1..], i - 1, j - 1, nonce);
    }
  }

  lemma {:induction false} NotAtAll(c: nat, totals: seq<nat>, nonce: nat)
    requires forall i: nat :: i < |totals| ==> !Holds(c, totals, i, nonce)
    ensures Stretches(c, totals, nonce) == 0
    decreases |totals|
  {
    if totals != [] {
      assert !Holds(c, totals, 0, nonce);
      forall i: nat | i < |totals| - 1
        ensures !Holds(0, totals[1..], i, nonce)
      {
        assert !Holds(c, totals, i + 1, nonce);
      }
      NotAtAll(0, totals[1..], nonce);
    }
  }

  lemma {:induction false} ApartTail(c: nat, totals: seq<nat>)
    requires totals != [] && Apart(c, totals)
    ensures Apart(0, totals[1..])
  {
    forall i: nat, j: nat | i < j < |totals[1..]|
      ensures !Clash(0, totals[1..], i, j)
    {
      assert !Clash(c, totals, i + 1, j + 1);
    }
  }

  lemma {:induction false} ApartMeansOnce(c: nat, totals: seq<nat>, nonce: nat)
    requires Apart(c, totals)
    ensures Stretches(c, totals, nonce) <= 1
    decreases |totals|
  {
    if totals != [] {
      ApartTail(c, totals);
      if c <= nonce < c + totals[0] {
        forall i: nat | i < |totals[1..]|
          ensures !Holds(0, totals[1..], i, nonce)
        {
          assert !Clash(c, totals, 0, i + 1);
        }
        NotAtAll(0, totals[1..], nonce);
      } else {
        ApartMeansOnce(0, totals[1..], nonce);
      }
    }
  }

  /**
   No nonce is handed out twice if and only if, of any two stretches between restarts, the
   earlier took nothing or the later did not get as far as where the earlier began.
   */
  lemma {:induction false} OnceExactly(c: nat, events: seq<Event>)
    ensures (forall nonce: nat :: TakenOnce(Ranges(c, events), nonce)) <==> Apart(c, Totals(events))
  {
    var totals := Totals(events);
    if Apart(c, totals) {
      forall nonce: nat
        ensures TakenOnce(Ranges(c, events), nonce)
      {
        TimesAre(c, events, nonce);
        ApartMeansOnce(c, totals, nonce);
      }
    } else {
      var i: nat, j: nat :| i < j < |totals| && Clash(c, totals, i, j);
      var nonce := Base(c, i);
      assert Holds(c, totals, i, nonce) && Holds(c, totals, j, nonce);
      AtLeastTwice(c, totals, i, j, nonce);
      TimesAre(c, events, nonce);
      assert !TakenOnce(Ranges(c, events), nonce);
    }
  }

  // ---- The condition for a counter that starts at zero ----

  predicate AnyTaken(events: seq<Event>) {
    events != [] && ((events[0].Took? && events[0].count > 0) || AnyTaken(events[1..]))
  }

  /** A restart, and something taken after it. */
  predicate TakenAfterRestart(events: seq<Event>) {
    events != [] && ((events[0].Restarted? && AnyTaken(events[1..])) || TakenAfterRestart(events[1..]))
  }

  /** Something taken, then a restart, then something taken again. */
  predicate TakenAround(events: seq<Event>) {
    events != [] &&
    ((events[0].Took? && events[0].count > 0 && TakenAfterRestart(events[1..])) || TakenAround(events[1..]))
  }

  predicate SomeFrom(totals: seq<nat>, k: nat) {
    exists i :: k <= i < |totals| && totals[i] > 0
  }

  lemma {:induction false} TotalsShow(events: seq<Event>)
    ensures AnyTaken(events) <==> SomeFrom(Totals(events), 0)
    ensures TakenAfterRestart(events) <==> SomeFrom(Totals(events), 1)
    ensures TakenAround(events) <==> !Apart(0, Totals(events))
    decreases |events|
  {
    var all := Totals(events);
    if events != [] {
      var t := Totals(events[1..]);
      TotalsShow(events[1..]);
      match events[0]
      case Took(n) =>
        TookShifts(n, t);
      case Restarted =>
        RestartShifts(t);
    }
  }

  lemma {:induction false} TookShifts(n: nat, t: seq<nat>)
    requires t != []
    ensures var all := [n + t[0]] + t[1..];
            && (SomeFrom(all, 0) <==> n > 0 || SomeFrom(t, 0))
            && (SomeFrom(all, 1) <==> SomeFrom(t, 1))
            && (!Apart(0, all) <==> (n > 0 && SomeFrom(t, 1)) || !Apart(0, t))
  {
    var all := [n + t[0]] + t[1..];
    assert all[0] == n + t[0] && forall i :: 1 <= i < |t| ==> all[i] == t[i];
    if SomeFrom(t, 0) {
      var i :| 0 <= i < |t| && t[i] > 0;
      assert all[i] > 0;
    }
    if SomeFrom(t, 1) {
      var j :| 1 <= j < |t| && t[j] > 0;
      assert all[j] > 0;
    }
    if !Apart(0, t) {
      var i: nat, j: nat :| i < j < |t| && Clash(0, t, i, j);
      assert Clash(0, all, i, j);
    }
    if n > 0 && SomeFrom(t, 1) {
      var j :| 1 <= j < |t| && t[j] > 0;
      assert Clash(0, all, 0, j);
    }
    if !Apart(0, all) {
      var i: nat, j: nat :| i < j < |all| && Clash(0, all, i, j);
      assert t[j] > 0;
      if i > 0 || n == 0 {
        assert Clash(0, t, i, j);
      }
    }
  }

  lemma {:induction false} RestartShifts(t: seq<nat>)
    requires t != []
    ensures var all := [0] + t;
            && (SomeFrom(all, 0) <==> SomeFrom(t, 0)) && (SomeFrom(all, 1) <==> SomeFrom(t, 0))
            && (Apart(0, all) <==> Apart(0, t))
  {
    RestartSome(t);
    RestartApart(t);
  }

  lemma {:induction false} RestartSome(t: seq<nat>)
    ensures var all := [0] + t; (SomeFrom(all, 0) <==> SomeFrom(t, 0)) && (SomeFrom(all, 1) <==> SomeFrom(t, 0))
  {
    var all := [0] + t;
    if SomeFrom(t, 0) {
      var i :| 0 <= i < |t| && t[i] > 0;
      assert all[i + 1] == t[i];
    }
    if SomeFrom(all, 0) {
      var i :| 0 <= i < |all| && all[i] > 0;
      assert t[i - 1] == all[i];
    }
  }

  lemma {:induction false} RestartApart(t: seq<nat>)
    ensures Apart(0, [0] + t) <==> Apart(0, t)
  {
    var all := [0] + t;
    if !Apart(0, t) {
      var i: nat, j: nat :| i < j < |t| && Clash(0, t, i, j);
      assert all[i + 1] == t[i] && all[j + 1] == t[j];
      assert Clash(0, all, i + 1, j + 1);
    }
    if !Apart(0, all) {
      var i: nat, j: nat :| i < j < |all| && Clash(0, all, i, j);
      assert i > 0 && t[i - 1] == all[i] && t[j - 1] == all[j];
      assert Clash(0, t, i - 1, j - 1);
    }
  }

  // ---- The condition for a counter that stands anywhere ----

  /** What happens before the first restart, and after it. */
  function First(events: seq<Event>): seq<Event> {
    if events == [] || events[0].Restarted? then [] else [events[0]] + First(events[1..])
  }

  function Later(events: seq<Event>): seq<Event> {
    if events == [] then []
    else if events[0].Restarted? then events[1..]
    else Later(events[1..])
  }

  /** Standing at `at`, the counter never gets past `c`. */
  predicate Within(c: nat, at: nat, events: seq<Event>)
    decreases |events|
  {
    at <= c &&
    (events == [] || match events[0]
                     case Took(n) => Within(c, at + n, events[1..])
                     case Restarted => Within(c, 0, events[1..]))
  }

  /** No stretch from the second on takes more than `c`. */
  predicate Short(c: nat, totals: seq<nat>) {
    forall j :: 1 <= j < |totals| ==> totals[j] <= c
  }

  lemma {:induction false} TookShort(c: nat, n: nat, rest: seq<nat>)
    requires rest != []
    ensures Short(c, [n + rest[0]] + rest[1..]) <==> Short(c, rest)
  {
    var all := [n + rest[0]] + rest[1..];
    assert forall j :: 1 <= j < |rest| ==> all[j] == rest[j];
  }

  lemma {:induction false} RestartShort(c: nat, rest: seq<nat>)
    requires rest != []
    ensures Short(c, [0] + rest) <==> rest[0] <= c && Short(c, rest)
  {
    var all := [0] + rest;
    assert forall j :: 0 <= j < |rest| ==> rest[j] == all[j + 1];
    assert forall j :: 1 <= j < |all| ==> all[j] == rest[j - 1];
  }

  lemma {:induction false} WithinTotals(c: nat, at: nat, events: seq<Event>)
    ensures Within(c, at, events) <==> at + Totals(events)[0] <= c && Short(c, Totals(events))
    decreases |events|
  {
    if events != [] {
      hide Short;
      var rest := Totals(events[1..]);
      match events[0]
      case Took(n) =>
        WithinTotals(c, at + n, events[1..]);
        TookShort(c, n, rest);
      case Restarted =>
        WithinTotals(c, 0, events[1..]);
        RestartShort(c, rest);
    }
  }

  /** The stretches of what comes later are those after the first one. */
  lemma {:induction false} TotalsSplit(events: seq<Event>)
    ensures var t := Totals(events);
            && (t[0] > 0 <==> AnyTaken(First(events)))
            && (|t| > 1 ==> t[1..] == Totals(Later(events))) && (|t| == 1 ==> Later(events) == [])
    decreases |events|
  {
    if events != [] {
      var rest := Totals(events[1..]);
      match events[0]
      case Took(n) =>
        TotalsSplit(events[1..]);
        assert ([n + rest[0]] + rest[1..])[1..] == rest[1..];
        assert ([Took(n)] + First(events[1..]))[1..] == First(events[1..]);
      case Restarted =>
        assert ([0] + rest)[1..] == rest;
    }
  }

  lemma {:induction false} ApartSplit(c: nat, t: seq<nat>)
    requires t != []
    ensures Apart(c, t) <==> Apart(0, t[1..]) && (t[0] > 0 ==> Short(c, t))
  {
    var rest := t[1..];
    if Apart(c, t) {
      ApartTail(c, t);
      forall j | 1 <= j < |t| && t[0] > 0
        ensures t[j] <= c
      {
        assert !Clash(c, t, 0, j);
      }
    }
    if !Apart(c, t) {
      var i: nat, j: nat :| i < j < |t| && Clash(c, t, i, j);
      if i > 0 {
        assert Clash(0, rest, i - 1, j - 1);
      }
    }
  }

  /**
   Wherever the counter stands: nothing is handed out twice if and only if nothing is taken
   on both sides of a later restart and, if anything was taken before the first restart, the
   counter never again gets past where it stood.
   */
  lemma {:induction false} OnceFrom(c: nat, events: seq<Event>)
    ensures (forall nonce: nat :: TakenOnce(Ranges(c, events), nonce))
            <==> !TakenAround(Later(events)) && (AnyTaken(First(events)) ==> Within(c, 0, Later(events)))
  {
    var t, later := Totals(events), Later(events);
    OnceExactly(c, events);
    TotalsSplit(events);
    ApartSplit(c, t);
    TotalsShow(later);
    WithinTotals(c, 0, later);
    LaterBound(c, t, Totals(later));
  }

  lemma {:induction false} LaterBound(c: nat, t: seq<nat>, later: seq<nat>)
    requires t != [] && later != [] && (|t| > 1 ==> t[1..] == later) && (|t| == 1 ==> later == [0])
    ensures Short(c, t) <==> later[0] <= c && Short(c, later)
    ensures Apart(0, t[1..]) <==> Apart(0, later)
  {
    if |t| > 1 {
      assert forall j :: 0 <= j < |later| ==> later[j] == t[j + 1];
      assert forall j :: 1 <= j < |t| ==> t[j] == later[j - 1];
    }
  }

  /** From zero: nothing is handed out twice if and only if nothing is taken on both sides of a restart. */
  lemma {:induction false} OnceFromZero(events: seq<Event>)
    ensures (forall nonce: nat :: TakenOnce(Ranges(0, events), nonce)) <==> !TakenAround(events)
  {
    OnceExactly(0, events);
    TotalsShow(events);
  }
}
