/**
 Parsing of duration formats (`parse_chrono_format`, `src/3rdparty/fmt/chrono.h`), which
 happens twice: once with a checker when the format is parsed, and once with the formatter
 when a value is printed.
 */
module Chrono {
  import opened Options

  /**
   What the parser tells its handler: text, or one of the conversions, named here by its
   letter, in the standard or the alternative numeric system.
   */
  datatype Event = Text(text: string) | Conv(letter: char, alternative: bool)

  const LETTERS := "aAwubBHIMScxXDFrRTpQqzZ"
  const ALTERNATIVE_E := "cxX"
  const ALTERNATIVE_O := "wuHIMS"

  /** Conversions for which `chrono_format_checker` reports "no date" (chrono.h:629-656). */
  predicate IsDate(e: Event) {
    e.Conv? && e.letter in "aAwubBcxXDFzZ"
  }

  /** The event of the conversion whose '%' is at `i`, and the position after it. */
  function ParseConv(s: string, i: nat, end: nat): (r: Option<(Event, nat)>)
    requires i < end <= |s| && s[i] == '%'
    ensures r.Some? ==> i + 1 < r.value.1 <= end
  {
    if i + 1 == end then None
    else
      var c := s[i + 1];
      if c == '%' then Some((Text("%"), i + 2))
      else if c == 'n' then Some((Text("\n"), i + 2))
      else if c == 't' then Some((Text("\t"), i + 2))
      else if c in LETTERS then Some((Conv(c, false), i + 2))
      else if c == 'E' || c == 'O' then
        if i + 2 < end && s[i + 2] in (if c == 'E' then ALTERNATIVE_E else ALTERNATIVE_O)
        then Some((Conv(s[i + 2], true), i + 3)) else None
      else None
  }

  /** The first '%' or '}' at or after `i`. */
  function RunEnd(s: string, i: nat, end: nat): (j: nat)
    requires i <= end <= |s|
    ensures i <= j <= end
    ensures forall k :: i <= k < j ==> s[k] != '%' && s[k] != '}'
    ensures j < end ==> s[j] == '%' || s[j] == '}'
    decreases end - i
  {
    if i == end || s[i] == '%' || s[i] == '}' then i else RunEnd(s, i + 1, end)
  }

  function Run(s: string, i: nat, j: nat): seq<Event>
    requires i <= j <= |s|
  {
    if i < j then [Text(s[i..j])] else []
  }

  /** The events of `[i, end)` and where parsing stops; `None` is a format error. */
  function Events(s: string, i: nat, end: nat, checking: bool): (r: Option<(seq<Event>, nat)>)
    requires i <= end <= |s|
    ensures r.Some? ==> i <= r.value.1 <= end
    decreases end - i
  {
    var j := RunEnd(s, i, end);
    if j == end || s[j] == '}' then Some((Run(s, i, j), j))
    else
      var c :- ParseConv(s, j, end);
      if checking && IsDate(c.0) then None
      else
        var rest :- Events(s, c.1, end, checking);
        Some((Run(s, i, j) + [c.0] + rest.0, rest.1))
  }

  /** `parse_chrono_format` (chrono.h:471-627); `ok` is false if it throws. */
  method ParseChronoFormat(s: string, start: nat, end: nat, checking: bool)
    returns (ok: bool, events: seq<Event>, ptr: nat)
    requires start <= end <= |s|
    ensures ok <==> Events(s, start, end, checking).Some?
    ensures ok ==> Events(s, start, end, checking) == Some((events, ptr))
  {
    var begin := start;
    ptr := start;
    events := [];
    ghost var whole := Events(s, start, end, checking);
    if whole.Some? {
      assert [] + whole.value.0 == whole.value.0;
    }
    while ptr != end
      invariant start <= begin <= ptr <= end
      invariant forall k :: begin <= k < ptr ==> s[k] != '%' && s[k] != '}'
      invariant whole == Glue(events, Events(s, begin, end, checking))
      decreases end - ptr
    {
      RunPending(s, begin, ptr, end);
      var c := s[ptr];
      if c == '}' {
        break;
      }
      if c != '%' {
        ptr := ptr + 1;
        continue;
      }
      ghost var before, run := events, Run(s, begin, ptr);
      if begin != ptr {
        events := events + [Text(s[begin..ptr])];
      }
      var conv := ParseConv(s, ptr, end);
      if conv.None? || (checking && IsDate(conv.value.0)) {
        return false, events, ptr;
      }
      events := events + [conv.value.0];
      ptr := conv.value.1;
      assert events == before + (run + [conv.value.0]);
      GlueTwice(before, run + [conv.value.0], Events(s, ptr, end, checking));
      begin := ptr;
    }
    RunPending(s, begin, ptr, end);
    assert events + Run(s, begin, ptr) == if begin == ptr then events else events + [Text(s[begin..ptr])];
    if begin != ptr {
      events := events + [Text(s[begin..ptr])];
    }
    return true, events, ptr;
  }

  function Glue(done: seq<Event>, rest: Option<(seq<Event>, nat)>): Option<(seq<Event>, nat)> {
    var r :- rest;
    Some((done + r.0, r.1))
  }

  lemma {:induction false} GlueTwice(a: seq<Event>, b: seq<Event>, rest: Option<(seq<Event>, nat)>)
    ensures Glue(a + b, rest) == Glue(a, Glue(b, rest))
  {
    if rest.Some? {
      assert a + b + rest.value.0 == a + (b + rest.value.0);
    }
  }

  lemma {:induction false} RunPending(s: string, begin: nat, ptr: nat, end: nat)
    requires begin <= ptr <= end <= |s|
    requires forall k :: begin <= k < ptr ==> s[k] != '%' && s[k] != '}'
    ensures RunEnd(s, begin, end) == RunEnd(s, ptr, end)
    decreases ptr - begin
  {
    if begin < ptr {
      RunPending(s, begin + 1, ptr, end);
    }
  }

  // ---- Which letters mean what ----

  /** Times of day and the duration itself: what a duration can print. */
  predicate IsTime(c: char) {
    c == 'H' || c == 'I' || c == 'M' || c == 'S' || c == 'r' || c == 'R' || c == 'T' || c == 'p'
    || c == 'Q' || c == 'q'
  }

  /** Weekdays, months, dates and time zones: what it cannot. */
  predicate IsCalendar(c: char) {
    c == 'a' || c == 'A' || c == 'w' || c == 'u' || c == 'b' || c == 'B' || c == 'c' || c == 'x' || c == 'X'
    || c == 'D' || c == 'F' || c == 'z' || c == 'Z'
  }

  /** Those with an alternative form, for a time, a day of the week, or a date. */
  predicate HasAlternative(system: char, c: char) {
    (system == 'E' && (c == 'c' || c == 'x' || c == 'X'))
    || (system == 'O' && (c == 'H' || c == 'I' || c == 'M' || c == 'S' || c == 'w' || c == 'u'))
  }

  /**
   All formats of one conversion: which characters may follow a '%', which event each is, and
   which of them the checker lets a duration have.
   */
  lemma {:induction false} OneLetter(c: char, checking: bool)
    ensures Events(['%', c], 0, 2, checking)
         == if c == '%' then Some(([Text("%")], 2))
            else if c == 'n' then Some(([Text("\n")], 2))
            else if c == 't' then Some(([Text("\t")], 2))
            else if IsTime(c) || (IsCalendar(c) && !checking) then Some(([Conv(c, false)], 2))
            else None
  {
    LettersAre(c);
    hide IsTime, IsCalendar;
    OneConversion(['%', c], checking);
  }

  /** A format that is one conversion. */
  lemma {:induction false} OneConversion(s: string, checking: bool)
    requires s != "" && s[0] == '%' && (ParseConv(s, 0, |s|).Some? ==> ParseConv(s, 0, |s|).value.1 == |s|)
    ensures Events(s, 0, |s|, checking)
         == match ParseConv(s, 0, |s|)
            case None => None
            case Some(c) => if checking && IsDate(c.0) then None else Some(([c.0], |s|))
  {
    hide ParseConv, IsDate;
    assert RunEnd(s, |s|, |s|) == |s| && Events(s, |s|, |s|, checking) == Some(([], |s|));
    var c := ParseConv(s, 0, |s|);
    if c.Some? {
      assert [] + [c.value.0] + [] == [c.value.0];
    }
  }

  lemma {:induction false} LettersAre(c: char)
    ensures c in LETTERS <==> IsTime(c) || IsCalendar(c)
    ensures (IsDate(Conv(c, false)) <==> IsCalendar(c)) && !(IsTime(c) && IsCalendar(c))
    ensures c in ALTERNATIVE_E <==> HasAlternative('E', c)
    ensures c in ALTERNATIVE_O <==> HasAlternative('O', c)
    ensures IsDate(Conv(c, true)) <==> IsCalendar(c)
    ensures !IsTime('%') && !IsTime('n') && !IsTime('t') && !IsTime('E') && !IsTime('O')
    ensures !IsCalendar('%') && !IsCalendar('n') && !IsCalendar('t') && !IsCalendar('E') && !IsCalendar('O')
  {
  }

  /** And of two letters, the first choosing the numeric system. */
  lemma {:induction false} TwoLetters(system: char, c: char, checking: bool)
    requires system == 'E' || system == 'O'
    ensures Events(['%', system, c], 0, 3, checking)
         == if HasAlternative(system, c) && !(checking && IsCalendar(c)) then Some(([Conv(c, true)], 3)) else None
  {
    LettersAre(c);
    LettersAre(system);
    hide IsTime, IsCalendar, HasAlternative, IsDate;
    OneConversion(['%', system, c], checking);
  }

  // ---- The two passes ----

  /** A checked conversion reads the same if the text is cut off at `p`, past it. */
  lemma {:induction false} ConvWithin(s: string, i: nat, end: nat, p: nat)
    requires i < end <= |s| && s[i] == '%' && ParseConv(s, i, end).Some?
    requires ParseConv(s, i, end).value.1 <= p <= end
    ensures ParseConv(s, i, p) == ParseConv(s, i, end)
  {
  }

  lemma {:induction false} RunWithin(s: string, i: nat, end: nat, p: nat)
    requires i <= p <= end <= |s| && RunEnd(s, i, end) <= p
    ensures RunEnd(s, i, p) == RunEnd(s, i, end)
    decreases end - i
  {
    if i < end && s[i] != '%' && s[i] != '}' {
      RunWithin(s, i + 1, end, p);
    }
  }

  /**
   If the checker accepts and stops at `p`, the formatter, given the text up to `p`,
   raises no format error, stops at `p` and sees the same events.
   */
  lemma {:induction false} TwoPasses(s: string, i: nat, end: nat)
    requires i <= end <= |s| && Events(s, i, end, true).Some?
    ensures var r := Events(s, i, end, true).value;
            Events(s, i, r.1, false) == Some(r)
    decreases end - i
  {
    var p := Events(s, i, end, true).value.1;
    var j := RunEnd(s, i, end);
    if j < end && s[j] == '%' {
      var c := ParseConv(s, j, end).value;
      TwoPasses(s, c.1, end);
      RunWithin(s, i, end, p);
      ConvWithin(s, j, end, p);
    } else {
      RunWithin(s, i, end, p);
    }
  }

  /** The checker rejects exactly what does not parse or has a date in it. */
  lemma {:induction false} CheckerRejects(s: string, i: nat, end: nat)
    requires i <= end <= |s|
    ensures var r := Events(s, i, end, false);
            Events(s, i, end, true) == if r.Some? && forall e <- r.value.0 :: !IsDate(e) then r else None
    decreases end - i
  {
    var j := RunEnd(s, i, end);
    if j < end && s[j] == '%' && ParseConv(s, j, end).Some? {
      var c := ParseConv(s, j, end).value;
      CheckerRejects(s, c.1, end);
      var rest := Events(s, c.1, end, false);
      if rest.Some? {
        var all := Run(s, i, j) + [c.0] + rest.value.0;
        assert forall e :: e in all <==> e in Run(s, i, j) || e == c.0 || e in rest.value.0;
      }
    }
  }

  // ---- Printing the events back ----

  /** Text that is printed as an escape. */
  predicate IsEscape(e: Event) {
    e == Text("%") || e == Text("\n") || e == Text("\t")
  }

  function PrintEvent(e: Event): string {
    match e
    case Text(t) => if t == "%" then "%%" else if t == "\n" then "%n" else if t == "\t" then "%t" else t
    case Conv(c, alternative) =>
      if !alternative then ['%', c] else if c in ALTERNATIVE_E then ['%', 'E', c] else ['%', 'O', c]
  }

  function PrintEvents(events: seq<Event>): string {
    if events == [] then "" else PrintEvent(events[0]) + PrintEvents(events[1..])
  }

  /** An event the parser can produce. */
  predicate Possible(e: Event) {
    match e
    case Text(t) => IsEscape(e) || (t != "" && '%' !in t && '}' !in t)
    case Conv(c, alternative) => if alternative then c in ALTERNATIVE_E || c in ALTERNATIVE_O else c in LETTERS
  }

  predicate IsPlain(e: Event) {
    e.Text? && !IsEscape(e)
  }

  /** Possible events, no two plain texts in a row. */
  predicate Canonical(events: seq<Event>) {
    && (forall e <- events :: Possible(e))
    && forall k :: 0 < k < |events| ==> !(IsPlain(events[k - 1]) && IsPlain(events[k]))
  }

  /** Whatever the parser produces is canonical, and starts with plain text only if the source does. */
  lemma {:induction false} EventsCanonical(s: string, i: nat, end: nat, checking: bool)
    requires i <= end <= |s| && Events(s, i, end, checking).Some?
    ensures Canonical(Events(s, i, end, checking).value.0)
    decreases end - i
  {
    var j := RunEnd(s, i, end);
    assert i < j ==> Possible(Text(s[i..j]));
    if j < end && s[j] == '%' {
      var c := ParseConv(s, j, end).value;
      assert Possible(c.0) && !IsPlain(c.0);
      EventsCanonical(s, c.1, end, checking);
      ConsCanonical(Run(s, i, j), c.0, Events(s, c.1, end, checking).value.0);
    }
  }

  lemma {:induction false} ConsCanonical(run: seq<Event>, e: Event, rest: seq<Event>)
    requires |run| <= 1 && (forall x <- run :: Possible(x)) && Possible(e) && !IsPlain(e) && Canonical(rest)
    ensures Canonical(run + [e] + rest)
  {
    hide Possible, IsPlain;
    var all, n := run + [e] + rest, |run| + 1;
    assert forall x :: x in all <==> x in run || x == e || x in rest;
    assert all[n - 1] == e;
    forall k | 0 < k < |all|
      ensures !(IsPlain(all[k - 1]) && IsPlain(all[k]))
    {
      if k > n {
        assert all[k - 1] == rest[k - n - 1] && all[k] == rest[k - n];
      }
    }
  }

  lemma {:induction false} ReadShort(s: string, i: nat, c: char)
    requires i + 1 < |s| && s[i] == '%' && s[i + 1] == c
    ensures c in LETTERS ==> ParseConv(s, i, |s|) == Some((Conv(c, false), i + 2))
    ensures c == '%' ==> ParseConv(s, i, |s|) == Some((Text("%"), i + 2))
    ensures c == 'n' ==> ParseConv(s, i, |s|) == Some((Text("\n"), i + 2))
    ensures c == 't' ==> ParseConv(s, i, |s|) == Some((Text("\t"), i + 2))
  {
  }

  lemma {:induction false} ReadLong(s: string, i: nat, system: char, c: char)
    requires i + 2 < |s| && s[i] == '%' && s[i + 1] == system && s[i + 2] == c
    requires (system == 'E' && c in ALTERNATIVE_E) || (system == 'O' && c in ALTERNATIVE_O)
    ensures ParseConv(s, i, |s|) == Some((Conv(c, true), i + 3))
  {
  }

  lemma {:induction false} Middle(pre: string, p: string, post: string)
    ensures var s := pre + p + post;
            forall k :: 0 <= k < |p| ==> s[|pre| + k] == p[k]
  {
  }

  /** Reading back a printed conversion or escape. */
  lemma {:induction false} ConvRoundTrip(pre: string, e: Event, post: string)
    requires Possible(e) && !IsPlain(e)
    ensures var s := pre + PrintEvent(e) + post;
            s[|pre|] == '%' && ParseConv(s, |pre|, |s|) == Some((e, |pre| + |PrintEvent(e)|))
  {
    hide ParseConv;
    var p := PrintEvent(e);
    var s, i := pre + p + post, |pre|;
    Middle(pre, p, post);
    assert p[0] == '%' && s[i + 0] == p[0] && s[i + 1] == p[1];
    if e.Conv? && e.alternative {
      assert s[i + 2] == p[2];
      ReadLong(s, i, p[1], p[2]);
    } else {
      ReadShort(s, i, p[1]);
    }
  }

  lemma {:induction false} RunIs(s: string, i: nat, j: nat)
    requires i <= j <= |s| && (j == |s| || s[j] == '%')
    requires forall k :: i <= k < j ==> s[k] != '%' && s[k] != '}'
    ensures RunEnd(s, i, |s|) == j
    decreases j - i
  {
    if i < j {
      RunIs(s, i + 1, j);
    }
  }

  lemma {:induction false} CanonicalTail(events: seq<Event>)
    requires Canonical(events) && events != []
    ensures Possible(events[0]) && Canonical(events[1..])
    ensures IsPlain(events[0]) && |events| > 1 ==> !IsPlain(events[1])
  {
    hide Possible, IsPlain;
    var rest := events[1..];
    assert events[0] in events;
    assert forall x <- rest :: x in events;
    forall k | 0 < k < |rest|
      ensures !(IsPlain(rest[k - 1]) && IsPlain(rest[k]))
    {
      assert rest[k - 1] == events[k] && rest[k] == events[k + 1];
      assert !(IsPlain(events[k + 1 - 1]) && IsPlain(events[k + 1]));
    }
    if |events| > 1 {
      assert !(IsPlain(events[1 - 1]) && IsPlain(events[1]));
    }
  }

  lemma {:induction false} EventsAtConv(s: string, i: nat, checking: bool, e: Event, next: nat, rest: seq<Event>,
          ptr: nat)
    requires i < |s| && s[i] == '%' && ParseConv(s, i, |s|) == Some((e, next))
    requires !(checking && IsDate(e)) && next <= |s|
    requires Events(s, next, |s|, checking) == Some((rest, ptr))
    ensures Events(s, i, |s|, checking) == Some(([e] + rest, ptr))
  {
    hide ParseConv, IsDate;
    assert RunEnd(s, i, |s|) == i;
    assert [] + [e] + rest == [e] + rest;
  }

  lemma {:induction false} EventsAtText(s: string, i: nat, j: nat, checking: bool, rest: seq<Event>, ptr: nat)
    requires i < j <= |s| && (j == |s| || s[j] == '%')
    requires forall k :: i <= k < j ==> s[k] != '%' && s[k] != '}'
    requires Events(s, j, |s|, checking) == Some((rest, ptr))
    ensures Events(s, i, |s|, checking) == Some(([Text(s[i..j])] + rest, ptr))
  {
    hide ParseConv, IsDate;
    RunIs(s, i, j);
    RunIs(s, j, j);
    var run := [Text(s[i..j])];
    if j == |s| {
      assert run + [] == run;
    } else {
      var c := ParseConv(s, j, |s|).value;
      var more := Events(s, c.1, |s|, checking).value.0;
      assert [] + [c.0] + more == [c.0] + more;
      assert run + [c.0] + more == run + ([c.0] + more);
    }
  }

  /** Printing canonical events and parsing the text gives the events back. */
  lemma {:induction false} PrintThenParse(pre: string, events: seq<Event>, checking: bool)
    requires Canonical(events) && (checking ==> forall e <- events :: !IsDate(e))
    ensures var s := pre + PrintEvents(events);
            Events(s, |pre|, |s|, checking) == Some((events, |s|))
    ensures events != [] && !IsPlain(events[0]) ==> PrintEvents(events) != "" && PrintEvents(events)[0] == '%'
    decreases |events|
  {
    hide Canonical, IsPlain, Possible, IsDate, PrintEvent, ParseConv, RunEnd;
    if events == [] {
      assert pre + PrintEvents(events) == pre;
      assert RunEnd(pre, |pre|, |pre|) == |pre|;
    } else {
      var e, rest := events[0], events[1..];
      assert events == [e] + rest;
      assert e in events;
      CanonicalTail(events);
      PrintThenParse(pre + PrintEvent(e), rest, checking);
      assert pre + PrintEvents(events) == pre + PrintEvent(e) + PrintEvents(rest);
      PrintedEvent(pre, e, rest, checking);
    }
  }

  lemma {:induction false} PrintedEvent(pre: string, e: Event, rest: seq<Event>, checking: bool)
    requires Possible(e) && !(checking && IsDate(e))
    requires IsPlain(e) ==> rest == [] || (PrintEvents(rest) != "" && PrintEvents(rest)[0] == '%')
    requires var s := pre + PrintEvent(e) + PrintEvents(rest);
             Events(s, |pre + PrintEvent(e)|, |s|, checking) == Some((rest, |s|))
    ensures var s := pre + PrintEvent(e) + PrintEvents(rest);
            Events(s, |pre|, |s|, checking) == Some(([e] + rest, |s|))
    ensures !IsPlain(e) ==> PrintEvent(e) != "" && PrintEvent(e)[0] == '%'
  {
    hide Events, ParseConv, PrintEvents, IsDate;
    if IsPlain(e) {
      PrintedText(pre, e.text, rest, checking);
    } else {
      PrintedConv(pre, e, rest, checking);
    }
  }

  lemma {:induction false} PrintedConv(pre: string, e: Event, rest: seq<Event>, checking: bool)
    requires Possible(e) && !IsPlain(e) && !(checking && IsDate(e))
    requires var s := pre + PrintEvent(e) + PrintEvents(rest);
             Events(s, |pre + PrintEvent(e)|, |s|, checking) == Some((rest, |s|))
    ensures var s := pre + PrintEvent(e) + PrintEvents(rest);
            Events(s, |pre|, |s|, checking) == Some(([e] + rest, |s|))
    ensures PrintEvent(e) != "" && PrintEvent(e)[0] == '%'
  {
    hide Events, ParseConv, PrintEvents;
    var s := pre + PrintEvent(e) + PrintEvents(rest);
    ConvRoundTrip(pre, e, PrintEvents(rest));
    EventsAtConv(s, |pre|, checking, e, |pre + PrintEvent(e)|, rest, |s|);
  }

  lemma {:induction false} PrintedText(pre: string, t: string, rest: seq<Event>, checking: bool)
    requires Possible(Text(t)) && IsPlain(Text(t))
    requires rest == [] || (PrintEvents(rest) != "" && PrintEvents(rest)[0] == '%')
    requires var s := pre + t + PrintEvents(rest);
             Events(s, |pre + t|, |s|, checking) == Some((rest, |s|))
    ensures var s := pre + t + PrintEvents(rest);
            Events(s, |pre|, |s|, checking) == Some(([Text(t)] + rest, |s|))
  {
    hide Events, ParseConv;
    var post := PrintEvents(rest);
    var s, j := pre + t + post, |pre + t|;
    assert rest == [] ==> post == "";
    assert s[|pre|..j] == t;
    forall k | |pre| <= k < j
      ensures s[k] != '%' && s[k] != '}'
    {
      assert s[k] == t[k - |pre|] && t[k - |pre|] in t;
    }
    EventsAtText(s, |pre|, j, checking, rest, |s|);
  }

  /** Re-printing the events of any format that parses, and parsing that, changes nothing. */
  lemma {:induction false} Reprint(s: string, end: nat, checking: bool)
    requires end <= |s| && Events(s, 0, end, checking).Some?
    ensures var events := Events(s, 0, end, checking).value.0;
            var text := PrintEvents(events);
            Events(text, 0, |text|, checking) == Some((events, |text|))
  {
    var events := Events(s, 0, end, checking).value.0;
    EventsCanonical(s, 0, end, checking);
    if checking {
      CheckerRejects(s, 0, end);
    }
    assert "" + PrintEvents(events) == PrintEvents(events);
    PrintThenParse("", events, checking);
  }
}
