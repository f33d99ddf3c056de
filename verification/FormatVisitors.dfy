/**
 The visitors as the source runs them: objects updated while `parse_format_string`
 (format.h:2853-2901) walks the string, with one loop for short strings and another for
 long ones. Both loops are proved to compute the functions of `FormatCount` and
 `FormatParts`.
 */
module FormatVisitors {
  import opened Options
  import opened FormatSyntax
  import opened FormatParts
  import opened FormatCount

  /** `part_counter` (compile.h:84-115). */
  class PartCounter {
    var numParts: nat

    constructor ()
      ensures numParts == 0
    {
      numParts := 0;
    }

    method OnText(begin: nat, end: nat)
      modifies this
      ensures numParts == old(numParts) + if begin != end then 1 else 0
    {
      if begin != end {
        numParts := numParts + 1;
      }
    }

    method OnArgId()
      modifies this
      ensures numParts == old(numParts) + 1
    {
      numParts := numParts + 1;
    }

    /** Finds the matching brace. */
    method OnFormatSpecs(s: string, start: nat) returns (begin: nat)
      requires start <= |s|
      ensures begin == BraceEnd(s, start, 0)
    {
      var braceCounter: nat := 0;
      begin := start;
      while begin != |s|
        invariant start <= begin <= |s|
        invariant BraceEnd(s, start, 0) == BraceEnd(s, begin, braceCounter)
      {
        if s[begin] == '{' {
          braceCounter := braceCounter + 1;
        } else if s[begin] == '}' {
          if braceCounter == 0 {
            break;
          }
          braceCounter := braceCounter - 1;
        }
        begin := begin + 1;
      }
    }

    /** `parse_replacement_field` with this handler; an error ends the string. */
    method ParseReplacementField(s: string, i: nat, long: bool) returns (next: nat)
      requires i < |s| && s[i] == '{'
      modifies this
      ensures i < next <= |s|
      ensures numParts + CountFrom(s, next, long) == old(numParts) + CountFrom(s, i, long)
    {
      hide LaxArgId;
      if i + 1 == |s| {
        return |s|;
      }
      if s[i + 1] == '{' {
        OnText(i + 1, i + 2);
        return i + 2;
      }
      var id := LaxArgId(s, i + 1);
      if id.None? {
        return |s|;
      }
      OnArgId();
      var begin := id.value;
      if begin == |s| || (s[begin] != '}' && s[begin] != ':') {
        return |s|;
      }
      if s[begin] == ':' {
        begin := OnFormatSpecs(s, begin + 1);
        if begin == |s| {
          return |s|;
        }
      }
      return begin + 1;
    }

    /** The loop for strings under 32 characters (format.h:2858-2875). */
    method ParseShort(s: string)
      modifies this
      ensures numParts == old(numParts) + CountFrom(s, 0, false)
    {
      NothingLeft(s, false);
      hide CountFrom;
      var begin, p := 0, 0;
      while p != |s|
        invariant begin <= p <= |s|
        invariant forall k :: begin <= k < p ==> !IsBrace(s[k])
        invariant numParts + CountFrom(s, begin, false) == old(numParts) + CountFrom(s, 0, false)
      {
        CountRun(s, begin, p, false);
        var c := s[p];
        p := p + 1;
        if c == '{' {
          OnText(begin, p - 1);
          p := ParseReplacementField(s, p - 1, false);
          begin := p;
        } else if c == '}' {
          if p == |s| || s[p] != '}' {
            return;
          }
          OnText(begin, p);
          p := p + 1;
          begin := p;
        }
      }
      CountRun(s, begin, p, false);
      OnText(begin, |s|);
    }

    /** `write` inside `parse_format_string`: text up to the next field (format.h:2876-2891). */
    method Write(s: string, start: nat, pend: nat)
      requires start <= pend <= |s|
      requires forall k :: start <= k < pend ==> s[k] != '{'
      requires pend == |s| || s[pend] == '{'
      modifies this
      ensures numParts + CountFrom(s, pend, true) == old(numParts) + CountFrom(s, start, true)
    {
      hide CountFrom, OpenAt;
      var pbegin := start;
      while true
        invariant start <= pbegin <= pend
        invariant numParts + CountFrom(s, pbegin, true) == old(numParts) + CountFrom(s, start, true)
        decreases pend - pbegin
      {
        var p := FindIn(s, pbegin, pend, '}');
        CountRun(s, pbegin, p, true);
        if p == pend {
          OnText(pbegin, pend);
          return;
        }
        p := p + 1;
        if p == pend || s[p] != '}' {
          OpenAtText(s, p, pend);
          return;
        }
        OnText(pbegin, p);
        pbegin := p + 1;
      }
    }

    /** The loop for long strings (format.h:2892-2900). */
    method ParseLong(s: string)
      modifies this
      ensures numParts == old(numParts) + CountFrom(s, 0, true)
    {
      NothingLeft(s, true);
      hide CountFrom;
      var begin := 0;
      while begin != |s|
        invariant begin <= |s|
        invariant numParts + CountFrom(s, begin, true) == old(numParts) + CountFrom(s, 0, true)
        decreases |s| - begin
      {
        var p := begin;
        if s[begin] != '{' {
          p := FindIn(s, begin + 1, |s|, '{');
          if p == |s| {
            Write(s, begin, |s|);
            return;
          }
        }
        Write(s, begin, p);
        begin := ParseReplacementField(s, p, true);
      }
    }
  }

  /** `find`: the first `c` in `[first, last)`, or `last`. */
  method FindIn(s: string, first: nat, last: nat, c: char) returns (out: nat)
    requires first <= last <= |s|
    ensures first <= out <= last
    ensures forall k :: first <= k < out ==> s[k] != c
    ensures out < last ==> s[out] == c
  {
    out := first;
    while out != last
      invariant first <= out <= last
      invariant forall k :: first <= k < out ==> s[k] != c
    {
      if s[out] == c {
        return;
      }
      out := out + 1;
    }
  }

  lemma {:induction false} NothingLeft(s: string, long: bool)
    ensures CountFrom(s, |s|, long) == 0
  {
  }

  /** `count_parts` (compile.h:117-123). */
  method CountFormatParts(s: string) returns (n: nat)
    ensures n == CountParts(s)
  {
    var counter := new PartCounter();
    if |s| < 32 {
      counter.ParseShort(s);
    } else {
      counter.ParseLong(s);
    }
    return counter.numParts;
  }

  /**
   `format_string_compiler` (compile.h:125-183) with the collector of `compile_to_parts`
   (compile.h:301-308): `part` is `part_`, `nextArgId` belongs to `parse_context_`, and
   `parts[..counter]` is what has been collected. Every method that can throw says so; a
   write past the end of the array, which does not compile either, counts as a throw.
   */
  class FormatStringCompiler {
    const parts: array<Part>
    var counter: nat
    var part: Part
    var nextArgId: int

    ghost predicate Valid()
      reads this
    {
      counter <= parts.Length
    }

    ghost function Collected(): seq<Part>
      reads this, parts
      requires Valid()
    {
      parts[..counter]
    }

    constructor (parts: array<Part>)
      ensures Valid() && this.parts == parts && counter == 0 && nextArgId == 0
    {
      this.parts := parts;
      counter := 0;
      part := ArgPart(ById(0));
      nextArgId := 0;
    }

    method Collect(p: Part) returns (ok: bool)
      requires Valid()
      modifies this`counter, parts
      ensures Valid()
      ensures ok <==> old(counter) < parts.Length
      ensures Collected() == old(Collected()) + if ok then [p] else []
    {
      ok := counter < parts.Length;
      if ok {
        parts[counter] := p;
        counter := counter + 1;
      }
    }

    method OnText(s: string, begin: nat, end: nat) returns (ok: bool)
      requires Valid() && begin <= end <= |s|
      modifies this`counter, parts
      ensures Valid()
      ensures ok <==> begin == end || old(counter) < parts.Length
      ensures ok ==> Collected() == old(Collected()) + if begin == end then [] else [TextPart(s[begin..end])]
    {
      ok := true;
      if begin != end {
        ok := Collect(TextPart(s[begin..end]));
      }
    }

    /** `on_arg_id`, all three overloads: remembers the part, does not hand it over. */
    method OnArgId(ref: Ref) returns (ok: bool)
      modifies this`part, this`nextArgId
      ensures ok <==> Number(ref, old(nextArgId)).Some?
      ensures ok ==> part.ArgPart? && Number(ref, old(nextArgId)) == Some((part.ref, nextArgId))
    {
      match ref {
        case Auto =>
          if nextArgId < 0 {
            return false;
          }
          part := ArgPart(ById(nextArgId));
          nextArgId := nextArgId + 1;
        case Index(n) =>
          if nextArgId > 0 {
            return false;
          }
          nextArgId := -1;
          part := ArgPart(ById(n));
        case Name(name) =>
          part := ArgPart(ByName(name));
      }
      return true;
    }

    method OnReplacementField() returns (ok: bool)
      requires Valid()
      modifies this`counter, parts
      ensures Valid()
      ensures ok <==> old(counter) < parts.Length
      ensures ok ==> Collected() == old(Collected()) + [part]
    {
      ok := Collect(part);
    }

    /** Parses the specifiers, which end where the next '}' had better be. */
    method OnFormatSpecs(s: string, begin: nat) returns (ok: bool, it: nat)
      requires Valid() && begin <= |s| && part.ArgPart?
      modifies this`counter, this`nextArgId, parts
      ensures Valid()
      ensures ok ==> begin <= it < |s| && s[it] == '}'
      ensures ok ==> ParseSpecs(s, begin).Some? && it == ParseSpecs(s, begin).value.1
      ensures ok ==> var n := NumberSpecs(ParseSpecs(s, begin).value.0, old(nextArgId));
                     && n.Some? && nextArgId == n.value.1
                     && Collected() == old(Collected()) + [Replacement(part.ref, n.value.0)]
      ensures !ok ==> || ParseSpecs(s, begin).None?
                      || ParseSpecs(s, begin).value.1 == |s|
                      || s[ParseSpecs(s, begin).value.1] != '}'
                      || NumberSpecs(ParseSpecs(s, begin).value.0, old(nextArgId)).None?
                      || old(counter) == parts.Length
    {
      hide ParseSpecs, NumberSpecs;
      it := begin;
      var raw := ParseSpecs(s, begin);
      if raw.None? {
        return false, begin;
      }
      var specs := NumberSpecs(raw.value.0, nextArgId);
      if specs.None? {
        return false, begin;
      }
      nextArgId := specs.value.1;
      it := raw.value.1;
      if it == |s| || s[it] != '}' {
        return false, it;
      }
      ok := Collect(Replacement(part.ref, specs.value.0));
    }

    /**
     `parse_replacement_field` with this handler. The parts still to come, put after the
     parts collected, stay the parts of the whole string.
     */
    method ParseReplacementField(s: string, i: nat) returns (ok: bool, next: nat)
      requires Valid() && i < |s| && s[i] == '{'
      modifies this`counter, this`part, this`nextArgId, parts
      ensures Valid()
      ensures ok ==> i < next <= |s|
      ensures ok ==> (Joined(old(Collected()), CompileParts(s, i, old(nextArgId)))
                      == Joined(Collected(), CompileParts(s, next, nextArgId)))
      ensures !ok ==> var all := Joined(old(Collected()), CompileParts(s, i, old(nextArgId)));
                      all.None? || |all.value| > parts.Length
    {
      if i + 1 == |s| {
        return false, |s|;
      }
      if s[i + 1] == '{' {
        next := i + 2;
        assert s[i + 1..i + 2] == "{";
        JoinedCons(Collected(), TextPart("{"), CompileParts(s, i + 2, nextArgId));
        ok := OnText(s, i + 1, i + 2);
      } else {
        ok, next := ParseArgument(s, i);
      }
    }

    /** The rest of `parse_replacement_field`: a field that names an argument. */
    method ParseArgument(s: string, i: nat) returns (ok: bool, next: nat)
      requires Valid() && i + 1 < |s| && s[i] == '{' && s[i + 1] != '{'
      modifies this`counter, this`part, this`nextArgId, parts
      ensures Valid()
      ensures ok ==> i < next <= |s|
      ensures ok ==> (Joined(old(Collected()), CompileParts(s, i, old(nextArgId)))
                      == Joined(Collected(), CompileParts(s, next, nextArgId)))
      ensures !ok ==> var all := Joined(old(Collected()), CompileParts(s, i, old(nextArgId)));
                      all.None? || |all.value| > parts.Length
    {
      hide ParseSpecs, NumberSpecs, CompileParts, ParseArgId;
      ghost var before, start := Collected(), nextArgId;
      ghost var all := CompileParts(s, i, start);
      FieldParts(s, i, start);
      var id := ParseArgId(s, i + 1);
      if id.None? || id.value.1 == |s| {
        return false, |s|;
      }
      ok := OnArgId(id.value.0);
      if !ok {
        return false, |s|;
      }
      var begin := id.value.1;
      if s[begin] == '}' {
        next := begin + 1;
        assert all == Cons(part, CompileParts(s, next, nextArgId));
        JoinedCons(before, part, CompileParts(s, next, nextArgId));
        ok := OnReplacementField();
      } else if s[begin] == ':' {
        ghost var arg := part;
        ok, next := OnFormatSpecs(s, begin + 1);
        next := next + 1;
        if ok {
          ghost var p := Collected()[|before|];
          assert all == Cons(p, CompileParts(s, next, nextArgId));
          JoinedCons(before, p, CompileParts(s, next, nextArgId));
        } else if all.Some? {
          FieldIsAPart(s, i, start);
        }
      } else {
        return false, |s|;
      }
    }

    /** Hands over pending text, if any: `begin` up to a '{', to the end or through a '}'. */
    method FlushText(s: string, begin: nat, p: nat, next: nat) returns (ok: bool)
      requires Valid() && begin <= p <= next <= |s|
      requires forall k :: begin <= k < p ==> !IsBrace(s[k])
      requires p == next ==> p == |s| || s[p] == '{'
      requires p < next ==> next == p + 2 && s[p] == '}' && s[p + 1] == '}'
      modifies this`counter, parts
      ensures Valid()
      ensures ok ==> (Joined(old(Collected()), CompileParts(s, begin, nextArgId))
                      == Joined(Collected(), CompileParts(s, next, nextArgId)))
      ensures !ok ==> var all := Joined(old(Collected()), CompileParts(s, begin, nextArgId));
                      all.None? || |all.value| > parts.Length
    {
      hide CompileParts;
      var end := if p == next then p else p + 1;
      assert Collected() + [] == Collected();
      if begin < end {
        TextParts(s, begin, p, end, nextArgId);
        JoinedCons(Collected(), TextPart(s[begin..end]), CompileParts(s, next, nextArgId));
      }
      ok := OnText(s, begin, end);
    }

    /** The loop for strings under 32 characters. */
    method ParseShort(s: string) returns (ok: bool)
      requires Valid() && counter == 0 && nextArgId == 0
      modifies this`counter, this`part, this`nextArgId, parts
      ensures Valid()
      ensures ok ==> CompileParts(s, 0, 0) == Some(Collected())
      ensures !ok ==> CompileParts(s, 0, 0).None? || |CompileParts(s, 0, 0).value| > parts.Length
    {
      hide CompileParts;
      var begin, p := 0, 0;
      ghost var all := CompileParts(s, 0, 0);
      JoinedNil(all);
      while p != |s|
        invariant Valid() && 0 <= begin <= p <= |s|
        invariant forall k :: begin <= k < p ==> !IsBrace(s[k])
        invariant all == Joined(Collected(), CompileParts(s, begin, nextArgId))
        decreases |s| - p
      {
        var c := s[p];
        p := p + 1;
        if c == '{' {
          ok := FlushText(s, begin, p - 1, p - 1);
          if !ok {
            return;
          }
          ok, p := ParseReplacementField(s, p - 1);
          if !ok {
            return;
          }
          begin := p;
        } else if c == '}' {
          if p == |s| || s[p] != '}' {
            Unmatched(s, begin, p - 1, nextArgId);
            return false;
          }
          ok := FlushText(s, begin, p - 1, p + 1);
          if !ok {
            return;
          }
          p := p + 1;
          begin := p;
        }
      }
      ok := FlushText(s, begin, |s|, |s|);
      JoinedEnd(s, Collected(), nextArgId);
    }

    /** `write` inside `parse_format_string`; here an error does end the parse. */
    method Write(s: string, start: nat, pend: nat) returns (ok: bool)
      requires Valid() && start <= pend <= |s|
      requires forall k :: start <= k < pend ==> s[k] != '{'
      requires pend == |s| || s[pend] == '{'
      modifies this`counter, parts
      ensures Valid()
      ensures ok ==> (Joined(old(Collected()), CompileParts(s, start, nextArgId))
                      == Joined(Collected(), CompileParts(s, pend, nextArgId)))
      ensures !ok ==> var all := Joined(old(Collected()), CompileParts(s, start, nextArgId));
                      all.None? || |all.value| > parts.Length
    {
      hide CompileParts;
      var pbegin := start;
      ghost var all := Joined(Collected(), CompileParts(s, start, nextArgId));
      while true
        invariant Valid() && start <= pbegin <= pend
        invariant all == Joined(Collected(), CompileParts(s, pbegin, nextArgId))
        decreases pend - pbegin
      {
        var p := FindIn(s, pbegin, pend, '}');
        if p == pend {
          ok := FlushText(s, pbegin, pend, pend);
          return;
        }
        p := p + 1;
        if p == pend || s[p] != '}' {
          Unmatched(s, pbegin, p - 1, nextArgId);
          return false;
        }
        ok := FlushText(s, pbegin, p - 1, p + 1);
        if !ok {
          return;
        }
        pbegin := p + 1;
      }
    }

    /** The loop for long strings. */
    method ParseLong(s: string) returns (ok: bool)
      requires Valid() && counter == 0 && nextArgId == 0
      modifies this`counter, this`part, this`nextArgId, parts
      ensures Valid()
      ensures ok ==> CompileParts(s, 0, 0) == Some(Collected())
      ensures !ok ==> CompileParts(s, 0, 0).None? || |CompileParts(s, 0, 0).value| > parts.Length
    {
      hide CompileParts;
      var begin := 0;
      ghost var all := CompileParts(s, 0, 0);
      JoinedNil(all);
      while begin != |s|
        invariant Valid() && begin <= |s|
        invariant all == Joined(Collected(), CompileParts(s, begin, nextArgId))
        decreases |s| - begin
      {
        var p := begin;
        if s[begin] != '{' {
          p := FindIn(s, begin + 1, |s|, '{');
        }
        ok := Write(s, begin, p);
        if !ok {
          return;
        }
        if p == |s| {
          JoinedEnd(s, Collected(), nextArgId);
          return;
        }
        ok, begin := ParseReplacementField(s, p);
        if !ok {
          return;
        }
      }
      JoinedEnd(s, Collected(), nextArgId);
      return true;
    }
  }

  function Joined(done: seq<Part>, rest: Option<seq<Part>>): Option<seq<Part>> {
    var ps :- rest;
    Some(done + ps)
  }

  lemma {:induction false} JoinedCons(done: seq<Part>, p: Part, rest: Option<seq<Part>>)
    ensures Joined(done, Cons(p, rest)) == Joined(done + [p], rest)
    ensures Cons(p, rest).Some? ==> |Joined(done, Cons(p, rest)).value| > |done|
  {
    if rest.Some? {
      assert done + ([p] + rest.value) == done + [p] + rest.value;
    }
  }

  lemma {:induction false} FieldIsAPart(s: string, i: nat, next: int)
    requires i + 1 < |s| && s[i] == '{' && s[i + 1] != '{' && CompileParts(s, i, next).Some?
    ensures |CompileParts(s, i, next).value| > 0
  {
    hide ParseField, CompileField;
  }

  lemma {:induction false} JoinedNil(rest: Option<seq<Part>>)
    ensures Joined([], rest) == rest
  {
    if rest.Some? {
      assert [] + rest.value == rest.value;
    }
  }

  lemma {:induction false} JoinedEnd(s: string, done: seq<Part>, next: int)
    ensures Joined(done, CompileParts(s, |s|, next)) == Some(done)
  {
    assert done + [] == done;
  }

  /** A '}' that is not doubled does not compile. */
  lemma {:induction false} Unmatched(s: string, begin: nat, p: nat, next: int)
    requires begin <= p < |s| && s[p] == '}' && (p + 1 == |s| || s[p + 1] != '}')
    requires forall k :: begin <= k < p ==> !IsBrace(s[k])
    ensures CompileParts(s, begin, next) == None
  {
    hide ParseField;
    TextPending(s, begin, p);
  }

  /** Text, with the first half of a "}}" if one ends it, is one part. */
  lemma {:induction false} TextParts(s: string, begin: nat, p: nat, end: nat, next: int)
    requires begin <= p <= end && begin < end <= |s|
    requires forall k :: begin <= k < p ==> !IsBrace(s[k])
    requires p == end ==> p == |s| || s[p] == '{'
    requires p < end ==> end == p + 1 < |s| && s[p] == '}' && s[p + 1] == '}'
    ensures CompileParts(s, begin, next)
         == Cons(TextPart(s[begin..end]), CompileParts(s, if p == end then p else p + 2, next))
  {
    hide ParseField;
    TextPending(s, begin, p);
  }

  /** `compile_to_parts` (compile.h:296-315). */
  method CompileToParts(s: string, n: nat) returns (ok: bool, data: array<Part>)
    ensures ok <==> CompileParts(s, 0, 0).Some? && |CompileParts(s, 0, 0).value| <= n
    ensures data.Length == n
    ensures ok ==> data[..|CompileParts(s, 0, 0).value|] == CompileParts(s, 0, 0).value
    ensures ok && |CompileParts(s, 0, 0).value| < n ==> data[|CompileParts(s, 0, 0).value|] == TextPart("")
  {
    data := new Part[n](_ => ArgPart(ById(0)));
    var compiler := new FormatStringCompiler(data);
    if |s| < 32 {
      ok := compiler.ParseShort(s);
    } else {
      ok := compiler.ParseLong(s);
    }
    if ok && compiler.counter < n {
      data[compiler.counter] := TextPart("");
    }
  }
}
