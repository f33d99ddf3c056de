/**
 The two visitors of the flat form: `part_counter`, which sizes the array, and
 `format_string_compiler` with its collector, which fills it
 (`src/3rdparty/fmt/compile.h`).

 They find the end of a field's specifiers differently: the counter matches braces, the
 compiler parses. This file proves exactly when they agree.
 */
module FormatCount {
  import opened Options
  import opened FormatSyntax
  import opened FormatParts

  /** The brace that closes the field `i` is in, `level` braces deep; `|s|` if none does. */
  function BraceEnd(s: string, i: nat, level: nat): (j: nat)
    requires i <= |s|
    ensures i <= j <= |s|
    ensures j < |s| ==> s[j] == '}'
    decreases |s| - i
  {
    if i == |s| then i
    else if s[i] == '{' then BraceEnd(s, i + 1, level + 1)
    else if s[i] == '}' then if level == 0 then i else BraceEnd(s, i + 1, level - 1)
    else BraceEnd(s, i + 1, level)
  }

  /** The first '{' at or after `i`. */
  function OpenAt(s: string, i: nat): (j: nat)
    requires i <= |s|
    ensures i <= j <= |s|
    ensures j < |s| ==> s[j] == '{'
    ensures forall k :: i <= k < j ==> s[k] != '{'
    decreases |s| - i
  {
    if i == |s| || s[i] == '{' then i else OpenAt(s, i + 1)
  }

  /**
   `parse_nonnegative_int` with an `on_error` that does nothing (format.h:2231-2252): where
   it stops, having already read digits worth `acc`. It gives up before a digit that
   follows a number too large to be multiplied by ten.
   */
  function LaxIntEnd(s: string, i: nat, acc: nat): (j: nat)
    requires i <= |s|
    ensures i <= j <= |s|
    decreases |s| - i
  {
    if i == |s| || !IsDigit(s[i]) || acc > MAX_INT / 10 then i
    else LaxIntEnd(s, i + 1, 10 * acc + DigitValue(s[i]))
  }

  /** `parse_arg_id` with the same `on_error`: where it stops, if it got as far as counting an argument. */
  function LaxArgId(s: string, i: nat): (r: Option<nat>)
    requires i < |s|
    ensures r.Some? ==> i <= r.value <= |s|
  {
    var c := s[i];
    if c == '}' || c == ':' then Some(i)
    else if IsDigit(c) then
      var j := if c == '0' then i + 1 else LaxIntEnd(s, i, 0);
      if j < |s| && (s[j] == '}' || s[j] == ':') then Some(j) else None
    else if IsNameStart(c) then Some(NameEnd(s, i + 1))
    else None
  }

  lemma {:induction false} LaxIntAgrees(s: string, i: nat, acc: nat)
    requires i <= |s| && ParseInt(s, i, acc).Some?
    ensures LaxIntEnd(s, i, acc) == ParseInt(s, i, acc).value.1
    decreases |s| - i
  {
    if i < |s| && IsDigit(s[i]) {
      LaxIntAgrees(s, i + 1, 10 * acc + DigitValue(s[i]));
    }
  }

  /** Where the compiler reads an argument id, the counter reads the same. */
  lemma {:induction false} LaxArgIdAgrees(s: string, i: nat)
    requires i < |s| && ParseArgId(s, i).Some?
    ensures LaxArgId(s, i) == Some(ParseArgId(s, i).value.1)
  {
    if IsDigit(s[i]) && s[i] != '0' {
      LaxIntAgrees(s, i, 0);
    }
  }

  /** "{2147483648}" is counted, although its index is too large to compile. */
  lemma {:induction false} TooLargeIsCounted(s: string)
    requires s == "{2147483648}"
    ensures CountParts(s) == 1 && ParseField(s, 0) == None
  {
    assert LaxIntEnd(s, 11, 2147483648) == 11;
    assert LaxIntEnd(s, 10, 214748364) == 11;
    assert LaxIntEnd(s, 8, 2147483) == 11;
    assert LaxIntEnd(s, 6, 21474) == 11;
    assert LaxIntEnd(s, 4, 214) == 11;
    assert LaxIntEnd(s, 2, 2) == 11;
    assert LaxArgId(s, 1) == Some(11);
    assert ParseInt(s, 11, 2147483648) == None;
    assert ParseInt(s, 9, 21474836) == None;
    assert ParseInt(s, 7, 214748) == None;
    assert ParseInt(s, 5, 2147) == None;
    assert ParseInt(s, 3, 21) == None;
    assert ParseInt(s, 1, 0) == None;
    assert CountFrom(s, 12, false) == 0;
  }

  /**
   What the counter counts from `i` on. Its `on_error` does nothing, so an unmatched '}'
   ends the count in the loop for short strings, but in the loop for long ones (32
   characters and up) only skips to the next '{' (format.h:2858-2900).
   */
  function CountFrom(s: string, i: nat, long: bool): nat
    requires i <= |s|
    decreases |s| - i
  {
    if i == |s| then 0
    else if s[i] == '{' then
      if i + 1 == |s| then 0
      else if s[i + 1] == '{' then 1 + CountFrom(s, i + 2, long)
      else
        match LaxArgId(s, i + 1)
        case None => 0
        case Some(p) =>
          if p == |s| then 1
          else if s[p] == '}' then 1 + CountFrom(s, p + 1, long)
          else if s[p] == ':' then
            var e := BraceEnd(s, p + 1, 0);
            if e == |s| then 1 else 1 + CountFrom(s, e + 1, long)
          else 1
    else
      var j := TextEnd(s, i);
      if j == |s| || s[j] == '{' then 1 + CountFrom(s, j, long)
      else if j + 1 < |s| && s[j + 1] == '}' then 1 + CountFrom(s, j + 2, long)
      else if long then CountFrom(s, OpenAt(s, j + 1), long)
      else 0
  }

  function CountParts(s: string): nat {
    CountFrom(s, 0, |s| >= 32)
  }

  // ---- How far the brace matcher goes ----

  lemma {:induction false} BraceEndText(s: string, i: nat, j: nat, level: nat)
    requires i <= j <= |s|
    requires forall k :: i <= k < j ==> !IsBrace(s[k])
    ensures BraceEnd(s, i, level) == BraceEnd(s, j, level)
    decreases j - i
  {
    if i < j {
      BraceEndText(s, i + 1, j, level);
    }
  }

  /** A nested "{id}" leaves the level where it was. */
  lemma {:induction false} BraceEndNested(s: string, i: nat, level: nat)
    requires i < |s| && s[i] == '{' && ParseNested(s, i).Some?
    ensures BraceEnd(s, i, level) == BraceEnd(s, ParseNested(s, i).value.1, level)
  {
    var e := ParseNested(s, i).value.1;
    BraceEndText(s, i + 1, e - 1, level + 1);
  }

  lemma {:induction false} BraceEndWidth(s: string, i: nat, specs: RawSpecs, level: nat)
    requires i <= |s| && ParseWidth(s, i, specs).Some?
    ensures BraceEnd(s, i, level) == BraceEnd(s, ParseWidth(s, i, specs).value.1, level)
    ensures ParseWidth(s, i, specs).value.0.kind == specs.kind
  {
    if i < |s| && s[i] == '{' {
      BraceEndNested(s, i, level);
    } else {
      BraceEndText(s, i, ParseWidth(s, i, specs).value.1, level);
    }
  }

  lemma {:induction false} BraceEndPrecision(s: string, i: nat, specs: RawSpecs, level: nat)
    requires i <= |s| && ParsePrecision(s, i, specs).Some?
    ensures BraceEnd(s, i, level) == BraceEnd(s, ParsePrecision(s, i, specs).value.1, level)
    ensures ParsePrecision(s, i, specs).value.0.kind == specs.kind
  {
    if i + 1 < |s| && s[i] == '.' && s[i + 1] == '{' {
      BraceEndNested(s, i + 1, level);
    } else {
      BraceEndText(s, i, ParsePrecision(s, i, specs).value.1, level);
    }
  }

  /** Whether the presentation type is an opening brace: the one way a spec is unbalanced. */
  function Extra(raw: RawSpecs): (n: nat) {
    if raw.kind == '{' then 1 else 0
  }

  lemma {:induction false} BraceEndKind(s: string, i: nat, specs: RawSpecs, level: nat)
    requires i <= |s| && specs.kind != '{'
    ensures BraceEnd(s, i, level)
         == BraceEnd(s, ParseKind(s, i, specs).1, level + Extra(ParseKind(s, i, specs).0))
  {
  }

  lemma {:induction false} BraceEndFlags(s: string, i: nat, level: nat)
    requires i < |s| && s[i] != '}' && ParseAlign(s, i, DEFAULT_SPECS).Some?
    requires ParseAlign(s, i, DEFAULT_SPECS).value.1 < |s|
    ensures var a := ParseAlign(s, i, DEFAULT_SPECS).value;
            var b := ParseSign(s, a.1, a.0);
            var c := ParseHash(s, b.1, b.0);
            var d := ParseZero(s, c.1, c.0);
            d.0.kind != '{' && BraceEnd(s, i, level) == BraceEnd(s, d.1, level)
  {
    var a := ParseAlign(s, i, DEFAULT_SPECS).value;
    var b := ParseSign(s, a.1, a.0);
    var c := ParseHash(s, b.1, b.0);
    var d := ParseZero(s, c.1, c.0);
    BraceEndText(s, i, d.1, level);
  }

  /** The specifiers after alignment. */
  lemma {:induction false} BraceEndRest(s: string, i: nat, level: nat, a: (RawSpecs, nat))
    requires i < |s| && s[i] != '}' && ParseAlign(s, i, DEFAULT_SPECS) == Some(a) && a.1 < |s|
    requires ParseSpecs(s, i).Some?
    ensures BraceEnd(s, i, level)
         == BraceEnd(s, ParseSpecs(s, i).value.1, level + Extra(ParseSpecs(s, i).value.0))
  {
    hide ParseAlign, ParseSign, ParseHash, ParseZero, ParseWidth, ParsePrecision, ParseKind, BraceEnd, Extra;
    var b := ParseSign(s, a.1, a.0);
    var c := ParseHash(s, b.1, b.0);
    var d := ParseZero(s, c.1, c.0);
    var e := ParseWidth(s, d.1, d.0).value;
    var f := ParsePrecision(s, e.1, e.0).value;
    BraceEndFlags(s, i, level);
    BraceEndWidth(s, d.1, d.0, level);
    BraceEndPrecision(s, e.1, e.0, level);
    BraceEndKind(s, f.1, f.0, level);
  }

  lemma {:induction false} AlignAlone(s: string, i: nat, level: nat, a: (RawSpecs, nat))
    requires i < |s| && s[i] != '}' && ParseAlign(s, i, DEFAULT_SPECS) == Some(a)
    ensures Extra(a.0) == 0 && BraceEnd(s, i, level) == BraceEnd(s, a.1, level)
  {
    BraceEndText(s, i, a.1, level);
    hide BraceEnd;
  }

  /** Over parsed specifiers the brace matcher gains one level exactly for a type of '{'. */
  lemma {:induction false} BraceEndSpecs(s: string, i: nat, level: nat)
    requires i <= |s| && ParseSpecs(s, i).Some?
    ensures BraceEnd(s, i, level)
         == BraceEnd(s, ParseSpecs(s, i).value.1, level + Extra(ParseSpecs(s, i).value.0))
  {
    if i < |s| && s[i] != '}' {
      hide ParseAlign, ParseSign, ParseHash, ParseZero, ParseWidth, ParsePrecision, ParseKind, BraceEnd, Extra;
      var a := ParseAlign(s, i, DEFAULT_SPECS).value;
      if a.1 == |s| {
        AlignAlone(s, i, level, a);
      } else {
        BraceEndRest(s, i, level, a);
      }
    } else {
      hide BraceEnd;
    }
  }

  function FieldExtra(f: Field): (n: nat) {
    if f.specs.Some? then Extra(f.specs.value) else 0
  }

  lemma {:induction false} BraceEndField(s: string, i: nat, level: nat)
    requires i + 1 < |s| && s[i] == '{' && s[i + 1] != '{' && ParseField(s, i).Some?
    ensures var f := ParseField(s, i).value;
            BraceEnd(s, i, level) == BraceEnd(s, f.end, level + FieldExtra(f))
  {
    hide ParseSpecs, Extra;
    var id := ParseArgId(s, i + 1).value;
    BraceEndText(s, i + 1, id.1, level + 1);
    if s[id.1] == ':' {
      BraceEndSpecs(s, id.1 + 1, level + 1);
    }
  }

  /** What the counter counts if it has to match a brace from `i` first. */
  function CountAfter(s: string, i: nat, long: bool): nat
    requires i <= |s|
  {
    var e := BraceEnd(s, i, 0);
    if e == |s| then 0 else CountFrom(s, e + 1, long)
  }

  /** The counter at a field the compiler accepts. */
  lemma {:induction false} CountField(s: string, i: nat, long: bool)
    requires i + 1 < |s| && s[i] == '{' && s[i + 1] != '{' && ParseField(s, i).Some?
    ensures var f := ParseField(s, i).value;
            CountFrom(s, i, long)
            == 1 + if FieldExtra(f) == 0 then CountFrom(s, f.end, long) else CountAfter(s, f.end, long)
  {
    hide ParseSpecs, CountFrom, ParseArgId;
    var id := ParseArgId(s, i + 1).value;
    CountAtField(s, i, long, id.1);
    if s[id.1] == ':' {
      BraceEndSpecs(s, id.1 + 1, 0);
    }
  }

  lemma {:induction false} CountAtField(s: string, i: nat, long: bool, p: nat)
    requires i + 1 < |s| && s[i] == '{' && s[i + 1] != '{'
    requires ParseArgId(s, i + 1).Some? && ParseArgId(s, i + 1).value.1 == p < |s|
    ensures s[p] == '}' ==> CountFrom(s, i, long) == 1 + CountFrom(s, p + 1, long)
    ensures s[p] == ':' ==> CountFrom(s, i, long) == 1 + CountAfter(s, p + 1, long)
  {
    LaxArgIdAgrees(s, i + 1);
    hide ParseArgId, LaxArgId, BraceEnd;
  }

  /** No field but the last thing in the string has '{' as its presentation type. */
  predicate BraceTypeLast(s: string, i: nat)
    requires i <= |s|
    decreases |s| - i
  {
    if i == |s| then true
    else if s[i] == '{' && i + 1 < |s| then
      if s[i + 1] == '{' then BraceTypeLast(s, i + 2)
      else
        var f := ParseField(s, i);
        f.Some? ==> if FieldExtra(f.value) == 0 then BraceTypeLast(s, f.value.end) else f.value.end == |s|
    else BraceTypeLast(s, i + 1)
  }

  lemma {:induction false} BraceTypeLastText(s: string, i: nat, j: nat)
    requires i <= j <= |s|
    requires forall k :: i <= k < j ==> s[k] != '{'
    ensures BraceTypeLast(s, i) == BraceTypeLast(s, j)
    decreases j - i
  {
    if i < j {
      BraceTypeLastText(s, i + 1, j);
    }
  }

  /** Text read but not yet handed over counts once, when it is handed over. */
  lemma {:induction false} TextPending(s: string, begin: nat, p: nat)
    requires begin <= p <= |s|
    requires forall k :: begin <= k < p ==> !IsBrace(s[k])
    ensures TextEnd(s, begin) == TextEnd(s, p)
    decreases p - begin
  {
    if begin < p {
      TextPending(s, begin + 1, p);
    }
  }

  /** Text from `begin` up to a brace or to the end. */
  lemma {:induction false} CountRun(s: string, begin: nat, p: nat, long: bool)
    requires begin <= p <= |s|
    requires forall k :: begin <= k < p ==> !IsBrace(s[k])
    ensures p == |s| || s[p] == '{'
            ==> CountFrom(s, begin, long) == CountFrom(s, p, long) + if begin != p then 1 else 0
    ensures p < |s| && s[p] == '}'
            ==> (CountFrom(s, begin, long)
             == if p + 1 < |s| && s[p + 1] == '}' then 1 + CountFrom(s, p + 2, long)
                else if long then CountFrom(s, OpenAt(s, p + 1), long) else 0)
  {
    TextPending(s, begin, p);
    hide LaxArgId, BraceEnd, OpenAt;
  }

  /** `CountFrom` on a run of text, with or without a "}}" at its end. */
  lemma {:induction false} CountText(s: string, i: nat, next: int, long: bool)
    requires i < |s| && s[i] != '{' && CompileParts(s, i, next).Some?
    ensures var j := TextAfter(s, i);
            && CompileParts(s, j, next).Some?
            && |CompileParts(s, i, next).value| == 1 + |CompileParts(s, j, next).value|
            && CountFrom(s, i, long) == 1 + CountFrom(s, j, long)
            && BraceTypeLast(s, i) == BraceTypeLast(s, j)
  {
    BraceTypeLastText(s, i, TextAfter(s, i));
    RunParts(s, i, next);
    TextCount(s, i, long, TextAfter(s, i), next);
    hide CompileParts, CountFrom, BraceTypeLast, TextAfter;
  }

  lemma {:induction false} RunParts(s: string, i: nat, next: int)
    requires i < |s| && s[i] != '{' && CompileParts(s, i, next).Some?
    ensures var j := TextAfter(s, i);
            && CompileParts(s, j, next).Some?
            && |CompileParts(s, i, next).value| == 1 + |CompileParts(s, j, next).value|
  {
    hide CountFrom, BraceTypeLast, ParseField, CompileField;
  }

  lemma {:induction false} TextCount(s: string, i: nat, long: bool, j: nat, next: int)
    requires i < |s| && s[i] != '{' && CompileParts(s, i, next).Some? && j == TextAfter(s, i)
    ensures CountFrom(s, i, long) == 1 + CountFrom(s, j, long)
  {
    TextClosed(s, i, next);
    CountRun(s, i, TextEnd(s, i), long);
    TextMoves(s, i);
    hide CountFrom, CompileParts, TextAfter, TextEnd;
  }

  lemma {:induction false} TextMoves(s: string, i: nat)
    requires i < |s| && s[i] != '{'
    ensures TextEnd(s, i) == i ==> s[i] == '}'
  {
  }

  /** Where the part that starts with text at `i` ends. */
  function TextAfter(s: string, i: nat): (j: nat)
    requires i < |s| && s[i] != '{'
    ensures i < j <= |s|
    ensures TextEnd(s, i) <= j
    ensures forall k :: i <= k < j ==> s[k] != '{'
  {
    var j := TextEnd(s, i);
    if j + 1 < |s| && s[j] == '}' && s[j + 1] == '}' then j + 2 else if j == i then i + 1 else j
  }

  /**
   The two visitors agree exactly when the brace matcher is never led astray: on a string
   that compiles the counter never counts too many parts, and it counts them all if and
   only if no field with a '{' presentation type is followed by anything.
   */
  lemma {:induction false} CountExact(s: string, i: nat, next: int, long: bool)
    requires i <= |s| && CompileParts(s, i, next).Some?
    ensures CountFrom(s, i, long) <= |CompileParts(s, i, next).value|
    ensures CountFrom(s, i, long) == |CompileParts(s, i, next).value| <==> BraceTypeLast(s, i)
    decreases |s| - i, 2
  {
    if i == |s| {
    } else if s[i] != '{' {
      hide *;
      CountText(s, i, next, long);
      CountExact(s, TextAfter(s, i), next, long);
    } else if s[i + 1] == '{' {
      CountExact(s, i + 2, next, long);
    } else {
      CountExactField(s, i, next, long);
    }
  }

  /** A field is one part. */
  lemma {:induction false} FieldStep(s: string, i: nat, next: int)
    requires i + 1 < |s| && s[i] == '{' && s[i + 1] != '{' && CompileParts(s, i, next).Some?
    ensures ParseField(s, i).Some? && CompileField(ParseField(s, i).value, next).Some?
    ensures var f := ParseField(s, i).value;
            var rest := CompileParts(s, f.end, CompileField(f, next).value.1);
            rest.Some? && |CompileParts(s, i, next).value| == 1 + |rest.value|
  {
    hide ParseField, CompileField;
  }

  lemma {:induction false} NoPartsAtEnd(s: string, i: nat, next: int, long: bool)
    requires i <= |s| && CompileParts(s, i, next).Some?
    ensures |CompileParts(s, i, next).value| == 0 <==> i == |s|
    ensures CountFrom(s, |s|, long) == 0
  {
    hide ParseField, CompileField;
  }

  lemma {:induction false} CountExactField(s: string, i: nat, next: int, long: bool)
    requires i + 1 < |s| && s[i] == '{' && s[i + 1] != '{' && CompileParts(s, i, next).Some?
    ensures CountFrom(s, i, long) <= |CompileParts(s, i, next).value|
    ensures CountFrom(s, i, long) == |CompileParts(s, i, next).value| <==> BraceTypeLast(s, i)
    decreases |s| - i, 1
  {
    hide ParseField, CompileField, CountFrom, CompileParts;
    FieldStep(s, i, next);
    var f := ParseField(s, i).value;
    var n := CompileField(f, next).value.1;
    CountField(s, i, long);
    CountExact(s, f.end, n, long);
    CountAstray(s, f.end, n, 0, long);
    NoPartsAtEnd(s, f.end, n, long);
  }

  /** Once the matcher is too deep, wherever it comes out some part has been missed. */
  lemma {:induction false} CountAstray(s: string, i: nat, next: int, level: nat, long: bool)
    requires i <= |s| && CompileParts(s, i, next).Some?
    ensures var j := BraceEnd(s, i, level);
            j < |s| ==> CountFrom(s, j + 1, long) < |CompileParts(s, i, next).value|
    decreases |s| - i, 1
  {
    hide *;
    if i == |s| {
    } else if s[i] != '{' {
      CountAstrayText(s, i, next, level, long);
    } else if i + 1 < |s| && s[i + 1] == '{' {
      EscapeStep(s, i, next, level);
      CountAstray(s, i + 2, next, level + 2, long);
    } else {
      PartsNeedRoom(s, i, next);
      FieldStep(s, i, next);
      var f := ParseField(s, i).value;
      BraceEndField(s, i, level);
      CountAstray(s, f.end, CompileField(f, next).value.1, level + FieldExtra(f), long);
    }
  }

  /** A "{{" is one part and two levels. */
  lemma {:induction false} EscapeStep(s: string, i: nat, next: int, level: nat)
    requires i + 1 < |s| && s[i] == '{' && s[i + 1] == '{' && CompileParts(s, i, next).Some?
    ensures CompileParts(s, i + 2, next).Some?
    ensures |CompileParts(s, i, next).value| == 1 + |CompileParts(s, i + 2, next).value|
    ensures BraceEnd(s, i, level) == BraceEnd(s, i + 2, level + 2)
  {
    assert BraceEnd(s, i + 1, level + 1) == BraceEnd(s, i + 2, level + 2);
  }

  lemma {:induction false} PartsNeedRoom(s: string, i: nat, next: int)
    requires i <= |s| && CompileParts(s, i, next).Some?
    ensures i < |s| && s[i] == '{' ==> i + 1 < |s|
  {
  }

  lemma {:induction false} CountAstrayText(s: string, i: nat, next: int, level: nat, long: bool)
    requires i < |s| && s[i] != '{' && CompileParts(s, i, next).Some?
    ensures var j := BraceEnd(s, i, level);
            j < |s| ==> CountFrom(s, j + 1, long) < |CompileParts(s, i, next).value|
    decreases |s| - i, 0
  {
    hide *;
    CountText(s, i, next, long);
    var j := TextEnd(s, i);
    var k := TextAfter(s, i);
    BraceEndText(s, i, j, level);
    TextClosed(s, i, next);
    if k == j {
      CountAstray(s, j, next, level, long);
    } else {
      CloseStep(s, j, level);
      if level >= 2 {
        CountAstray(s, k, next, level - 2, long);
      } else if level == 1 {
        CountExact(s, k, next, long);
      } else {
        CountOutOfStep(s, j + 1, next, long);
      }
    }
  }

  lemma {:induction false} CloseStep(s: string, i: nat, level: nat)
    requires i + 1 < |s| && s[i] == '}' && s[i + 1] == '}'
    ensures BraceEnd(s, i, level)
         == if level == 0 then i else if level == 1 then i + 1 else BraceEnd(s, i + 2, level - 2)
  {
    assert level > 1 ==> BraceEnd(s, i + 1, level - 1) == BraceEnd(s, i + 2, level - 2);
  }

  /** Text that compiles stops before a '{' or after a whole "}}". */
  lemma {:induction false} TextClosed(s: string, i: nat, next: int)
    requires i < |s| && s[i] != '{' && CompileParts(s, i, next).Some?
    ensures var j := TextEnd(s, i);
            if j == |s| || s[j] == '{' then TextAfter(s, i) == j
            else TextAfter(s, i) == j + 2 && s[j] == '}' && s[j + 1] == '}'
  {
  }

  lemma {:induction false} CountAtClose(s: string, i: nat, long: bool)
    requires i < |s| && s[i] == '}'
    ensures CountFrom(s, i, long)
         == if i + 1 < |s| && s[i + 1] == '}' then 1 + CountFrom(s, i + 2, long)
            else if long then CountFrom(s, OpenAt(s, i + 1), long) else 0
  {
    hide LaxArgId, BraceEnd, OpenAt;
    assert TextEnd(s, i) == i;
  }

  lemma {:induction false} PartsAtClose(s: string, i: nat, next: int)
    requires i < |s| && s[i] == '}' && CompileParts(s, i, next).Some?
    ensures i + 1 < |s| && s[i + 1] == '}' && CompileParts(s, i + 2, next).Some?
    ensures |CompileParts(s, i, next).value| == 1 + |CompileParts(s, i + 2, next).value|
  {
    hide ParseField, CompileField;
    assert TextEnd(s, i) == i;
  }

  /** The counter resuming on the second half of a "}}". */
  lemma {:induction false} CountOutOfStep(s: string, i: nat, next: int, long: bool)
    requires i < |s| && s[i] == '}' && CompileParts(s, i + 1, next).Some?
    ensures CountFrom(s, i, long) <= |CompileParts(s, i + 1, next).value|
    decreases |s| - i - 1, 3
  {
    hide CountFrom, CompileParts, OpenAt;
    CountAtClose(s, i, long);
    if i + 1 < |s| && s[i + 1] == '}' {
      PartsAtClose(s, i + 1, next);
      CountOutOfStep(s, i + 2, next, long);
    } else if long {
      CountToOpen(s, i + 1, next);
      CountExact(s, OpenAt(s, i + 1), next, long);
    }
  }

  /** Skipping to the next '{' skips whole parts. */
  lemma {:induction false} CountToOpen(s: string, i: nat, next: int)
    requires i <= |s| && CompileParts(s, i, next).Some?
    ensures var o := CompileParts(s, OpenAt(s, i), next);
            o.Some? && |o.value| <= |CompileParts(s, i, next).value|
    decreases |s| - i
  {
    hide ParseField, CompileField;
    if i < |s| && s[i] != '{' {
      var j := TextEnd(s, i);
      var k := if j == |s| || s[j] == '{' then j else j + 2;
      CountToOpen(s, k, next);
      OpenAtText(s, i, k);
    }
  }

  lemma {:induction false} OpenAtText(s: string, i: nat, j: nat)
    requires i <= j <= |s|
    requires forall k :: i <= k < j ==> s[k] != '{'
    ensures OpenAt(s, i) == OpenAt(s, j)
    decreases j - i
  {
    if i < j {
      OpenAtText(s, i + 1, j);
    }
  }
}
