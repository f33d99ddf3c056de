/**
 The grammar of a replacement field, shared by every form of the format-string
 compiler: argument ids, standard format specifiers and automatic argument
 numbering (`src/3rdparty/fmt/format.h`, `src/3rdparty/fmt/core.h`).

 Positions are indices into the whole format string. Every error the library
 raises, at compile time or at run time, is `None`.
 */
module FormatSyntax {
  import opened Options

  const MAX_INT: int := 0x7FFF_FFFF

  predicate IsDigit(c: char) {
    '0' <= c <= '9'
  }

  predicate IsNameStart(c: char) {
    'a' <= c <= 'z' || 'A' <= c <= 'Z' || c == '_'
  }

  predicate IsBrace(c: char) {
    c == '{' || c == '}'
  }

  function DigitValue(c: char): (v: nat)
    requires IsDigit(c)
    ensures v <= 9
  {
    c as int - '0' as int
  }

  /** `parse_nonnegative_int`, having already read digits worth `acc`. */
  function ParseInt(s: string, i: nat, acc: nat): (r: Option<(nat, nat)>)
    requires i <= |s|
    ensures r.Some? ==> r.value.0 <= MAX_INT && i <= r.value.1 <= |s|
    ensures r.Some? ==> forall k :: i <= k < r.value.1 ==> IsDigit(s[k])
    ensures r.Some? && i < |s| && IsDigit(s[i]) ==> i < r.value.1
    decreases |s| - i
  {
    if acc > MAX_INT then None
    else if i < |s| && IsDigit(s[i]) then ParseInt(s, i + 1, 10 * acc + DigitValue(s[i]))
    else Some((acc, i))
  }

  /** An argument id as written: absent, a number, or a name. */
  datatype Ref = Auto | Index(n: nat) | Name(name: string)

  function NameEnd(s: string, i: nat): (j: nat)
    requires i <= |s|
    ensures i <= j <= |s|
    ensures forall k :: i <= k < j ==> IsNameStart(s[k]) || IsDigit(s[k])
    decreases |s| - i
  {
    if i < |s| && (IsNameStart(s[i]) || IsDigit(s[i])) then NameEnd(s, i + 1) else i
  }

  /** `parse_arg_id` (format.h:2585-2616): the id and the position after it. */
  function ParseArgId(s: string, i: nat): (r: Option<(Ref, nat)>)
    requires i < |s|
    ensures r.Some? ==> i <= r.value.1 <= |s|
    ensures r.Some? ==> forall k :: i <= k < r.value.1 ==> !IsBrace(s[k])
  {
    var c := s[i];
    if c == '}' || c == ':' then Some((Auto, i))
    else if IsDigit(c) then
      var n := if c == '0' then Some((0, i + 1)) else ParseInt(s, i, 0);
      if n.Some? && n.value.1 < |s| && (s[n.value.1] == '}' || s[n.value.1] == ':')
      then Some((Index(n.value.0), n.value.1)) else None
    else if IsNameStart(c) then
      var j := NameEnd(s, i + 1);
      Some((Name(s[i..j]), j))
    else None
  }

  datatype Align = NoAlign | Left | Right | Center | Numeric
  datatype Sign = NoSign | Minus | Plus | Space

  /** A width or precision as written: nothing or a number, or a nested `{}`. */
  datatype Measure = Value(v: int) | Dynamic(ref: Ref)

  /** Specifiers as parsed, before any argument index has been assigned. */
  datatype RawSpecs = RawSpecs(fill: string, align: Align, sign: Sign, alt: bool,
                               width: Measure, precision: Measure, kind: char)

  const DEFAULT_SPECS := RawSpecs(" ", NoAlign, NoSign, false, Value(0), Value(-1), '\0')

  /** `next_code_point`: the bytes of one UTF-8 sequence. */
  function NextCodePoint(s: string, i: nat): (j: nat)
    requires i < |s|
    ensures i < j <= |s|
    ensures forall k :: i < k < j ==> !IsBrace(s[k])
  {
    if (s[i] as int / 0x80) % 2 == 0 then i + 1 else SkipContinuation(s, i + 1)
  }

  function SkipContinuation(s: string, i: nat): (j: nat)
    requires i <= |s|
    ensures i <= j <= |s|
    ensures forall k :: i <= k < j ==> !IsBrace(s[k])
    decreases |s| - i
  {
    if i < |s| && (s[i] as int / 0x40) % 4 == 2 then SkipContinuation(s, i + 1) else i
  }

  function AlignOf(c: char): Align {
    if c == '<' then Left else if c == '>' then Right else if c == '^' then Center else NoAlign
  }

  // `fill_t::max_size` (format.h:1140-1150): a longer fill is an error.
  const MAX_FILL: nat := 4

  /** `parse_align` (format.h:2661-2703): an alignment, optionally after a fill. */
  function ParseAlign(s: string, i: nat, specs: RawSpecs): (r: Option<(RawSpecs, nat)>)
    requires i < |s| && s[i] != '}'
    ensures r.Some? ==> i <= r.value.1 <= |s|
    ensures r.Some? ==> forall k :: i <= k < r.value.1 ==> !IsBrace(s[k])
  {
    var next := NextCodePoint(s, i);
    var p := if next == |s| then i else next;
    if AlignOf(s[p]) != NoAlign then
      if p == i then Some((specs.(align := AlignOf(s[i])), i + 1))
      else if s[i] == '{' || p - i > MAX_FILL then None
      else Some((specs.(fill := s[i..p], align := AlignOf(s[p])), p + 1))
    else if AlignOf(s[i]) != NoAlign then Some((specs.(align := AlignOf(s[i])), i + 1))
    else Some((specs, i))
  }

  function ParseSign(s: string, i: nat, specs: RawSpecs): (r: (RawSpecs, nat))
    requires i < |s|
    ensures i <= r.1 <= |s|
    ensures forall k :: i <= k < r.1 ==> !IsBrace(s[k])
  {
    if s[i] == '+' then (specs.(sign := Plus), i + 1)
    else if s[i] == '-' then (specs.(sign := Minus), i + 1)
    else if s[i] == ' ' then (specs.(sign := Space), i + 1)
    else (specs, i)
  }

  function ParseHash(s: string, i: nat, specs: RawSpecs): (r: (RawSpecs, nat))
    requires i <= |s|
    ensures i <= r.1 <= |s|
    ensures forall k :: i <= k < r.1 ==> !IsBrace(s[k])
  {
    if i < |s| && s[i] == '#' then (specs.(alt := true), i + 1) else (specs, i)
  }

  function ParseZero(s: string, i: nat, specs: RawSpecs): (r: (RawSpecs, nat))
    requires i <= |s|
    ensures i <= r.1 <= |s|
    ensures forall k :: i <= k < r.1 ==> !IsBrace(s[k])
  {
    if i < |s| && s[i] == '0'
    then (specs.(align := Numeric, fill := "0" + if |specs.fill| > 0 then specs.fill[1..] else ""), i + 1)
    else (specs, i)
  }

  /** A nested `{id}` whose brace is at `i`. */
  function ParseNested(s: string, i: nat): (r: Option<(Ref, nat)>)
    requires i < |s| && s[i] == '{'
    ensures r.Some? ==> i + 1 < r.value.1 <= |s| && s[r.value.1 - 1] == '}'
    ensures r.Some? ==> forall k :: i < k < r.value.1 - 1 ==> !IsBrace(s[k])
  {
    if i + 1 == |s| then None
    else
      var id := ParseArgId(s, i + 1);
      if id.Some? && id.value.1 < |s| && s[id.value.1] == '}'
      then Some((id.value.0, id.value.1 + 1)) else None
  }

  /** `parse_width` (format.h:2705-2720); `None` inside when nothing is written. */
  function ParseWidth(s: string, i: nat, specs: RawSpecs): (r: Option<(RawSpecs, nat)>)
    requires i <= |s|
    ensures r.Some? ==> i <= r.value.1 <= |s|
  {
    if i == |s| then Some((specs, i))
    else if IsDigit(s[i]) then
      var n := ParseInt(s, i, 0);
      if n.None? then None else Some((specs.(width := Value(n.value.0)), n.value.1))
    else if s[i] == '{' then
      var id := ParseNested(s, i);
      if id.None? then None else Some((specs.(width := Dynamic(id.value.0)), id.value.1))
    else Some((specs, i))
  }

  /** `parse_precision` (format.h:2722-2742), the '.' being at `i` if there is one. */
  function ParsePrecision(s: string, i: nat, specs: RawSpecs): (r: Option<(RawSpecs, nat)>)
    requires i <= |s|
    ensures r.Some? ==> i <= r.value.1 <= |s|
  {
    if i == |s| || s[i] != '.' then Some((specs, i))
    else if i + 1 < |s| && IsDigit(s[i + 1]) then
      var n := ParseInt(s, i + 1, 0);
      if n.None? then None else Some((specs.(precision := Value(n.value.0)), n.value.1))
    else if i + 1 < |s| && s[i + 1] == '{' then
      var id := ParseNested(s, i + 1);
      if id.None? then None else Some((specs.(precision := Dynamic(id.value.0)), id.value.1))
    else None
  }

  function ParseKind(s: string, i: nat, specs: RawSpecs): (r: (RawSpecs, nat))
    requires i <= |s|
    ensures i <= r.1 <= |s|
  {
    if i < |s| && s[i] != '}' then (specs.(kind := s[i]), i + 1) else (specs, i)
  }

  /**
   `parse_format_specs` (format.h:2744-2793): everything after the ':'. It stops at
   the first character it has no use for, which need not be the closing brace.
   */
  function ParseSpecs(s: string, i: nat): (r: Option<(RawSpecs, nat)>)
    requires i <= |s|
    ensures r.Some? ==> i <= r.value.1 <= |s|
  {
    if i == |s| || s[i] == '}' then Some((DEFAULT_SPECS, i))
    else
      var a :- ParseAlign(s, i, DEFAULT_SPECS);
      if a.1 == |s| then Some(a)
      else
        var b := ParseSign(s, a.1, a.0);
        var c := ParseHash(s, b.1, b.0);
        var d := ParseZero(s, c.1, c.0);
        var e :- ParseWidth(s, d.1, d.0);
        var f :- ParsePrecision(s, e.1, e.0);
        Some(ParseKind(s, f.1, f.0))
  }

  /** A whole replacement field: what it names, its specifiers, where it ends. */
  datatype Field = Field(ref: Ref, specs: Option<RawSpecs>, end: nat)

  /** The field whose opening brace is at `i` (`parse_replacement_field`, format.h:2826-2851). */
  function ParseField(s: string, i: nat): (r: Option<Field>)
    requires i + 1 < |s| && s[i] == '{' && s[i + 1] != '{'
    ensures r.Some? ==> i + 1 < r.value.end <= |s|
  {
    var id :- ParseArgId(s, i + 1);
    if id.1 == |s| then None
    else if s[id.1] == '}' then Some(Field(id.0, None, id.1 + 1))
    else if s[id.1] == ':' then
      var specs :- ParseSpecs(s, id.1 + 1);
      if specs.1 < |s| && s[specs.1] == '}'
      then Some(Field(id.0, Some(specs.0), specs.1 + 1)) else None
    else None
  }

  /** An argument reference with automatic numbering done (`arg_ref`). */
  datatype ArgRef = ById(id: nat) | ByName(name: string)

  /**
   Automatic numbering (core.h:585-604). `next` is `next_arg_id_`: the next index, or
   negative once an explicit index has been used.
   */
  function Number(ref: Ref, next: int): (r: Option<(ArgRef, int)>)
  {
    match ref
    case Auto => if next >= 0 then Some((ById(next), next + 1)) else None
    case Index(n) => if next > 0 then None else Some((ById(n), -1))
    case Name(name) => Some((ByName(name), next))
  }

  /** A width or precision whose nested reference has been numbered. */
  datatype DynMeasure = Fixed(v: int) | FromArg(ref: ArgRef)

  /** `dynamic_format_specs`: specifiers as kept in a compiled format. */
  datatype DynSpecs = DynSpecs(fill: string, align: Align, sign: Sign, alt: bool,
                               width: DynMeasure, precision: DynMeasure, kind: char)

  function NumberMeasure(m: Measure, next: int): Option<(DynMeasure, int)> {
    match m
    case Value(v) => Some((Fixed(v), next))
    case Dynamic(ref) =>
      var n :- Number(ref, next);
      Some((FromArg(n.0), n.1))
  }

  /** `dynamic_specs_handler`: numbers the width before the precision. */
  function NumberSpecs(raw: RawSpecs, next: int): Option<(DynSpecs, int)> {
    var w :- NumberMeasure(raw.width, next);
    var p :- NumberMeasure(raw.precision, w.1);
    Some((DynSpecs(raw.fill, raw.align, raw.sign, raw.alt, w.0, p.0, raw.kind), p.1))
  }

  /** `parse_text` (compile.h:479-485): the first brace at or after `i`. */
  function TextEnd(s: string, i: nat): (j: nat)
    requires i <= |s|
    ensures i <= j <= |s|
    ensures forall k :: i <= k < j ==> !IsBrace(s[k])
    ensures j < |s| ==> IsBrace(s[j])
    decreases |s| - i
  {
    if i == |s| || IsBrace(s[i]) then i else TextEnd(s, i + 1)
  }
}
