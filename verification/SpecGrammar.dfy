/**
 The specifiers of a replacement field as someone would write them: the text of any
 specifiers reads back to their values, and whatever the parser accepts is such a text.
 */
module SpecGrammar {
  import opened Decimals
  import opened FormatSyntax
  import opened Options

  /** A width or precision: left out, a number with any leading zeros, or a reference in braces. */
  datatype Amount = Absent | Number(digits: string) | Nested(ref: Ref)

  /** An empty fill is one left out. */
  datatype Written = Written(
    fill: string,
    align: Align,
    sign: Sign,
    alt: bool,
    zero: bool,
    width: Amount,
    precision: Amount,
    kind: Option<char>)

  // ---- The text ----

  function RefText(ref: Ref): string {
    match ref
    case Auto => ""
    case Index(n) => Decimal(n)
    case Name(name) => name
  }

  function AmountText(a: Amount): string {
    match a
    case Absent => ""
    case Number(digits) => digits
    case Nested(ref) => "{" + RefText(ref) + "}"
  }

  function AlignText(w: Written): string {
    w.fill + (match w.align
              case NoAlign => ""
              case Left => "<"
              case Right => ">"
              case Center => "^"
              case Numeric => "")
  }

  function SignText(sign: Sign): string {
    match sign
    case NoSign => ""
    case Minus => "-"
    case Plus => "+"
    case Space => " "
  }

  function HashText(alt: bool): string {
    if alt then "#" else ""
  }

  function ZeroText(zero: bool): string {
    if zero then "0" else ""
  }

  function PointText(precision: Amount): string {
    if precision.Absent? then "" else "." + AmountText(precision)
  }

  function KindText(kind: Option<char>): string {
    if kind.Some? then [kind.value] else ""
  }

  /** The parts from each place on. */
  function FromPoint(w: Written): string {
    PointText(w.precision) + KindText(w.kind)
  }

  function FromWidth(w: Written): string {
    AmountText(w.width) + FromPoint(w)
  }

  function FromZero(w: Written): string {
    ZeroText(w.zero) + FromWidth(w)
  }

  function FromHash(w: Written): string {
    HashText(w.alt) + FromZero(w)
  }

  function FromSign(w: Written): string {
    SignText(w.sign) + FromHash(w)
  }

  /** Fill and alignment, sign, '#', '0', width, precision and type, in this order. */
  function SpecText(w: Written): string {
    AlignText(w) + FromSign(w)
  }

  // ---- The values ----

  predicate IsName(name: string) {
    name != "" && IsNameStart(name[0]) && forall c <- name :: IsNameStart(c) || IsDigit(c)
  }

  predicate IsRef(ref: Ref) {
    match ref
    case Auto => true
    case Index(n) => n <= MAX_INT
    case Name(name) => IsName(name)
  }

  predicate IsNumber(digits: string) {
    digits != "" && (forall c <- digits :: IsDigit(c)) && ValueOf(digits, 0) <= MAX_INT
  }

  predicate IsAmount(a: Amount) {
    match a
    case Absent => true
    case Number(digits) => IsNumber(digits)
    case Nested(ref) => IsRef(ref)
  }

  /** Bytes of one UTF-8 sequence, as far as the parser looks. */
  predicate IsCodePoint(s: string) {
    && s != "" && (s[0] as int / 0x80 % 2 == 0 ==> |s| == 1)
    && forall k :: 1 <= k < |s| ==> s[k] as int / 0x40 % 4 == 2
  }

  predicate WellFormed(w: Written) {
    && !w.align.Numeric? && (w.align.NoAlign? ==> w.fill == "")
    && (w.fill != "" ==> IsCodePoint(w.fill) && |w.fill| <= 4 && !IsBrace(w.fill[0]))
    && IsAmount(w.width) && IsAmount(w.precision)
    && (w.kind.Some? ==> w.kind.value != '}')
  }

  function AmountValue(a: Amount, default: int): Measure
    requires IsAmount(a)
  {
    match a
    case Absent => Value(default)
    case Number(digits) => Value(ValueOf(digits, 0))
    case Nested(ref) => Dynamic(ref)
  }

  /** What the text says; a '0' flag replaces the alignment and the first byte of the fill. */
  function SpecMeaning(w: Written): RawSpecs
    requires WellFormed(w)
  {
    var fill := if w.fill == "" then " " else w.fill;
    RawSpecs(if w.zero then "0" + fill[1..] else fill,
             if w.zero then Numeric else w.align,
             w.sign, w.alt,
             AmountValue(w.width, 0),
             AmountValue(w.precision, -1),
             if w.kind.Some? then w.kind.value else '\0')
  }

  predicate IsAlign(c: char) {
    c == '<' || c == '>' || c == '^'
  }

  /** A character no other part of the specifiers can start with. */
  predicate IsType(c: char) {
    !(IsDigit(c) || IsBrace(c) || c == '+' || c == '-' || c == ' ' || c == '#' || c == '.' || IsAlign(c))
  }

  /** The type is not one of the grammar's own characters, and a leading zero comes with the flag. */
  predicate Unambiguous(w: Written) {
    && (w.kind.Some? ==> IsType(w.kind.value))
    && (w.width.Number? && w.width.digits != "" && w.width.digits[0] == '0' ==> w.zero)
  }

  // ---- References ----

  lemma {:induction false} NameEndIs(s: string, i: nat, j: nat)
    requires i <= j <= |s| && (forall k :: i <= k < j ==> IsNameStart(s[k]) || IsDigit(s[k]))
    requires j < |s| ==> !IsNameStart(s[j]) && !IsDigit(s[j])
    ensures NameEnd(s, i) == j
    decreases j - i
  {
    if i < j {
      NameEndIs(s, i + 1, j);
    }
  }

  /** A reference reads back, before a brace or a colon. */
  lemma {:induction false} RefRead(s: string, i: nat, ref: Ref)
    requires IsRef(ref) && At(s, i, RefText(ref)) && i + |RefText(ref)| < |s|
    requires var c := s[i + |RefText(ref)|]; c == '}' || c == ':'
    ensures ParseArgId(s, i) == Some((ref, i + |RefText(ref)|))
  {
    var j := i + |RefText(ref)|;
    match ref
    case Auto =>
    case Index(n) =>
      CharOf(s, i, Decimal(n), 0);
      DecimalRead(s, i, n);
      if n == 0 {
        assert Decimal(0) == [Digit(0)];
      }
    case Name(name) => NameRead(s, i, name);
  }

  lemma {:induction false} NameRead(s: string, i: nat, name: string)
    requires IsName(name) && At(s, i, name) && i + |name| < |s|
    requires var c := s[i + |name|]; c == '}' || c == ':'
    ensures ParseArgId(s, i) == Some((Name(name), i + |name|))
  {
    var j := i + |name|;
    assert s[i..j] == name;
    forall k | i <= k < j
      ensures s[k] == name[k - i] && (IsNameStart(s[k]) || IsDigit(s[k]))
    {
      CharOf(s, i, name, k - i);
    }
    assert s[i] == name[0];
    NameEndIs(s, i + 1, j);
    hide NameEnd, At;
  }

  lemma {:induction false} NestedRead(s: string, i: nat, ref: Ref)
    requires IsRef(ref) && At(s, i, "{" + RefText(ref) + "}")
    ensures s[i] == '{' && ParseNested(s, i) == Some((ref, i + |RefText(ref)| + 2))
  {
    hide RefText, ParseArgId, IsRef;
    AtConcat(s, i, "{" + RefText(ref), "}");
    AtConcat(s, i, "{", RefText(ref));
    CharOf(s, i, "{", 0);
    CharOf(s, i + 1 + |RefText(ref)|, "}", 0);
    assert |"{" + RefText(ref)| == 1 + |RefText(ref)|;
    RefRead(s, i + 1, ref);
  }

  /** Digits read back, before anything else. */
  lemma {:induction false} NumberRead(s: string, i: nat, digits: string)
    requires IsNumber(digits) && At(s, i, digits)
    requires i + |digits| < |s| ==> !IsDigit(s[i + |digits|])
    ensures IsDigit(s[i]) && ParseInt(s, i, 0) == Some((ValueOf(digits, 0), i + |digits|))
  {
    CharOf(s, i, digits, 0);
    ParseDigits(s, i, i + |digits|, 0);
  }

  // ---- Reading the parts ----

  lemma {:induction false} Regroup3(a: string, b: string, c: string)
    ensures a + b + c == a + (b + c)
  {
  }

  /** The first character of two texts in a row. */
  lemma {:induction false} FirstOf(a: string, b: string)
    requires b != ""
    ensures a + b != "" && (a + b)[0] == if a == "" then b[0] else a[0]
  {
  }

  /** How the rest of the specifiers starts at each place, the closing brace included. */
  predicate StartsPoint(c: char) {
    c == '.' || c == '}' || IsType(c)
  }

  predicate StartsWidth(c: char) {
    IsDigit(c) || c == '{' || StartsPoint(c)
  }

  lemma {:induction false} KindStart(w: Written)
    requires Unambiguous(w)
    ensures var c := (KindText(w.kind) + "}")[0]; c == '}' || IsType(c)
  {
  }

  lemma {:induction false} PointStart(w: Written)
    requires Unambiguous(w)
    ensures FromPoint(w) + "}" != "" && StartsPoint((FromPoint(w) + "}")[0])
  {
    KindStart(w);
    hide KindText, AmountText, Unambiguous, IsType;
    Regroup3(PointText(w.precision), KindText(w.kind), "}");
    FirstOf(PointText(w.precision), KindText(w.kind) + "}");
  }

  lemma {:induction false} AmountStart(a: Amount)
    requires IsAmount(a) && !a.Absent?
    ensures AmountText(a) != "" && if a.Number? then IsDigit(AmountText(a)[0]) else AmountText(a)[0] == '{'
  {
    if a.Number? {
      assert a.digits[0] in a.digits;
    }
  }

  lemma {:induction false} WidthStart(w: Written)
    requires WellFormed(w) && Unambiguous(w)
    ensures FromWidth(w) + "}" != ""
    ensures var c := (FromWidth(w) + "}")[0]; StartsWidth(c) && (!w.zero ==> c != '0')
  {
    PointStart(w);
    if w.width.Absent? {
      assert AmountText(w.width) == "";
    } else {
      AmountStart(w.width);
    }
    hide FromPoint, AmountText;
    Regroup3(AmountText(w.width), FromPoint(w), "}");
    FirstOf(AmountText(w.width), FromPoint(w) + "}");
    if w.width.Number? {
      NumberText(w.width);
    }
  }

  lemma {:induction false} NumberText(a: Amount)
    requires a.Number?
    ensures AmountText(a) == a.digits
  {
  }

  lemma {:induction false} ZeroStart(w: Written)
    requires WellFormed(w) && Unambiguous(w)
    ensures FromZero(w) + "}" != "" && StartsWidth((FromZero(w) + "}")[0])
  {
    hide FromWidth, StartsPoint, WellFormed, Unambiguous;
    WidthStart(w);
    Regroup3(ZeroText(w.zero), FromWidth(w), "}");
    FirstOf(ZeroText(w.zero), FromWidth(w) + "}");
  }

  lemma {:induction false} HashStart(w: Written)
    requires WellFormed(w) && Unambiguous(w)
    ensures FromHash(w) + "}" != ""
    ensures var c := (FromHash(w) + "}")[0]; c == '#' || StartsWidth(c)
  {
    hide FromZero, StartsWidth, WellFormed, Unambiguous;
    ZeroStart(w);
    Regroup3(HashText(w.alt), FromZero(w), "}");
    FirstOf(HashText(w.alt), FromZero(w) + "}");
  }

  lemma {:induction false} SignRead(s: string, i: nat, w: Written, specs: RawSpecs)
    requires WellFormed(w) && Unambiguous(w) && At(s, i, FromSign(w) + "}")
    ensures ParseSign(s, i, specs)
         == (if w.sign.NoSign? then specs else specs.(sign := w.sign), i + |SignText(w.sign)|)
    ensures At(s, i + |SignText(w.sign)|, FromHash(w) + "}")
  {
    hide FromHash, At, WellFormed, Unambiguous;
    HashStart(w);
    var rest := FromHash(w) + "}";
    Regroup3(SignText(w.sign), FromHash(w), "}");
    FirstOf(SignText(w.sign), rest);
    CharOf(s, i, FromSign(w) + "}", 0);
    AtConcat(s, i, SignText(w.sign), rest);
  }

  lemma {:induction false} HashRead(s: string, i: nat, w: Written, specs: RawSpecs)
    requires WellFormed(w) && Unambiguous(w) && At(s, i, FromHash(w) + "}")
    ensures ParseHash(s, i, specs) == (if w.alt then specs.(alt := true) else specs, i + |HashText(w.alt)|)
    ensures At(s, i + |HashText(w.alt)|, FromZero(w) + "}")
  {
    hide FromZero, At, WellFormed, Unambiguous;
    ZeroStart(w);
    var rest := FromZero(w) + "}";
    Regroup3(HashText(w.alt), FromZero(w), "}");
    FirstOf(HashText(w.alt), rest);
    CharOf(s, i, FromHash(w) + "}", 0);
    AtConcat(s, i, HashText(w.alt), rest);
  }

  lemma {:induction false} ZeroRead(s: string, i: nat, w: Written, specs: RawSpecs)
    requires WellFormed(w) && Unambiguous(w) && At(s, i, FromZero(w) + "}") && specs.fill != ""
    ensures ParseZero(s, i, specs)
         == (if w.zero then specs.(align := Numeric, fill := "0" + specs.fill[1..]) else specs, i + |ZeroText(w.zero)|)
    ensures At(s, i + |ZeroText(w.zero)|, FromWidth(w) + "}")
  {
    hide FromWidth, At, WellFormed, Unambiguous;
    WidthStart(w);
    var rest := FromWidth(w) + "}";
    Regroup3(ZeroText(w.zero), FromWidth(w), "}");
    FirstOf(ZeroText(w.zero), rest);
    CharOf(s, i, FromZero(w) + "}", 0);
    AtConcat(s, i, ZeroText(w.zero), rest);
  }

  lemma {:induction false} WidthRead(s: string, i: nat, w: Written, specs: RawSpecs)
    requires WellFormed(w) && Unambiguous(w) && At(s, i, FromWidth(w) + "}") && specs.width == Value(0)
    ensures ParseWidth(s, i, specs)
         == Some((specs.(width := AmountValue(w.width, 0)), i + |AmountText(w.width)|))
    ensures At(s, i + |AmountText(w.width)|, FromPoint(w) + "}")
  {
    hide FromPoint, At, Unambiguous, AmountText, ParseWidth, AmountValue, IsAmount;
    PointStart(w);
    var rest := FromPoint(w) + "}";
    Regroup3(AmountText(w.width), FromPoint(w), "}");
    AtConcat(s, i, AmountText(w.width), rest);
    CharOf(s, i + |AmountText(w.width)|, rest, 0);
    AmountRead(s, i, w.width, specs);
  }

  lemma {:induction false} AmountRead(s: string, i: nat, a: Amount, specs: RawSpecs)
    requires IsAmount(a) && At(s, i, AmountText(a)) && specs.width == Value(0)
    requires var e := i + |AmountText(a)|; e < |s| && !IsDigit(s[e]) && (a.Absent? ==> s[e] != '{')
    ensures ParseWidth(s, i, specs) == Some((specs.(width := AmountValue(a, 0)), i + |AmountText(a)|))
  {
    hide At, ParseNested, ParseInt, IsRef, ValueOf, RefText;
    match a
    case Number(digits) => NumberRead(s, i, digits);
    case Nested(ref) => NestedRead(s, i, ref);
    case Absent =>
  }

  lemma {:induction false} PointRead(s: string, i: nat, w: Written, specs: RawSpecs)
    requires WellFormed(w) && Unambiguous(w) && At(s, i, FromPoint(w) + "}") && specs.precision == Value(-1)
    ensures ParsePrecision(s, i, specs)
         == Some((specs.(precision := AmountValue(w.precision, -1)), i + |PointText(w.precision)|))
    ensures At(s, i + |PointText(w.precision)|, KindText(w.kind) + "}")
  {
    KindStart(w);
    hide KindText, At, Unambiguous, PointText, ParsePrecision, AmountValue, IsAmount;
    var rest := KindText(w.kind) + "}";
    Regroup3(PointText(w.precision), KindText(w.kind), "}");
    AtConcat(s, i, PointText(w.precision), rest);
    CharOf(s, i + |PointText(w.precision)|, rest, 0);
    PrecisionRead(s, i, w.precision, specs);
  }

  lemma {:induction false} PrecisionRead(s: string, i: nat, a: Amount, specs: RawSpecs)
    requires IsAmount(a) && At(s, i, PointText(a)) && specs.precision == Value(-1)
    requires var e := i + |PointText(a)|; e < |s| && !IsDigit(s[e]) && (a.Absent? ==> s[e] != '.')
    ensures ParsePrecision(s, i, specs) == Some((specs.(precision := AmountValue(a, -1)), i + |PointText(a)|))
  {
    match a
    case Absent =>
      NoPoint(s, i, specs);
      hide ParsePrecision;
    case Number(digits) =>
      NumberPoint(s, i, digits, specs);
      hide ParsePrecision, At;
    case Nested(ref) =>
      NestedPoint(s, i, ref, specs);
      hide ParsePrecision, At;
  }

  lemma {:induction false} NumberPoint(s: string, i: nat, digits: string, specs: RawSpecs)
    requires IsNumber(digits) && At(s, i, "." + digits)
    requires var e := i + 1 + |digits|; e < |s| && !IsDigit(s[e])
    ensures ParsePrecision(s, i, specs)
         == Some((specs.(precision := Value(ValueOf(digits, 0))), i + 1 + |digits|))
  {
    hide At, IsNumber, ParseInt, ValueOf, ParsePrecision;
    AtConcat(s, i, ".", digits);
    CharOf(s, i, ".", 0);
    NumberRead(s, i + 1, digits);
    NumberAfterPoint(s, i, specs, ValueOf(digits, 0), i + 1 + |digits|);
  }

  lemma {:induction false} NestedPoint(s: string, i: nat, ref: Ref, specs: RawSpecs)
    requires IsRef(ref) && At(s, i, "." + ("{" + RefText(ref) + "}"))
    ensures ParsePrecision(s, i, specs) == Some((specs.(precision := Dynamic(ref)), i + |RefText(ref)| + 3))
  {
    hide At, IsRef, RefText, ParseNested, ParsePrecision;
    var nested := "{" + RefText(ref) + "}";
    AtConcat(s, i, ".", nested);
    CharOf(s, i, ".", 0);
    NestedRead(s, i + 1, ref);
    CharOf(s, i + 1, nested, 0);
    NestedAfterPoint(s, i, specs, ref, i + |RefText(ref)| + 3);
  }

  lemma {:induction false} NoPoint(s: string, i: nat, specs: RawSpecs)
    requires i < |s| && s[i] != '.'
    ensures ParsePrecision(s, i, specs) == Some((specs, i))
  {
  }

  lemma {:induction false} NumberAfterPoint(s: string, i: nat, specs: RawSpecs, v: nat, j: nat)
    requires i + 1 < |s| && s[i] == '.' && IsDigit(s[i + 1]) && ParseInt(s, i + 1, 0) == Some((v, j))
    ensures ParsePrecision(s, i, specs) == Some((specs.(precision := Value(v)), j))
  {
    hide ParseInt;
  }

  lemma {:induction false} NestedAfterPoint(s: string, i: nat, specs: RawSpecs, ref: Ref, j: nat)
    requires i + 1 < |s| && s[i] == '.' && s[i + 1] == '{' && ParseNested(s, i + 1) == Some((ref, j))
    ensures ParsePrecision(s, i, specs) == Some((specs.(precision := Dynamic(ref)), j))
  {
    hide ParseNested;
  }

  lemma {:induction false} KindRead(s: string, i: nat, w: Written, specs: RawSpecs)
    requires WellFormed(w) && At(s, i, KindText(w.kind) + "}") && specs.kind == '\0'
    ensures ParseKind(s, i, specs)
         == (specs.(kind := if w.kind.Some? then w.kind.value else '\0'), i + |KindText(w.kind)|)
  {
    CharOf(s, i, KindText(w.kind) + "}", 0);
  }

  // ---- Fill and alignment ----

  lemma {:induction false} SkipIs(s: string, i: nat, j: nat)
    requires i <= j < |s| && s[j] as int / 0x40 % 4 != 2
    requires forall k :: i <= k < j ==> s[k] as int / 0x40 % 4 == 2
    ensures SkipContinuation(s, i) == j
    decreases j - i
  {
    if i < j {
      SkipIs(s, i + 1, j);
    }
  }

  /** A code point, in front of an ASCII character. */
  lemma {:induction false} CodePointRead(s: string, i: nat, p: string, c: char)
    requires IsCodePoint(p) && At(s, i, p + [c]) && c as int < 0x80
    ensures NextCodePoint(s, i) == i + |p| && s[i] == p[0] && s[i + |p|] == c
  {
    forall k | 0 <= k < |p + [c]|
      ensures s[i + k] == (p + [c])[k]
    {
      CharOf(s, i, p + [c], k);
    }
    assert s[i + 0] == p[0] && s[i + |p|] == c;
    if s[i] as int / 0x80 % 2 != 0 {
      assert forall k :: i + 1 <= k < i + |p| ==> s[k] == p[k - i];
      SkipIs(s, i + 1, i + |p|);
    }
  }

  /** Nothing after the alignment looks like one. */
  lemma {:induction false} NoAlignAfter(w: Written)
    requires WellFormed(w) && Unambiguous(w)
    ensures forall c <- FromSign(w) + "}" :: !IsAlign(c)
  {
    AmountPlain(w.width);
    AmountPlain(w.precision);
    SignPlain(w.sign);
    hide AmountText, SignText, IsAmount, IsCodePoint;
  }

  lemma {:induction false} SignPlain(sign: Sign)
    ensures forall c <- SignText(sign) :: !IsAlign(c)
  {
  }

  lemma {:induction false} AmountPlain(a: Amount)
    requires IsAmount(a)
    ensures forall c <- AmountText(a) :: !IsAlign(c)
  {
  }

  /** Without an alignment nothing is taken for one: the first code point is a single character. */
  lemma {:induction false} FirstIsShort(s: string, i: nat, w: Written)
    requires WellFormed(w) && Unambiguous(w) && At(s, i, FromSign(w) + "}") && FromSign(w) != ""
    ensures i + 1 < |s| && NextCodePoint(s, i) == i + 1 && !IsAlign(s[i]) && !IsAlign(s[i + 1])
  {
    hide FromSign, WellFormed, Unambiguous, At, IsAlign;
    NoAlignAfter(w);
    var t := FromSign(w) + "}";
    CharOf(s, i, t, 0);
    CharOf(s, i, t, 1);
    if s[i] as int / 0x80 % 2 != 0 {
      OnlyType(w);
      SkipIs(s, i + 1, i + 1);
    }
  }

  /** Only a type can be outside ASCII, and it stands last. */
  lemma {:induction false} OnlyType(w: Written)
    requires WellFormed(w) && Unambiguous(w) && FromSign(w) != "" && FromSign(w)[0] as int / 0x80 % 2 != 0
    ensures |FromSign(w)| == 1 && (FromSign(w) + "}")[1] == '}'
  {
    AsciiAmount(w.width);
    AsciiAmount(w.precision);
    hide AmountText;
  }

  lemma {:induction false} AsciiAmount(a: Amount)
    requires IsAmount(a)
    ensures AmountText(a) != "" ==> AmountText(a)[0] as int < 0x80 && AmountText(a)[0] != '}'
  {
    if a.Number? {
      assert a.digits[0] in a.digits;
    }
  }

  lemma {:induction false} NoBraceFirst(w: Written)
    requires WellFormed(w) && Unambiguous(w) && FromSign(w) != ""
    ensures FromSign(w)[0] != '}'
  {
    AsciiAmount(w.width);
    hide AmountText;
  }

  lemma {:induction false} AlignIs(c: char)
    ensures IsAlign(c) <==> AlignOf(c) != NoAlign
  {
  }

  /** Nothing for a fill or an alignment. */
  lemma {:induction false} NoAlignRead(s: string, i: nat, w: Written)
    requires WellFormed(w) && Unambiguous(w) && At(s, i, FromSign(w) + "}") && FromSign(w) != ""
    ensures s[i] != '}' && ParseAlign(s, i, DEFAULT_SPECS) == Some((DEFAULT_SPECS, i))
  {
    NoBraceFirst(w);
    hide At, FromSign, NextCodePoint, AlignOf, IsAlign, WellFormed, Unambiguous;
    FirstIsShort(s, i, w);
    CharOf(s, i, FromSign(w) + "}", 0);
    AlignIs(s[i]);
    AlignIs(s[i + 1]);
  }

  /** An alignment alone, in front of something that is none. */
  lemma {:induction false} AlignAlone(s: string, i: nat, c: char)
    requires i + 1 < |s| && s[i] == c && IsAlign(c) && !IsAlign(s[i + 1])
    ensures ParseAlign(s, i, DEFAULT_SPECS) == Some((DEFAULT_SPECS.(align := AlignOf(c)), i + 1))
  {
  }

  lemma {:induction false} FillAndAlign(s: string, i: nat, fill: string, c: char)
    requires IsCodePoint(fill) && |fill| <= 4 && !IsBrace(fill[0]) && IsAlign(c)
    requires At(s, i, fill + [c])
    ensures s[i] != '}'
    ensures ParseAlign(s, i, DEFAULT_SPECS)
         == Some((DEFAULT_SPECS.(fill := fill, align := AlignOf(c)), i + |fill| + 1))
  {
    CodePointRead(s, i, fill, c);
    AtConcat(s, i, fill, [c]);
    hide NextCodePoint;
  }

  function AlignChar(align: Align): (c: char)
    ensures IsAlign(c) && c != '}'
    ensures !align.NoAlign? && !align.Numeric? ==> AlignOf(c) == align
  {
    if align.Left? then '<' else if align.Right? then '>' else '^'
  }

  lemma {:induction false} AlignTextIs(w: Written)
    requires WellFormed(w)
    ensures AlignText(w) == if w.align.NoAlign? then "" else w.fill + [AlignChar(w.align)]
    ensures w.align.NoAlign? ==> SpecText(w) == FromSign(w)
  {
  }

  lemma {:induction false} SpecSplit(w: Written)
    ensures SpecText(w) + "}" == AlignText(w) + (FromSign(w) + "}")
  {
    hide AlignText, FromSign;
    Regroup3(AlignText(w), FromSign(w), "}");
  }

  lemma {:induction false} AlignRead(s: string, i: nat, w: Written)
    requires WellFormed(w) && Unambiguous(w) && At(s, i, SpecText(w) + "}") && SpecText(w) != ""
    ensures s[i] != '}'
    ensures ParseAlign(s, i, DEFAULT_SPECS)
         == Some((DEFAULT_SPECS.(align := w.align, fill := if w.fill == "" then " " else w.fill), i + |AlignText(w)|))
    ensures At(s, i + |AlignText(w)|, FromSign(w) + "}")
  {
    var after := FromSign(w) + "}";
    hide At, FromSign, ParseAlign, AlignOf, AlignChar, AlignText, SpecText, Unambiguous, IsAlign, IsCodePoint, IsAmount;
    SpecSplit(w);
    AlignTextIs(w);
    NoAlignAfter(w);
    AtConcat(s, i, AlignText(w), after);
    CharOf(s, i + |AlignText(w)|, after, 0);
    var c := AlignChar(w.align);
    if w.align.NoAlign? {
      NoAlignRead(s, i, w);
    } else if w.fill == "" {
      assert AlignText(w) == [c];
      CharOf(s, i, [c], 0);
      AlignAlone(s, i, c);
    } else {
      FillAndAlign(s, i, w.fill, c);
    }
  }

  lemma {:induction false} EmptySpecs(w: Written)
    requires WellFormed(w) && SpecText(w) == ""
    ensures SpecMeaning(w) == DEFAULT_SPECS
  {
    assert AlignText(w) == "" && FromSign(w) == "" && FromHash(w) == "" && FromZero(w) == "" && FromWidth(w) == "";
    assert AmountText(w.width) == "" && FromPoint(w) == "" && KindText(w.kind) == "";
  }

  /** `parse_format_specs` after the '0' flag, and after the fill and the alignment. */
  function AfterZero(s: string, i: nat, specs: RawSpecs): Option<(RawSpecs, nat)>
    requires i <= |s|
  {
    var e :- ParseWidth(s, i, specs);
    var f :- ParsePrecision(s, e.1, e.0);
    Some(ParseKind(s, f.1, f.0))
  }

  function AfterAlign(s: string, i: nat, specs: RawSpecs): Option<(RawSpecs, nat)>
    requires i < |s|
  {
    var b := ParseSign(s, i, specs);
    var c := ParseHash(s, b.1, b.0);
    var d := ParseZero(s, c.1, c.0);
    AfterZero(s, d.1, d.0)
  }

  lemma {:induction false} SpecsAre(s: string, i: nat)
    requires i < |s| && s[i] != '}'
    ensures ParseSpecs(s, i)
         == match ParseAlign(s, i, DEFAULT_SPECS)
            case None => None
            case Some(a) => if a.1 == |s| then Some(a) else AfterAlign(s, a.1, a.0)
  {
    hide ParseAlign, ParseSign, ParseHash, ParseZero, ParseWidth, ParsePrecision, ParseKind;
  }

  lemma {:induction false} AmountsWellFormed(w: Written)
    requires WellFormed(w)
    ensures IsAmount(w.width) && IsAmount(w.precision)
  {
  }

  lemma {:induction false} WidthLengths(w: Written)
    ensures |FromWidth(w)| == |AmountText(w.width)| + (|PointText(w.precision)| + |KindText(w.kind)|)
  {
    hide AmountText, PointText, KindText;
  }

  lemma {:induction false} AfterZeroRead(s: string, i: nat, w: Written, specs: RawSpecs)
    requires WellFormed(w) && Unambiguous(w) && At(s, i, FromWidth(w) + "}")
    requires specs.width == Value(0) && specs.precision == Value(-1) && specs.kind == '\0'
    ensures i <= |s|
    ensures AfterZero(s, i, specs)
         == Some((specs.(width := AmountValue(w.width, 0), precision := AmountValue(w.precision, -1),
                         kind := if w.kind.Some? then w.kind.value else '\0'),
                  i + |FromWidth(w)|))
  {
    hide At, ParseWidth, ParsePrecision, ParseKind, WellFormed, Unambiguous, IsAmount, FromWidth, FromPoint;
    hide AmountText, PointText, KindText, AmountValue;
    AmountsWellFormed(w);
    WidthLengths(w);
    CharOf(s, i, FromWidth(w) + "}", 0);
    WidthRead(s, i, w, specs);
    var e := ParseWidth(s, i, specs).value;
    PointRead(s, e.1, w, e.0);
    var f := ParsePrecision(s, e.1, e.0).value;
    KindRead(s, f.1, w, f.0);
  }

  lemma {:induction false} Lengths(w: Written)
    ensures |FromSign(w)| == |SignText(w.sign)| + |HashText(w.alt)| + |ZeroText(w.zero)| + |FromWidth(w)|
  {
    hide SignText, HashText, ZeroText, FromWidth;
  }

  lemma {:induction false} RestRead(s: string, i: nat, w: Written, specs: RawSpecs)
    requires WellFormed(w) && Unambiguous(w) && At(s, i, FromSign(w) + "}") && i < |s| && specs.fill != ""
    requires specs == DEFAULT_SPECS.(align := specs.align, fill := specs.fill)
    ensures AfterAlign(s, i, specs)
         == Some((RawSpecs(if w.zero then "0" + specs.fill[1..] else specs.fill,
                           if w.zero then Numeric else specs.align,
                           w.sign, w.alt,
                           AmountValue(w.width, 0),
                           AmountValue(w.precision, -1),
                           if w.kind.Some? then w.kind.value else '\0'),
                  i + |FromSign(w)|))
  {
    hide At, ParseSign, ParseHash, ParseZero, AfterZero, WellFormed, Unambiguous, IsAmount, AmountValue;
    hide FromSign, FromHash, FromZero, FromWidth, SignText, HashText, ZeroText;
    AmountsWellFormed(w);
    Lengths(w);
    SignRead(s, i, w, specs);
    var b := ParseSign(s, i, specs);
    HashRead(s, b.1, w, b.0);
    var c := ParseHash(s, b.1, b.0);
    ZeroRead(s, c.1, w, c.0);
    var d := ParseZero(s, c.1, c.0);
    AfterZeroRead(s, d.1, w, d.0);
  }

  /**
   Main result: the text of any specifiers, in front of a closing brace, reads back to its
   values, and reading stops at the brace.
   */
  lemma {:induction false} SpecRoundTrip(s: string, i: nat, w: Written)
    requires WellFormed(w) && Unambiguous(w) && At(s, i, SpecText(w) + "}")
    ensures i + |SpecText(w)| < |s| && s[i + |SpecText(w)|] == '}'
    ensures ParseSpecs(s, i) == Some((SpecMeaning(w), i + |SpecText(w)|))
  {
    hide At, FromSign, AlignText, ParseAlign, AfterAlign, ParseSpecs, Unambiguous, IsAmount, IsCodePoint, AmountValue;
    AtConcat(s, i, SpecText(w), "}");
    CharOf(s, i + |SpecText(w)|, "}", 0);
    if SpecText(w) == "" {
      EmptySpecs(w);
      NoSpecs(s, i);
    } else {
      AlignRead(s, i, w);
      CharOf(s, i + |AlignText(w)|, FromSign(w) + "}", 0);
      var specs := DEFAULT_SPECS.(align := w.align, fill := if w.fill == "" then " " else w.fill);
      RestRead(s, i + |AlignText(w)|, w, specs);
      SpecsAre(s, i);
    }
  }

  lemma {:induction false} NoSpecs(s: string, i: nat)
    requires i < |s| && s[i] == '}'
    ensures ParseSpecs(s, i) == Some((DEFAULT_SPECS, i))
  {
  }

  // ---- Nothing else is accepted ----

  lemma {:induction false} NameOnly(s: string, i: nat, j: nat)
    requires i < j <= |s| && IsNameStart(s[i]) && forall k :: i < k < j ==> IsNameStart(s[k]) || IsDigit(s[k])
    ensures IsName(s[i..j])
  {
    assert s[i..j][0] == s[i];
  }

  lemma {:induction false} IndexOnly(s: string, i: nat)
    requires i < |s| && IsDigit(s[i]) && s[i] != '0' && ParseInt(s, i, 0).Some?
    ensures var r := ParseInt(s, i, 0).value; s[i..r.1] == Decimal(r.0)
  {
    var r := ParseInt(s, i, 0).value;
    DigitsOf(s, i, 0);
    assert s[i..r.1][0] == s[i];
    DecimalOf(s[i..r.1]);
  }

  lemma {:induction false} RefOnly(s: string, i: nat)
    requires i < |s| && ParseArgId(s, i).Some?
    ensures var r := ParseArgId(s, i).value; IsRef(r.0) && s[i..r.1] == RefText(r.0)
  {
    var j := ParseArgId(s, i).value.1;
    if s[i] == '0' {
      assert s[i..i + 1] == "0" == [Digit(0)] == Decimal(0);
    } else if IsDigit(s[i]) {
      IndexOnly(s, i);
    } else if IsNameStart(s[i]) {
      NameOnly(s, i, j);
    }
  }

  lemma {:induction false} NestedOnly(s: string, i: nat)
    requires i < |s| && s[i] == '{' && ParseNested(s, i).Some?
    ensures var r := ParseNested(s, i).value; IsRef(r.0) && s[i..r.1] == AmountText(Nested(r.0))
  {
    RefOnly(s, i + 1);
    var j := ParseArgId(s, i + 1).value.1;
    hide RefText, ParseArgId;
    assert s[i..j + 1] == "{" + s[i + 1..j] + "}";
  }

  lemma {:induction false} NumberOnly(s: string, i: nat)
    requires i < |s| && IsDigit(s[i]) && ParseInt(s, i, 0).Some?
    ensures var r := ParseInt(s, i, 0).value; IsNumber(s[i..r.1]) && ValueOf(s[i..r.1], 0) == r.0
  {
    DigitsOf(s, i, 0);
    var j := ParseInt(s, i, 0).value.1;
    assert s[i..j][0] == s[i];
  }

  lemma {:induction false} WidthOnly(s: string, i: nat, specs: RawSpecs) returns (a: Amount)
    requires i <= |s| && specs.width == Value(0) && ParseWidth(s, i, specs).Some?
    ensures var r := ParseWidth(s, i, specs).value;
            IsAmount(a) && s[i..r.1] == AmountText(a) && r.0 == specs.(width := AmountValue(a, 0))
  {
    hide ParseNested, ParseInt, ValueOf, RefText;
    if i < |s| && IsDigit(s[i]) {
      NumberOnly(s, i);
      a := Number(s[i..ParseInt(s, i, 0).value.1]);
    } else if i < |s| && s[i] == '{' {
      NestedOnly(s, i);
      a := Nested(ParseNested(s, i).value.0);
    } else {
      a := Absent;
    }
  }

  lemma {:induction false} PointOnly(s: string, i: nat, specs: RawSpecs) returns (a: Amount)
    requires i <= |s| && specs.precision == Value(-1) && ParsePrecision(s, i, specs).Some?
    ensures var r := ParsePrecision(s, i, specs).value;
            IsAmount(a) && s[i..r.1] == PointText(a) && r.0 == specs.(precision := AmountValue(a, -1))
  {
    hide ParseNested, ParseInt, ValueOf, RefText;
    if i == |s| || s[i] != '.' {
      a := Absent;
    } else if IsDigit(s[i + 1]) {
      NumberOnly(s, i + 1);
      var j := ParseInt(s, i + 1, 0).value.1;
      a := Number(s[i + 1..j]);
      assert s[i..j] == "." + s[i + 1..j];
    } else {
      NestedOnly(s, i + 1);
      var r := ParseNested(s, i + 1).value;
      a := Nested(r.0);
      assert s[i..r.1] == "." + s[i + 1..r.1];
    }
  }

  lemma {:induction false} Joined(s: string, i: nat, j: nat, k: nat)
    requires i <= j <= k <= |s|
    ensures s[i..k] == s[i..j] + s[j..k]
  {
  }

  lemma {:induction false} AfterZeroOnly(s: string, i: nat, specs: RawSpecs, w: Written) returns (v: Written)
    requires i <= |s| && WellFormed(w) && AfterZero(s, i, specs).Some?
    requires specs.width == Value(0) && specs.precision == Value(-1) && specs.kind == '\0'
    requires var j := AfterZero(s, i, specs).value.1; j < |s| && s[j] == '}'
    ensures v == w.(width := v.width, precision := v.precision, kind := v.kind) && WellFormed(v)
    ensures var r := AfterZero(s, i, specs).value;
            && s[i..r.1] == FromWidth(v)
            && r.0 == specs.(width := AmountValue(v.width, 0), precision := AmountValue(v.precision, -1),
                             kind := if v.kind.Some? then v.kind.value else '\0')
  {
    hide ParseWidth, ParsePrecision, AmountText, PointText, AmountValue, IsAmount, IsCodePoint;
    var width := WidthOnly(s, i, specs);
    var e := ParseWidth(s, i, specs).value;
    var precision := PointOnly(s, e.1, e.0);
    var f := ParsePrecision(s, e.1, e.0).value;
    var end := AfterZero(s, i, specs).value.1;
    var kind := if s[f.1] != '}' then Some(s[f.1]) else None;
    v := w.(width := width, precision := precision, kind := kind);
    Joined(s, i, e.1, end);
    Joined(s, e.1, f.1, end);
    assert s[f.1..end] == KindText(kind);
  }

  lemma {:induction false} CodePointOnly(s: string, i: nat)
    requires i < |s|
    ensures IsCodePoint(s[i..NextCodePoint(s, i)])
  {
    var j := NextCodePoint(s, i);
    assert s[i..j][0] == s[i];
    if s[i] as int / 0x80 % 2 != 0 {
      SkipOnly(s, i + 1);
      forall k | 1 <= k < j - i
        ensures s[i..j][k] as int / 0x40 % 4 == 2
      {
        assert s[i..j][k] == s[i + k];
      }
    }
  }

  lemma {:induction false} SkipOnly(s: string, i: nat)
    requires i <= |s|
    ensures forall k :: i <= k < SkipContinuation(s, i) ==> s[k] as int / 0x40 % 4 == 2
    decreases |s| - i
  {
    if i < |s| && s[i] as int / 0x40 % 4 == 2 {
      SkipOnly(s, i + 1);
    }
  }

  lemma {:induction false} AlignOnly(s: string, i: nat) returns (fill: string, align: Align)
    requires i < |s| && s[i] != '}' && ParseAlign(s, i, DEFAULT_SPECS).Some?
    ensures var w := Written(fill, align, NoSign, false, false, Absent, Absent, None);
            var r := ParseAlign(s, i, DEFAULT_SPECS).value;
            && WellFormed(w) && s[i..r.1] == AlignText(w)
            && r.0 == DEFAULT_SPECS.(align := align, fill := if fill == "" then " " else fill)
  {
    CodePointOnly(s, i);
    var next := NextCodePoint(s, i);
    var p := if next == |s| then i else next;
    hide NextCodePoint, IsCodePoint;
    if AlignOf(s[p]) != NoAlign && p != i {
      fill, align := s[i..p], AlignOf(s[p]);
      assert s[i..p + 1] == s[i..p] + [s[p]];
      assert s[i..p][0] == s[i];
    } else if AlignOf(s[i]) != NoAlign {
      fill, align := "", AlignOf(s[i]);
      assert s[i..i + 1] == "" + [s[i]];
    } else {
      fill, align := "", NoAlign;
    }
  }

  lemma {:induction false} SignOnly(s: string, i: nat, specs: RawSpecs)
    requires i < |s| && specs.sign == NoSign
    ensures var r := ParseSign(s, i, specs); s[i..r.1] == SignText(r.0.sign) && r.0 == specs.(sign := r.0.sign)
  {
  }

  lemma {:induction false} HashOnly(s: string, i: nat, specs: RawSpecs)
    requires i <= |s| && !specs.alt
    ensures var r := ParseHash(s, i, specs); s[i..r.1] == HashText(r.0.alt) && r.0 == specs.(alt := r.0.alt)
  {
  }

  lemma {:induction false} ZeroOnly(s: string, i: nat, specs: RawSpecs)
    requires i <= |s| && specs.fill != ""
    ensures var r := ParseZero(s, i, specs);
            && s[i..r.1] == ZeroText(i < r.1)
            && r.0 == if i < r.1 then specs.(align := Numeric, fill := "0" + specs.fill[1..]) else specs
  {
  }

  lemma {:induction false} FlagsOnly(s: string, i: nat, w: Written, specs: RawSpecs) returns (v: Written)
    requires i < |s| && WellFormed(w) && specs.sign == NoSign && !specs.alt && specs.fill != ""
    ensures v == w.(sign := v.sign, alt := v.alt, zero := v.zero) && WellFormed(v)
    ensures var b := ParseSign(s, i, specs);
            var c := ParseHash(s, b.1, b.0);
            var d := ParseZero(s, c.1, c.0);
            && s[i..d.1] == SignText(v.sign) + (HashText(v.alt) + ZeroText(v.zero))
            && d.0 == specs.(sign := v.sign, alt := v.alt,
                             align := if v.zero then Numeric else specs.align,
                             fill := if v.zero then "0" + specs.fill[1..] else specs.fill)
  {
    hide IsAmount, IsCodePoint, ParseSign, ParseHash, ParseZero, SignText, HashText, ZeroText;
    var b := ParseSign(s, i, specs);
    var c := ParseHash(s, b.1, b.0);
    var d := ParseZero(s, c.1, c.0);
    SignOnly(s, i, specs);
    HashOnly(s, b.1, b.0);
    ZeroOnly(s, c.1, c.0);
    v := w.(sign := b.0.sign, alt := c.0.alt, zero := c.1 < d.1);
    Joined(s, i, b.1, d.1);
    Joined(s, b.1, c.1, d.1);
  }

  lemma {:induction false} Parts(a: string, b: string, c: string, d: string)
    ensures a + (b + c) + d == a + (b + (c + d))
  {
  }

  lemma {:induction false} FromSignIs(w: Written)
    ensures FromSign(w) == SignText(w.sign) + (HashText(w.alt) + ZeroText(w.zero)) + FromWidth(w)
  {
    hide SignText, HashText, ZeroText, FromWidth;
    Parts(SignText(w.sign), HashText(w.alt), ZeroText(w.zero), FromWidth(w));
  }

  function AfterFlags(s: string, i: nat, specs: RawSpecs): (d: (RawSpecs, nat))
    requires i < |s|
    ensures i <= d.1 <= |s|
  {
    var b := ParseSign(s, i, specs);
    var c := ParseHash(s, b.1, b.0);
    ParseZero(s, c.1, c.0)
  }

  lemma {:induction false} AfterAlignOnly(s: string, i: nat, specs: RawSpecs, w: Written) returns (v: Written)
    requires i < |s| && WellFormed(w) && AfterAlign(s, i, specs).Some? && specs.fill != ""
    requires specs == DEFAULT_SPECS.(align := specs.align, fill := specs.fill)
    requires var j := AfterAlign(s, i, specs).value.1; j < |s| && s[j] == '}'
    ensures WellFormed(v) && v.align == w.align && v.fill == w.fill
    ensures var r := AfterAlign(s, i, specs).value;
            && i <= r.1 && s[i..r.1] == FromSign(v)
            && r.0 == RawSpecs(if v.zero then "0" + specs.fill[1..] else specs.fill,
                               if v.zero then Numeric else specs.align,
                               v.sign, v.alt, AmountValue(v.width, 0), AmountValue(v.precision, -1),
                               if v.kind.Some? then v.kind.value else '\0')
  {
    hide ParseSign, ParseHash, ParseZero, AfterZero, FromSign, FromWidth, SignText, HashText, ZeroText, WellFormed;
    hide AmountValue;
    var u := FlagsOnly(s, i, w, specs);
    var d := AfterFlags(s, i, specs);
    v := AfterZeroOnly(s, d.1, d.0, u);
    WithinEnd(s, d.1, d.0);
    Joined(s, i, d.1, AfterAlign(s, i, specs).value.1);
    FromSignIs(v);
    AmountsWellFormed(v);
  }

  lemma {:induction false} WithinEnd(s: string, i: nat, specs: RawSpecs)
    requires i <= |s| && AfterZero(s, i, specs).Some?
    ensures i <= AfterZero(s, i, specs).value.1 <= |s|
  {
    hide ParseWidth, ParsePrecision, ParseKind;
  }

  /**
   The other direction: whatever the parser accepts in front of a closing brace is the text
   of some specifiers, with their values.
   */
  lemma {:induction false} SpecsOnly(s: string, i: nat) returns (w: Written)
    requires i < |s| && ParseSpecs(s, i).Some?
    requires var j := ParseSpecs(s, i).value.1; j < |s| && s[j] == '}'
    ensures WellFormed(w)
    ensures ParseSpecs(s, i).value.0 == SpecMeaning(w) && s[i..ParseSpecs(s, i).value.1] == SpecText(w)
  {
    hide ParseSpecs, ParseAlign, AfterAlign, FromSign, AlignText, AmountValue, IsAmount, IsCodePoint;
    if s[i] == '}' {
      NoSpecs(s, i);
      w := Written("", NoAlign, NoSign, false, false, Absent, Absent, None);
      NothingWritten(w);
    } else {
      SpecsAre(s, i);
      var fill, align := AlignOnly(s, i);
      var a := ParseAlign(s, i, DEFAULT_SPECS).value;
      var u := Written(fill, align, NoSign, false, false, Absent, Absent, None);
      w := AfterAlignOnly(s, a.1, a.0, u);
      Joined(s, i, a.1, ParseSpecs(s, i).value.1);
      SameAlign(u, w);
    }
  }

  lemma {:induction false} SameAlign(u: Written, w: Written)
    requires u.fill == w.fill && u.align == w.align
    ensures AlignText(u) == AlignText(w)
  {
  }

  lemma {:induction false} NothingWritten(w: Written)
    requires w == Written("", NoAlign, NoSign, false, false, Absent, Absent, None)
    ensures WellFormed(w) && SpecText(w) == "" && SpecMeaning(w) == DEFAULT_SPECS
  {
  }
}
