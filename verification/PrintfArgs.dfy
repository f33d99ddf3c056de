/**
 Which argument each conversion of a printf format prints, and how: a format made of pieces
 of text and conversions, against a direct reading of the list of arguments.
 */
module PrintfArgs {
  import opened Decimals
  import opened Options
  import opened Printf

  /** A width or precision as written. Only a precision can be empty: a '.' and nothing after it. */
  datatype Amount = Absent | Empty | Number(n: nat) | Star

  /** Text, and a conversion after it. */
  datatype Piece = Piece(
    text: string,
    index: Option<nat>,
    flags: string,
    width: Amount,
    precision: Amount,
    length: Length,
    kind: char)

  /** A type character that cannot be taken for anything else. */
  predicate IsType(c: char) {
    !(Syntax.IsDigit(c) || IsFlag(c) || c in "%$.*hljztL")
  }

  /** Numbers that fit, and a positive index and width. */
  predicate Written(p: Piece) {
    && (p.index.Some? ==> 0 < p.index.value <= Syntax.MAX_INT)
    && (forall c <- p.flags :: IsFlag(c))
    && !p.width.Empty? && (p.width.Number? ==> 0 < p.width.n <= Syntax.MAX_INT)
    && (p.precision.Number? ==> p.precision.n <= Syntax.MAX_INT)
    && IsType(p.kind)
  }

  // ---- The format ----

  function AmountText(a: Amount): string {
    match a
    case Absent => ""
    case Empty => ""
    case Number(n) => Decimal(n)
    case Star => "*"
  }

  function PointText(precision: Amount): string {
    if precision.Absent? then "" else "." + AmountText(precision)
  }

  function LengthText(length: Length): string {
    match length
    case NoLength => ""
    case Char => "hh"
    case Short => "h"
    case Long => "l"
    case LongLong => "ll"
    case IntMax => "j"
    case Size => "z"
    case PtrDiff => "t"
    case LongDouble => "L"
  }

  function HeadText(p: Piece): string {
    IndexText(p.index) + (p.flags + AmountText(p.width))
  }

  function TailText(p: Piece): string {
    LengthText(p.length) + [p.kind]
  }

  /** A conversion, from after the '%'. */
  function SpecOf(p: Piece): string {
    HeadText(p) + (PointText(p.precision) + TailText(p))
  }

  function PieceText(p: Piece): string {
    Double(p.text) + ("%" + SpecOf(p))
  }

  function FormatText(pieces: seq<Piece>): string {
    if pieces == [] then "" else PieceText(pieces[0]) + FormatText(pieces[1..])
  }

  // ---- Its meaning ----

  /** An argument as a width, if it is an integer whose magnitude fits. */
  function AsWidth(arg: Arg): Option<int> {
    if arg.Integral? && -Syntax.MAX_INT <= arg.value <= Syntax.MAX_INT then Some(arg.value) else None
  }

  /** An argument as a precision: negative ones count as zero. */
  function AsPrecision(arg: Arg): Option<int> {
    if arg.Integral? && -Syntax.MAX_INT - 1 <= arg.value <= Syntax.MAX_INT
    then Some(if arg.value < 0 then 0 else arg.value) else None
  }

  function Literal(a: Amount): int {
    if a.Number? then a.n else 0
  }

  /** The argument as shown: of a C string no more than the precision. */
  function Shown(arg: Arg, precision: int): Arg {
    if arg.CString? && precision >= 0
    then Text(if precision < |arg.text| then arg.text[..precision] else arg.text) else arg
  }

  /** The specifiers it is shown with. Zeros fill numbers only, not against '-', and no integers with a precision. */
  function ShownSpecs(flags: string, width: int, precision: int, arg: Arg): Specs {
    var left := '-' in flags || width < 0;
    var zeros := '0' in flags && arg.IsArithmetic() && !left && !(arg.Integral? && precision >= 0);
    Specs(if width < 0 then -width else width,
          precision,
          if zeros then '0' else ' ',
          if zeros then Syntax.Numeric else if left then Syntax.Left else Syntax.Right,
          if '+' in flags then Syntax.Plus else if ' ' in flags then Syntax.Space else Syntax.NoSign,
          '#' in flags && arg != Integral(0))
  }

  function Show(p: Piece, width: int, precision: int, arg: Arg, w: Writer): Option<string> {
    w.show(Shown(arg, precision), ShownSpecs(p.flags, width, precision, arg), p.length,
           if p.length.LongDouble? then '\0' else p.kind,
           if arg.Integral? && (p.kind == 'i' || p.kind == 'u') then 'd' else p.kind)
  }

  function PrecisionWritten(p: Piece): int {
    if p.precision.Absent? then -1 else Literal(p.precision)
  }

  /** The width of a conversion: as written, or the argument at `at`; negative for left alignment. */
  function WidthFor(p: Piece, at: int, args: seq<Arg>): Option<int> {
    if !p.width.Star? then Some(Literal(p.width))
    else if 0 <= at < |args| then AsWidth(args[at])
    else None
  }

  function PrecisionFor(p: Piece, at: int, args: seq<Arg>): Option<int> {
    if !p.precision.Star? then Some(PrecisionWritten(p))
    else if 0 <= at < |args| then AsPrecision(args[at])
    else None
  }

  function Stars(a: Amount): nat {
    if a.Star? then 1 else 0
  }

  /**
   What a conversion prints, and the next automatic argument. With an index it takes that
   argument, counted from 1, and there is no automatic one from then on. Without, a star takes
   the next argument, first for the width, then for the precision, and the one after is printed.
   */
  function Printed(p: Piece, next: int, args: seq<Arg>, w: Writer): Option<(string, int)> {
    var before := Stars(p.width) + Stars(p.precision);
    if p.index.Some? then
      if next > 0 || before > 0 || !(1 <= p.index.value <= |args|) then None
      else
        var text :- Show(p, Literal(p.width), PrecisionWritten(p), args[p.index.value - 1], w);
        Some((text, -1))
    else if next < 0 || next + before >= |args| then None
    else
      var width :- WidthFor(p, next, args);
      var precision :- PrecisionFor(p, next + Stars(p.width), args);
      var text :- Show(p, width, precision, args[next + before], w);
      Some((text, next + before + 1))
  }

  /** Pieces print one after the other, each from where the one before left the arguments. */
  function Meaning(pieces: seq<Piece>, next: int, args: seq<Arg>, w: Writer): Option<string> {
    if pieces == [] then Some("")
    else
      var one :- Printed(pieces[0], next, args, w);
      Prepend(pieces[0].text + one.0, Meaning(pieces[1..], one.1, args, w))
  }

  // ---- Reading a conversion ----

  /** `width`, left-aligned if it is negative. */
  function Widened(specs: Specs, width: int): Specs {
    if width < 0 then specs.(align := Syntax.Left, width := -width) else specs.(width := width)
  }

  /** The header of a conversion with a star for its width. */
  function Starred(specs: Specs, index: int, end: nat, next: int, args: seq<Arg>): Option<Header> {
    if !(0 <= next < |args|) then None
    else
      var width :- AsWidth(args[next]);
      Some(Header(index, Widened(specs, width), end, next + 1))
  }

  lemma {:induction false} StarRead(s: string, i: nat, flags: string, specs: Specs, index: int, next: int,
          args: seq<Arg>)
    requires (forall c <- flags :: IsFlag(c)) && At(s, i, flags + "*")
    ensures FlagsAndWidth(s, i, specs, index, next, args)
         == Starred(ApplyFlags(specs, flags), index, i + |flags| + 1, next, args)
  {
    hide ApplyFlags;
    var j := i + |flags|;
    AtConcat(s, i, flags, "*");
    CharOf(s, j, "*", 0);
    assert forall k :: i <= k < j ==> s[k] == flags[k - i];
    FlagsEndIs(s, i, j);
    assert s[i..j] == flags;
  }

  /** Zeros are read as a number first, and are flags all the same. */
  lemma {:induction false} StarAfterZeros(s: string, i: nat, zeros: string, others: string, next: int, args: seq<Arg>)
    requires (forall c <- zeros :: c == '0') && (forall c <- others :: IsFlag(c)) && zeros != ""
    requires At(s, i, zeros) && At(s, i + |zeros|, others + "*") && (others == "" || others[0] != '0')
    ensures ParseHeaderAt(s, i, next, args)
         == Starred(ApplyFlags(INITIAL, zeros + others), -1, i + |zeros| + |others| + 1, next, args)
  {
    var j := i + |zeros|;
    CharOf(s, j, others + "*", 0);
    CharOf(s, i, zeros, 0);
    assert !Syntax.IsDigit(s[j]) && s[j] != '$';
    hide ApplyFlags, FlagsAndWidth, At, Starred, ParseHeaderAt, Syntax.ParseInt, IsFlag;
    ZerosRead(s, i, zeros);
    ZeroHeader(s, i, j, next, args);
    StarRead(s, j, others, INITIAL.(fill := '0'), -1, next, args);
    ApplyFlagsConcat(INITIAL, zeros, others);
    ZeroFlags(zeros);
  }

  lemma {:induction false} UnindexedStar(s: string, i: nat, flags: string, next: int, args: seq<Arg>)
    requires (forall c <- flags :: IsFlag(c)) && At(s, i, flags + "*")
    ensures ParseHeaderAt(s, i, next, args)
         == Starred(ApplyFlags(INITIAL, flags), -1, i + |flags| + 1, next, args)
  {
    CharOf(s, i, flags + "*", 0);
    var z := LeadingZeros(flags);
    if !Syntax.IsDigit(s[i]) {
      StarRead(s, i, flags, INITIAL, -1, next, args);
      hide ApplyFlags, FlagsAndWidth, At, Starred;
    } else {
      DigitFlag(s[i]);
      CutFlags(flags, z, "*");
      assert flags != "" && s[i] == flags[0] == '0' && z > 0;
      hide ApplyFlags, FlagsAndWidth, At, Starred, ParseHeaderAt, IsFlag, Syntax.IsDigit, LeadingZeros;
      AtConcat(s, i, flags[..z], flags[z..] + "*");
      assert flags[..z] + flags[z..] == flags;
      StarAfterZeros(s, i, flags[..z], flags[z..], next, args);
    }
  }

  lemma {:induction false} IndexedStar(s: string, i: nat, index: nat, flags: string, next: int, args: seq<Arg>)
    requires (forall c <- flags :: IsFlag(c)) && 0 < index <= Syntax.MAX_INT
    requires At(s, i, IndexText(Some(index)) + (flags + "*"))
    ensures ParseHeaderAt(s, i, next, args)
         == Starred(ApplyFlags(INITIAL, flags), index, i + |IndexText(Some(index))| + |flags| + 1, next, args)
  {
    hide ApplyFlags, FlagsAndWidth, Starred;
    AtConcat(s, i, IndexText(Some(index)), flags + "*");
    IndexRead(s, i, index);
    StarRead(s, i + |IndexText(Some(index))|, flags, INITIAL, index, next, args);
  }

  /** The specifiers that flags stand for. */
  function Flagged(flags: string): Specs {
    Specs(0, -1,
          if '0' in flags then '0' else ' ',
          if '-' in flags then Syntax.Left else Syntax.Right,
          if '+' in flags then Syntax.Plus else if ' ' in flags then Syntax.Space else Syntax.NoSign,
          '#' in flags)
  }

  lemma {:induction false} FlagsMean(flags: string)
    ensures ApplyFlags(INITIAL, flags) == Flagged(flags)
  {
    FlagsAreASet(INITIAL, flags);
    hide ApplyFlags;
  }

  function IndexOf(p: Piece): int {
    if p.index.Some? then p.index.value else -1
  }

  /** What the header comes to. */
  function HeaderOf(p: Piece, end: nat, next: int, args: seq<Arg>): Option<Header> {
    var width :- WidthFor(p, next, args);
    Some(Header(IndexOf(p), Widened(Flagged(p.flags), width), end, next + Stars(p.width)))
  }

  lemma {:induction false} HeaderMeans(s: string, i: nat, p: Piece, next: int, args: seq<Arg>)
    requires Written(p) && At(s, i, HeadText(p)) && WidthEnds(s, i + |HeadText(p)|)
    requires i + |HeadText(p)| < |s| ==> s[i + |HeadText(p)|] != '$'
    ensures ParseHeaderAt(s, i, next, args) == HeaderOf(p, i + |HeadText(p)|, next, args)
  {
    hide ParseHeaderAt, ApplyFlags, At, WidthEnds, Starred, IndexText, Flagged;
    FlagsMean(p.flags);
    if !p.width.Star? {
      assert AmountText(p.width) == WidthText(Literal(p.width));
      HeaderRead(s, i, p.index, p.flags, Literal(p.width), next, args);
    } else if p.index.Some? {
      StarredIs(p, i + |HeadText(p)|, next, args);
      assert p.index == Some(p.index.value) && HeadText(p) == IndexText(p.index) + (p.flags + "*");
      IndexedStar(s, i, p.index.value, p.flags, next, args);
    } else {
      StarredIs(p, i + |HeadText(p)|, next, args);
      assert HeadText(p) == p.flags + "*" by { NoIndex(p.flags + "*"); }
      UnindexedStar(s, i, p.flags, next, args);
    }
  }

  lemma {:induction false} StarredIs(p: Piece, end: nat, next: int, args: seq<Arg>)
    requires p.width.Star?
    ensures HeaderOf(p, end, next, args) == Starred(Flagged(p.flags), IndexOf(p), end, next, args)
  {
  }

  lemma {:induction false} NoIndex(rest: string)
    ensures IndexText(None) + rest == rest
  {
  }

  /** What the precision adds. */
  function PointOf(p: Piece, h: Header, end: nat, args: seq<Arg>): Option<Header> {
    var precision :- PrecisionFor(p, h.next, args);
    Some(Header(h.index, h.specs.(precision := precision), end, h.next + Stars(p.precision)))
  }

  lemma {:induction false} PointMeans(s: string, p: Piece, h: Header, args: seq<Arg>)
    requires Written(p) && h.specs.precision == -1 && At(s, h.end, PointText(p.precision))
    requires var e := h.end + |PointText(p.precision)|;
             e < |s| && !Syntax.IsDigit(s[e]) && s[e] != '.' && s[e] != '*'
    ensures ParsePrecisionAt(s, h, args) == PointOf(p, h, h.end + |PointText(p.precision)|, args)
  {
    hide Decimal, At, ParsePrecisionAt, AsPrecision;
    var e := h.end + |PointText(p.precision)|;
    match p.precision
    case Absent => PrecisionRead(s, h, None, args);
    case Number(n) => PrecisionRead(s, h, Some(n), args);
    case Empty =>
      CharOf(s, h.end, PointText(p.precision), 0);
      PointAlone(s, h, args);
    case Star =>
      CharOf(s, h.end, PointText(p.precision), 0);
      CharOf(s, h.end, PointText(p.precision), 1);
      PointStar(s, h, args);
  }

  lemma {:induction false} PointAlone(s: string, h: Header, args: seq<Arg>)
    requires h.end + 1 < |s| && s[h.end] == '.' && !Syntax.IsDigit(s[h.end + 1]) && s[h.end + 1] != '*'
    ensures ParsePrecisionAt(s, h, args) == Some(h.(specs := h.specs.(precision := 0), end := h.end + 1))
  {
  }

  lemma {:induction false} PointStar(s: string, h: Header, args: seq<Arg>)
    requires h.end + 1 < |s| && s[h.end] == '.' && s[h.end + 1] == '*'
    ensures ParsePrecisionAt(s, h, args)
         == if !(0 <= h.next < |args|) then None
            else
              match AsPrecision(args[h.next])
              case None => None
              case Some(v) => Some(Header(h.index, h.specs.(precision := v), h.end + 2, h.next + 1))
  {
  }

  /** A length, then the type. */
  lemma {:induction false} LengthMeans(s: string, i: nat, length: Length, kind: char)
    requires IsType(kind) && At(s, i, LengthText(length) + [kind])
    ensures ParseLengthAt(s, i)
         == (length, if length.LongDouble? then '\0' else kind, i + |LengthText(length)|)
    ensures s[i + |LengthText(length)|] == kind
  {
    var t := LengthText(length) + [kind];
    forall k | 0 <= k < |t|
      ensures i + k < |s| && s[i + k] == t[k]
    {
      CharOf(s, i, t, k);
    }
    assert t[|t| - 1] == kind && s[i + 0] == t[0];
    if |t| > 1 {
      assert s[i + 1] == t[1];
    }
    if |t| > 2 {
      assert s[i + 2] == t[2];
    }
  }

  /** The adjustments come to the specifiers and the argument as shown. */
  lemma {:induction false} AdjustMeans(flags: string, width: int, precision: int, arg: Arg)
    requires precision >= -1
    ensures Adjust(Widened(Flagged(flags), width).(precision := precision), arg)
         == (ShownSpecs(flags, width, precision, arg), Shown(arg, precision))
  {
  }

  lemma {:induction false} ConvertMeans(s: string, p: Piece, h: Header, width: int, precision: int, arg: Arg,
          next: int, w: Writer)
    requires IsType(p.kind) && precision >= -1
    requires h.specs == Widened(Flagged(p.flags), width).(precision := precision)
    requires At(s, h.end, TailText(p))
    ensures Convert(s, h, arg, next, w)
         == (match Show(p, width, precision, arg, w)
             case None => None
             case Some(text) => Some(Converted(text, h.end + |TailText(p)|, next)))
  {
    hide Adjust, ParseLengthAt, ShownSpecs, Flagged, Widened, LengthText, IsType;
    AdjustMeans(p.flags, width, precision, arg);
    LengthMeans(s, h.end, p.length, p.kind);
  }

  /** The parts of a conversion, where they are. */
  lemma {:induction false} SpecPlaces(s: string, i: nat, p: Piece)
    requires At(s, i, SpecOf(p))
    ensures var j := i + |HeadText(p)|;
            var k := j + |PointText(p.precision)|;
            && At(s, i, HeadText(p)) && At(s, j, PointText(p.precision) + TailText(p))
            && At(s, j, PointText(p.precision)) && At(s, k, TailText(p))
            && i + |SpecOf(p)| == k + |TailText(p)|
  {
    hide At, HeadText, PointText;
    AtConcat(s, i, HeadText(p), PointText(p.precision) + TailText(p));
    AtConcat(s, i + |HeadText(p)|, PointText(p.precision), TailText(p));
  }

  /** What stands after each part of a conversion. */
  lemma {:induction false} SpecParts(s: string, i: nat, p: Piece)
    requires Written(p) && At(s, i, SpecOf(p))
    ensures var j := i + |HeadText(p)|;
            var k := j + |PointText(p.precision)|;
            && j < |s| && s[j] != '$' && WidthEnds(s, j)
            && k < |s| && !Syntax.IsDigit(s[k]) && s[k] != '.' && s[k] != '*'
  {
    var j := i + |HeadText(p)|;
    var k := j + |PointText(p.precision)|;
    PartStarts(s, i, p);
    TailStarts(p);
    hide At, HeadText, PointText, TailText, SpecOf, IsFlag, Written;
    assert !IsFlag('.') by { DotIsNoFlag(); }
  }

  lemma {:induction false} DotIsNoFlag()
    ensures !IsFlag('.')
  {
  }

  lemma {:induction false} PartStarts(s: string, i: nat, p: Piece)
    requires At(s, i, SpecOf(p))
    ensures var j := i + |HeadText(p)|;
            var k := j + |PointText(p.precision)|;
            && j < |s| && s[j] == (PointText(p.precision) + TailText(p))[0]
            && k < |s| && s[k] == TailText(p)[0]
  {
    hide At, HeadText, PointText, SpecOf;
    SpecPlaces(s, i, p);
    CharOf(s, i + |HeadText(p)| + |PointText(p.precision)|, TailText(p), 0);
    CharOf(s, i + |HeadText(p)|, PointText(p.precision) + TailText(p), 0);
  }

  lemma {:induction false} TailStarts(p: Piece)
    requires IsType(p.kind)
    ensures var c := TailText(p)[0];
            !(Syntax.IsDigit(c) || IsFlag(c) || c == '%' || c == '$' || c == '.' || c == '*')
    ensures var c := (PointText(p.precision) + TailText(p))[0];
            if p.precision.Absent? then c == TailText(p)[0] else c == '.'
  {
  }

  /** The argument a conversion takes once its width and precision are known. */
  lemma {:induction false} ArgMeans(index: int, next: int, args: seq<Arg>)
    requires index != 0
    ensures GetArg(index, next, args)
         == if index > 0 then
              if next > 0 || index > |args| then None else Some((args[index - 1], -1))
            else if 0 <= next < |args| then Some((args[next], next + 1))
            else None
  {
  }

  /** A conversion once its precision is known, and once its width is, and from the start. */
  function AfterPoint(p: Piece, width: int, precision: int, at: int, args: seq<Arg>, w: Writer): Option<(string, int)> {
    var arg :- GetArg(IndexOf(p), at, args);
    var text :- Show(p, width, precision, arg.0, w);
    Some((text, arg.1))
  }

  function AfterWidth(p: Piece, width: int, at: int, args: seq<Arg>, w: Writer): Option<(string, int)> {
    var precision :- PrecisionFor(p, at, args);
    AfterPoint(p, width, precision, at + Stars(p.precision), args, w)
  }

  function InSteps(p: Piece, next: int, args: seq<Arg>, w: Writer): Option<(string, int)> {
    var width :- WidthFor(p, next, args);
    AfterWidth(p, width, next + Stars(p.width), args, w)
  }

  lemma {:induction false} StepsMean(p: Piece, next: int, args: seq<Arg>, w: Writer)
    requires Written(p)
    ensures InSteps(p, next, args, w) == Printed(p, next, args, w)
  {
    hide Show, GetArg, AsWidth, AsPrecision, IsType;
    ArgMeans(IndexOf(p), next + Stars(p.width) + Stars(p.precision), args);
  }

  /** A result as the formatter passes it on. */
  function Ending(r: Option<(string, int)>, end: nat): Option<Converted> {
    match r
    case None => None
    case Some(v) => Some(Converted(v.0, end, v.1))
  }

  lemma {:induction false} PointStep(s: string, p: Piece, h: Header, width: int, precision: int, args: seq<Arg>,
          w: Writer)
    requires IsType(p.kind) && precision >= -1 && At(s, h.end, TailText(p)) && h.index == IndexOf(p)
    requires h.specs == Widened(Flagged(p.flags), width).(precision := precision)
    ensures (match GetArg(h.index, h.next, args)
             case None => None
             case Some(arg) => Convert(s, h, arg.0, arg.1, w))
         == Ending(AfterPoint(p, width, precision, h.next, args, w), h.end + |TailText(p)|)
  {
    var arg := GetArg(h.index, h.next, args);
    hide At, GetArg, Convert, Flagged, Widened, Show, TailText, IsType;
    if arg.Some? {
      ConvertMeans(s, p, h, width, precision, arg.value.0, arg.value.1, w);
    }
  }

  /** The formatter, once the header is read. */
  function AfterHeader(s: string, h: Header, args: seq<Arg>, w: Writer): Option<Converted>
    requires 0 < |s| && h.end <= |s|
  {
    var u :- ParsePrecisionAt(s, h, args);
    var arg :- GetArg(u.index, u.next, args);
    Convert(s, u, arg.0, arg.1, w)
  }

  lemma {:induction false} ConversionIs(s: string, i: nat, next: int, args: seq<Arg>, w: Writer)
    requires 0 < i <= |s|
    ensures Conversion(s, i, next, args, w)
         == (match ParseHeaderAt(s, i, next, args)
             case None => None
             case Some(h) => if h.index == 0 then None else AfterHeader(s, h, args, w))
  {
    hide ParseHeaderAt, ParsePrecisionAt, GetArg, Convert;
  }

  lemma {:induction false} WidthStep(s: string, p: Piece, h: Header, width: int, args: seq<Arg>, w: Writer)
    requires Written(p) && h.index == IndexOf(p) && h.specs == Widened(Flagged(p.flags), width)
    requires At(s, h.end, PointText(p.precision)) && At(s, h.end + |PointText(p.precision)|, TailText(p))
    requires var e := h.end + |PointText(p.precision)|;
             e < |s| && !Syntax.IsDigit(s[e]) && s[e] != '.' && s[e] != '*'
    ensures AfterHeader(s, h, args, w)
         == Ending(AfterWidth(p, width, h.next, args, w), h.end + |PointText(p.precision)| + |TailText(p)|)
  {
    var e := h.end + |PointText(p.precision)|;
    PrecisionBound(p, h.next, args);
    assert IsType(p.kind) && h.specs.precision == -1;
    hide At, GetArg, Convert, Flagged, Widened, Show, TailText, PointText, IsType, ParsePrecisionAt;
    hide AfterPoint, PrecisionFor, Stars;
    PointMeans(s, p, h, args);
    var u := PointOf(p, h, e, args);
    if u.Some? {
      PointStep(s, p, u.value, width, PrecisionFor(p, h.next, args).value, args, w);
    }
  }

  lemma {:induction false} PrecisionBound(p: Piece, at: int, args: seq<Arg>)
    ensures PrecisionFor(p, at, args).Some? ==> PrecisionFor(p, at, args).value >= -1
  {
  }

  lemma {:induction false} HeaderStep(s: string, i: nat, p: Piece, next: int, args: seq<Arg>)
    requires Written(p) && At(s, i, SpecOf(p))
    ensures i + |HeadText(p)| <= |s| && ParseHeaderAt(s, i, next, args) == HeaderOf(p, i + |HeadText(p)|, next, args)
  {
    hide HeadText, SpecOf, At, ParseHeaderAt, HeaderOf, WidthEnds;
    SpecPlaces(s, i, p);
    SpecParts(s, i, p);
    HeaderMeans(s, i, p, next, args);
  }

  lemma {:induction false} RestStep(s: string, i: nat, p: Piece, h: Header, width: int, args: seq<Arg>, w: Writer)
    requires Written(p) && At(s, i, SpecOf(p)) && h.end == i + |HeadText(p)| <= |s|
    requires h.index == IndexOf(p) && h.specs == Widened(Flagged(p.flags), width)
    ensures AfterHeader(s, h, args, w) == Ending(AfterWidth(p, width, h.next, args, w), i + |SpecOf(p)|)
  {
    hide HeadText, PointText, TailText, SpecOf, At, WidthEnds, AfterHeader, AfterWidth, Flagged, Widened, Written;
    SpecPlaces(s, i, p);
    SpecParts(s, i, p);
    WidthStep(s, p, h, width, args, w);
  }

  /** One conversion: what it prints, where it ends, and which argument is next. */
  lemma {:induction false} OneConversion(s: string, i: nat, p: Piece, next: int, args: seq<Arg>, w: Writer)
    requires 0 < i && Written(p) && At(s, i, SpecOf(p))
    ensures Conversion(s, i, next, args, w) == Ending(Printed(p, next, args, w), i + |SpecOf(p)|)
  {
    assert IndexOf(p) != 0;
    hide HeadText, SpecOf, At, ParseHeaderAt, AfterHeader, Conversion, Flagged, Written;
    hide Printed, WidthFor, Stars, Widened, AfterWidth, IndexOf;
    HeaderStep(s, i, p, next, args);
    ConversionIs(s, i, next, args, w);
    StepsMean(p, next, args, w);
    var h := HeaderOf(p, i + |HeadText(p)|, next, args);
    if h.Some? {
      RestStep(s, i, p, h.value, WidthFor(p, next, args).value, args, w);
    }
  }

  // ---- Whole formats ----

  /** Text with each '%' doubled, in the middle of a format. */
  lemma {:induction false} DoubledPrefix(pre: string, t: string, rest: string, next: int, args: seq<Arg>, w: Writer)
    ensures var s := pre + Double(t) + rest;
            FormatFrom(s, |pre|, next, args, w)
            == Prepend(t, FormatFrom(s, |pre| + |Double(t)|, next, args, w))
    decreases |t|
  {
    var s := pre + Double(t) + rest;
    if t == "" {
      hide FormatFrom;
      assert s == pre + rest;
      Prepending("", FormatFrom(s, |pre|, next, args, w));
    } else {
      var head := if t[0] == '%' then "%%" else [t[0]];
      assert s == (pre + head) + Double(t[1..]) + rest;
      DoubledPrefix(pre + head, t[1..], rest, next, args, w);
      assert s[|pre|] == head[0] && (t[0] == '%' ==> s[|pre| + 1] == '%');
      DoubledHead(s, |pre|, t[0], next, args, w);
      hide FormatFrom;
      PrependTwice([t[0]], t[1..], FormatFrom(s, |pre| + |Double(t)|, next, args, w));
      assert [t[0]] + t[1..] == t;
    }
  }

  lemma {:induction false} DoubledHead(s: string, i: nat, c: char, next: int, args: seq<Arg>, w: Writer)
    requires i < |s| && s[i] == c && (c == '%' ==> i + 1 < |s| && s[i + 1] == '%')
    ensures FormatFrom(s, i, next, args, w)
         == Prepend([c], FormatFrom(s, i + if c == '%' then 2 else 1, next, args, w))
  {
    hide Conversion, Prepend;
  }

  /** A conversion where formatting has got to. */
  lemma {:induction false} ConversionHere(s: string, i: nat, p: Piece, next: int, args: seq<Arg>, w: Writer)
    requires Written(p) && At(s, i, "%" + SpecOf(p))
    ensures FormatFrom(s, i, next, args, w)
         == (match Printed(p, next, args, w)
             case None => None
             case Some(r) => Prepend(r.0, FormatFrom(s, i + 1 + |SpecOf(p)|, r.1, args, w)))
  {
    hide At, Written, Printed, SpecOf, Conversion, Prepend, FormatFrom;
    AtConcat(s, i, "%", SpecOf(p));
    CharOf(s, i, "%", 0);
    SpecStarts(p);
    CharOf(s, i + 1, SpecOf(p), 0);
    OneConversion(s, i + 1, p, next, args, w);
    LiteralThenConversion(s, i, i, next, args, w);
    var r := Printed(p, next, args, w);
    if r.Some? {
      assert s[i..i] + r.value.0 == r.value.0;
    }
  }

  lemma {:induction false} SpecStarts(p: Piece)
    requires Written(p)
    ensures SpecOf(p) != "" && SpecOf(p)[0] != '%'
  {
    TailStarts(p);
    if HeadText(p) != "" {
      HeadStarts(p);
    }
    hide HeadText, PointText, TailText, IsFlag, Syntax.IsDigit;
  }

  lemma {:induction false} HeadStarts(p: Piece)
    requires Written(p) && HeadText(p) != ""
    ensures HeadText(p)[0] != '%'
  {
    var c := HeadText(p)[0];
    if p.index.Some? {
      assert c == Decimal(p.index.value)[0] && c in Decimal(p.index.value);
    } else if p.flags != "" {
      assert c == p.flags[0] && c in p.flags;
    } else {
      assert c == AmountText(p.width)[0] && c in AmountText(p.width);
    }
  }

  /**
   Main result: a format of any pieces, with any text behind, prints each piece in turn, each
   conversion with the arguments it takes from where the one before left off; it fails if and
   only if one of them has no such arguments, or they cannot be shown so.
   */
  lemma {:induction false} FormatMeans(pre: string, pieces: seq<Piece>, tail: string, next: int, args: seq<Arg>,
          w: Writer)
    requires forall p <- pieces :: Written(p)
    ensures FormatFrom(pre + FormatText(pieces) + Double(tail), |pre|, next, args, w)
         == (match Meaning(pieces, next, args, w)
             case None => None
             case Some(r) => Some(r + tail))
    decreases |pieces|
  {
    var s := pre + FormatText(pieces) + Double(tail);
    hide FormatFrom, Double, Written, Printed, SpecOf;
    if pieces == [] {
      assert s == pre + Double(tail) && "" + tail == tail;
      DoubledText(pre, tail, next, args, w);
    } else {
      var p, more := pieces[0], FormatText(pieces[1..]) + Double(tail);
      assert p in pieces && forall q <- pieces[1..] :: q in pieces;
      var conv := "%" + SpecOf(p);
      var front := pre + Double(p.text);
      assert s == front + (conv + more);
      DoubledPrefix(pre, p.text, conv + more, next, args, w);
      assert At(s, |front|, conv);
      ConversionHere(s, |front|, p, next, args, w);
      var one := Printed(p, next, args, w);
      if one.Some? {
        assert s == (front + conv) + FormatText(pieces[1..]) + Double(tail);
        FormatMeans(front + conv, pieces[1..], tail, one.value.1, args, w);
        Joined(p.text, one.value.0, Meaning(pieces[1..], one.value.1, args, w), tail);
      }
    }
  }

  lemma {:induction false} Joined(a: string, b: string, rest: Option<string>, tail: string)
    ensures Prepend(a, Prepend(b, match rest case None => None case Some(r) => Some(r + tail)))
         == match Prepend(a + b, rest) case None => None case Some(r) => Some(r + tail)
  {
    if rest.Some? {
      assert a + (b + (rest.value + tail)) == a + b + rest.value + tail;
    }
  }

  // ---- What this means for the order of arguments ----

  /** No index and no star. */
  predicate Simple(p: Piece) {
    p.index.None? && !p.width.Star? && !p.precision.Star?
  }

  /** The texts of pieces, each conversion with the argument at the same place. */
  function InOrder(pieces: seq<Piece>, args: seq<Arg>, w: Writer): Option<string>
    requires |pieces| <= |args|
  {
    if pieces == [] then Some("")
    else
      var p := pieces[0];
      var text :- Show(p, Literal(p.width), PrecisionWritten(p), args[0], w);
      Prepend(p.text + text, InOrder(pieces[1..], args[1..], w))
  }

  /** Conversions without index or star take the arguments in order, and fail if there are too few. */
  lemma {:induction false} SimpleInOrder(pieces: seq<Piece>, next: nat, args: seq<Arg>, w: Writer)
    requires forall p <- pieces :: Simple(p)
    ensures Meaning(pieces, next, args, w)
         == if next + |pieces| <= |args| then InOrder(pieces, args[next..], w)
            else if pieces == [] then Some("") else None
    decreases |pieces|
  {
    hide Show;
    if pieces != [] {
      var p := pieces[0];
      assert p in pieces && forall q <- pieces[1..] :: q in pieces;
      SimpleInOrder(pieces[1..], next + 1, args, w);
      if next < |args| {
        assert args[next..][1..] == args[next + 1..];
      }
    }
  }

  /** After a conversion with an index none without one can follow, and the other way round. */
  lemma {:induction false} NoMixing(p: Piece, q: Piece, next: int, args: seq<Arg>, w: Writer)
    requires p.index.Some? != q.index.Some? && next >= -1
    ensures Meaning([p, q], next, args, w) == None
  {
    hide Show;
    assert [p, q][1..] == [q];
  }
}
