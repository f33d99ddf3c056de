/**
 Integral durations (`src/3rdparty/fmt/chrono.h`): conversions between integer types, the
 overflow-checked `safe_duration_cast`, and the clock text of `chrono_formatter`.
 */
module Duration {
  import opened Arithmetic
  import opened Decimals
  import opened FormatSyntax
  import opened Options

  // ---- Machine integers ----

  datatype Layout = Layout(signed: bool, bits: nat) {
    /** `numeric_limits::digits` */
    function Digits(): nat {
      if signed && bits > 0 then bits - 1 else bits
    }

    function Max(): int {
      Pow2(Digits()) - 1
    }

    function Min(): int {
      if signed then 0 - Pow2(Digits()) else 0
    }

    predicate Fits(x: int) {
      Min() <= x <= Max()
    }

    /** What a `static_cast` or an arithmetic operation leaves of the exact value `x`. */
    function Wrap(x: int): (w: int)
      requires bits > 0
      ensures Fits(w)
      ensures Fits(x) ==> w == x
    {
      assert Fits(x) ==> (x - Min()) % Pow2(bits) == x - Min() by {
        if Fits(x) { ModUnique(x - Min(), Pow2(bits), 0, x - Min()); }
      }
      (x - Min()) % Pow2(bits) + Min()
    }
  }

  type IntType = t: Layout | 8 <= t.bits <= 64 witness Layout(true, 8)

  const INTMAX: IntType := Layout(true, 64)

  lemma {:induction false} Pow2Mono(a: nat, b: nat)
    requires a <= b
    ensures Pow2(a) <= Pow2(b)
  {
    if a < b {
      Pow2Mono(a, b - 1);
    }
  }

  /** The three overloads of `lossless_integral_conversion` (chrono.h:35-102). */
  method LosslessConversion(from: int, f: IntType, t: IntType) returns (to: int, ec: int)
    requires f.Fits(from)
    ensures ec == 0 <==> t.Fits(from)
    ensures to == if ec == 0 then from else 0
  {
    if f.Digits() <= t.Digits() {
      Pow2Mono(f.Digits(), t.Digits());
    } else {
      Pow2Mono(t.Digits(), f.Digits());
    }
    if f == t {
      return from, 0;
    }
    if f.signed == t.signed {
      if f.Digits() > t.Digits() && (from < t.Min() || from > t.Max()) {
        return 0, 1;
      }
    } else {
      if f.signed && !t.signed {
        if from < 0 {
          return 0, 1;
        }
        if f.Digits() > t.Digits() && from > f.Wrap(t.Max()) {
          return 0, 1;
        }
      }
      if !f.signed && t.signed && f.Digits() >= t.Digits() && from > f.Wrap(t.Max()) {
        return 0, 1;
      }
    }
    return t.Wrap(from), 0;
  }

  // ---- safe_duration_cast ----

  /** Division in C truncates toward zero. */
  function TruncDiv(x: int, d: int): int
    requires d > 0
  {
    if x >= 0 then x / d else -(-x / d)
  }

  /** `common_type` of both representations and `intmax_t`, for types of at most 64 bits. */
  function Intermediate(f: IntType, t: IntType): IntType {
    if f == Layout(false, 64) || t == Layout(false, 64) then Layout(false, 64) else INTMAX
  }

  /** The exact result of a cast by the factor `num / den`, or `None` where it is refused. */
  function Cast(count: int, f: IntType, t: IntType, num: int, den: int): Option<int>
    requires den > 0
  {
    var i := Intermediate(f, t);
    if i.Fits(count) && i.Fits(count * num) && t.Fits(TruncDiv(count * num, den))
    then Some(TruncDiv(count * num, den)) else None
  }

  lemma {:induction false} Bound(x: int, m: nat, num: int)
    requires num > 0
    ensures x > m / num <==> x * num > m
  {
    DivMod(m, num);
    if x > m / num {
      var k := x - m / num - 1;
      assert x * num == num * (m / num) + num + k * num;
      assert k * num >= 0;
    } else {
      var k := m / num - x;
      assert x * num == num * (m / num) - k * num;
      assert k * num >= 0;
    }
  }

  lemma {:induction false} DivBounds(y: nat, d: int)
    requires d > 0
    ensures y / d * d <= y < y / d * d + d && y / d <= y
  {
    DivMod(y, d);
    MulMono(y / d, 1, d);
  }

  lemma {:induction false} TimesMinus(q: int, d: int)
    ensures -q * d == -(q * d)
  {
  }

  lemma {:induction false} TruncatesTowardZero(x: int, d: int)
    requires d > 0
    ensures x >= 0 ==> TruncDiv(x, d) * d <= x < TruncDiv(x, d) * d + d && 0 <= TruncDiv(x, d) <= x
    ensures x <= 0 ==> TruncDiv(x, d) * d - d < x <= TruncDiv(x, d) * d && x <= TruncDiv(x, d) <= 0
  {
    var y := if x >= 0 then x else -x;
    DivBounds(y, d);
    TimesMinus(y / d, d);
    if x == 0 {
      ModUnique(0, d, 0, 0);
    }
  }

  /** The two comparisons made before the multiplication. */
  lemma {:induction false} MultiplicationGuards(i: IntType, count: int, num: int)
    requires num > 0
    ensures count > TruncDiv(i.Max(), num) <==> count * num > i.Max()
    ensures count < TruncDiv(i.Min(), num) <==> count * num < i.Min()
  {
    hide Pow2;
    Bound(count, i.Max(), num);
    Bound(-count, -i.Min(), num);
    TimesMinus(count, num);
    if i.Min() == 0 {
      ModUnique(0, num, 0, 0);
    }
  }

  lemma {:induction false} QuotientFits(i: IntType, x: int, den: int)
    requires den > 0 && i.Fits(x)
    ensures i.Fits(TruncDiv(x, den))
    ensures TruncDiv(x, 1) == x
  {
    hide TruncDiv;
    TruncatesTowardZero(x, den);
    TruncatesTowardZero(x, 1);
  }

  /** `safe_duration_cast` for integral durations (chrono.h:151-197). */
  method SafeDurationCast(from: int, f: IntType, t: IntType, num: int, den: int) returns (to: int, ec: int)
    requires f.Fits(from)
    requires 0 < num <= INTMAX.Max() && 0 < den <= INTMAX.Max()
    ensures Cast(from, f, t, num, den) == if ec == 0 then Some(to) else None
    ensures ec != 0 ==> to == 0
  {
    hide TruncDiv, Pow2, Intermediate;
    var i := Intermediate(f, t);
    var count;
    count, ec := LosslessConversion(from, f, i);
    if ec != 0 {
      return 0, ec;
    }
    if num != 1 {
      MultiplicationGuards(i, count, num);
      var max1 := TruncDiv(i.Max(), num);
      if count > max1 {
        return 0, 1;
      }
      var min1 := TruncDiv(i.Min(), num);
      if count < min1 {
        return 0, 1;
      }
      count := i.Wrap(count * num);
    }
    assert count == from * num;
    QuotientFits(i, count, den);
    if den != 1 {
      count := i.Wrap(TruncDiv(count, den));
    }
    to, ec := LosslessConversion(count, i, t);
  }

  /** A cast to a period `n` times finer can be undone. */
  lemma {:induction false} CastBack(count: int, f: IntType, t: IntType, n: int)
    requires n > 0 && f.Fits(count) && Cast(count, f, t, n, 1).Some?
    ensures Cast(Cast(count, f, t, n, 1).value, t, f, 1, n) == Some(count)
  {
    hide TruncDiv, Pow2;
    var i, fine := Intermediate(f, t), count * n;
    QuotientFits(i, fine, n);
    Undone(count, n);
    assert fine * 1 == fine;
  }

  lemma {:induction false} Undone(count: int, n: int)
    requires n > 0
    ensures TruncDiv(count * n, n) == count
  {
    if count >= 0 {
      ModUnique(count * n, n, count, 0);
      MulMono(n, 0, count);
    } else {
      ModUnique(-(count * n), n, -count, 0);
      MulMono(n, 1, -count);
    }
  }

  /** Casts keep the order of the durations they accept. */
  lemma {:induction false} CastMonotone(a: int, b: int, f: IntType, t: IntType, num: int, den: int)
    requires a <= b && num > 0 && den > 0
    requires Cast(a, f, t, num, den).Some? && Cast(b, f, t, num, den).Some?
    ensures Cast(a, f, t, num, den).value <= Cast(b, f, t, num, den).value
  {
    hide TruncDiv, Pow2;
    MulMono(num, 0, b - a);
    Distribute(num, b, -a);
    TimesMinus(a, num);
    TruncDivMonotone(a * num, b * num, den);
  }

  lemma {:induction false} TruncDivMonotone(x: int, y: int, d: int)
    requires x <= y && d > 0
    ensures TruncDiv(x, d) <= TruncDiv(y, d)
  {
    hide TruncDiv;
    TruncatesTowardZero(x, d);
    TruncatesTowardZero(y, d);
    var p, q := TruncDiv(x, d), TruncDiv(y, d);
    if p > q {
      TimesMore(p, q, d);
    }
  }

  lemma {:induction false} TimesMore(p: int, q: int, d: int)
    requires p > q && d > 0
    ensures p * d >= q * d + d
  {
    var k := p - q - 1;
    assert p * d == q * d + d + k * d;
  }

  // ---- Clock text ----

  /** `chrono_formatter::rep`: unsigned and at least as wide as `int`. */
  function Unsigned(rep: IntType): IntType {
    Layout(false, if rep.bits < 32 then 32 else rep.bits)
  }

  function Abs(d: int): nat {
    if d < 0 then -d else d
  }

  lemma {:induction false} AbsFits(d: int, rep: IntType)
    requires rep.Fits(d)
    ensures Unsigned(rep).Fits(Abs(d))
  {
    Pow2Mono(rep.Digits(), Unsigned(rep).bits - if rep.signed then 1 else 0);
  }

  /** A duration in whole seconds is never refused. */
  lemma {:induction false} SecondsAccepted(d: int, rep: IntType)
    requires rep.Fits(d)
    ensures Cast(Abs(d), Unsigned(rep), Unsigned(rep), 1, 1) == Some(Abs(d))
  {
    AbsFits(d, rep);
    var u := Unsigned(rep);
    UnsignedFits(u, Abs(d));
    QuotientFits(u, Abs(d), 1);
    hide Pow2, TruncDiv, Intermediate;
    assert Abs(d) * 1 == Abs(d);
  }

  /** The intermediate type holds what an unsigned type does. */
  lemma {:induction false} UnsignedFits(u: IntType, x: nat)
    requires !u.signed && u.Fits(x)
    ensures Intermediate(u, u).Fits(x)
  {
    if u.bits < 64 {
      Pow2Mono(u.bits, INTMAX.Digits());
    }
  }

  lemma {:induction false} Negation(d: int, u: IntType)
    requires !u.signed && d < 0 && u.Fits(-d)
    ensures u.Wrap(0 - u.Wrap(d)) == -d
  {
    var p := Pow2(u.bits);
    ModUnique(d, p, -1, d + p);
    ModUnique(-(d + p), p, -1, -d);
  }

  function Zeros(n: nat): (r: string) {
    if n == 0 then "" else Zeros(n - 1) + "0"
  }

  /** `value` in decimal, filled up with zeros. */
  function Padded(value: nat, width: nat): string {
    Zeros(if width > |Decimal(value)| then width - |Decimal(value)| else 0) + Decimal(value)
  }

  function SignText(negative: bool): string {
    if negative then "-" else ""
  }

  function MinuteText(negative: bool, s: nat): string {
    SignText(negative) + Padded(s / 3600 % 24, 2) + ":" + Padded(s / 60 % 60, 2)
  }

  function ClockText(negative: bool, s: nat): string {
    MinuteText(negative, s) + ":" + Padded(s % 60, 2)
  }

  /** The hour on the face of a clock. */
  function Twelve(hours: nat): nat {
    if hours % 12 == 0 then 12 else hours % 12
  }

  /** What a conversion prints of a time of day. */
  function ConversionText(letter: char, negative: bool, s: nat): string {
    match letter
    case 'H' => SignText(negative) + Padded(s / 3600 % 24, 2)
    case 'I' => SignText(negative) + Padded(Twelve(s / 3600), 2)
    case 'M' => SignText(negative) + Padded(s / 60 % 60, 2)
    case 'R' => MinuteText(negative, s)
    case _ => ClockText(negative, s)
  }

  /** The short forms are the long ones, with the sign written once. */
  lemma {:induction false} ShortForms(negative: bool, s: nat)
    ensures ConversionText('R', negative, s)
         == ConversionText('H', negative, s) + ":" + ConversionText('M', false, s)
    ensures ConversionText('T', negative, s) == ConversionText('R', negative, s) + ":" + Padded(s % 60, 2)
  {
    hide Padded;
    assert SignText(false) + Padded(s / 60 % 60, 2) == Padded(s / 60 % 60, 2);
  }

  /** A reader of the text: an optional sign, then three groups of two digits. */
  function ReadPair(text: string, i: nat): Option<nat>
    requires i + 2 <= |text|
  {
    if IsDigit(text[i]) && IsDigit(text[i + 1])
    then Some(10 * DigitValue(text[i]) + DigitValue(text[i + 1])) else None
  }

  function ReadClock(text: string): Option<(bool, nat)> {
    var start := if text != "" && text[0] == '-' then 1 else 0;
    if |text| != start + 8 || text[start + 2] != ':' || text[start + 5] != ':' then None
    else
      var h :- ReadPair(text, start);
      var m :- ReadPair(text, start + 3);
      var s :- ReadPair(text, start + 6);
      Some((start == 1, h * 3600 + m * 60 + s))
  }

  lemma {:induction false} PairPadded(v: nat)
    requires v < 100
    ensures Padded(v, 2) == [Digit(v / 10), Digit(v % 10)]
  {
    if v < 10 {
      assert Decimal(v) == [Digit(v)];
      assert Zeros(1) == Zeros(0) + "0" == "0" == [Digit(0)];
      assert Padded(v, 2) == [Digit(0)] + [Digit(v)];
    } else {
      assert Decimal(v / 10) == [Digit(v / 10)];
      assert Decimal(v) == [Digit(v / 10)] + [Digit(v % 10)];
      assert Padded(v, 2) == "" + Decimal(v);
    }
  }

  /** Hour, minute and second make up the time of day. */
  lemma {:induction false} TimeOfDay(s: nat)
    ensures s / 3600 % 24 * 3600 + s / 60 % 60 * 60 + s % 60 == s % 86400
    ensures s / 3600 % 24 < 24 && s / 60 % 60 < 60 && s % 60 < 60
  {
    DivideTwice(s, 60, 60);
    DivideTwice(s, 3600, 24);
  }

  /** The `%T` text reads back to the sign and the time of day. */
  lemma {:induction false} ClockRoundTrip(negative: bool, s: nat)
    ensures ReadClock(ClockText(negative, s)) == Some((negative, s % 86400))
  {
    TimeOfDay(s);
    ReadsBack(negative, s / 3600 % 24, s / 60 % 60, s % 60);
    hide ReadClock, Padded, SignText;
  }

  lemma {:induction false} ReadsBack(negative: bool, h: nat, m: nat, s: nat)
    requires h < 100 && m < 100 && s < 100
    ensures ReadClock(SignText(negative) + Padded(h, 2) + ":" + Padded(m, 2) + ":" + Padded(s, 2))
         == Some((negative, h * 3600 + m * 60 + s))
  {
    hide Padded, Digit;
    PairPadded(h);
    PairPadded(m);
    PairPadded(s);
    var text := SignText(negative) + Padded(h, 2) + ":" + Padded(m, 2) + ":" + Padded(s, 2);
    var i := if negative then 1 else 0;
    assert text[i] == Digit(h / 10) && text[i + 1] == Digit(h % 10) && text[i + 2] == ':';
    assert text[i + 3] == Digit(m / 10) && text[i + 4] == Digit(m % 10) && text[i + 5] == ':';
    assert text[i + 6] == Digit(s / 10) && text[i + 7] == Digit(s % 10);
  }

  /** End to end: a duration in seconds, of any integral type, is read back modulo a day. */
  lemma {:induction false} SecondsRoundTrip(d: int, rep: IntType)
    requires rep.Fits(d)
    ensures var s := Cast(Abs(d), Unsigned(rep), Unsigned(rep), 1, 1);
            s.Some? && s.value >= 0 && ReadClock(ClockText(d < 0, s.value)) == Some((d < 0, Abs(d) % 86400))
  {
    SecondsAccepted(d, rep);
    ClockRoundTrip(d < 0, Abs(d));
  }

  lemma {:induction false} HalfDay(h: nat)
    ensures h % 24 % 12 == h % 12
  {
  }

  lemma {:induction false} AppendMinute(before: string, sign: string, hour: string, minute: string)
    ensures before + sign + hour + ":" + "" + minute == before + (sign + hour + ":" + minute)
  {
  }

  lemma {:induction false} TwelveIs(x: int, hours: nat)
    requires 1 <= x <= 12 && x % 12 == hours % 24 % 12
    ensures x == Twelve(hours)
  {
    HalfDay(hours);
  }

  lemma {:induction false} Rejoin(before: string, sign: string, text: string)
    ensures before + sign + text == before + (sign + text)
  {
  }

  lemma {:induction false} EmptySign()
    ensures SignText(false) == ""
  {
  }

  lemma {:induction false} AppendThree(before: string, minutes: string, seconds: string)
    ensures before + minutes + ":" + "" + seconds == before + (minutes + ":" + seconds)
  {
  }

  /** `chrono_formatter` (chrono.h:789-1007); `ok` is false if its construction throws. */
  class ChronoFormatter {
    const rep: IntType
    var ok: bool
    var out: string
    var val: nat
    var s: nat
    var negative: bool

    constructor (d: int, rep: IntType, num: int, den: int)
      requires rep.Fits(d)
      requires 0 < num <= INTMAX.Max() && 0 < den <= INTMAX.Max()
      ensures this.rep == rep && out == "" && val == Abs(d) && negative == (d < 0)
      ensures (if ok then Some(s) else None) == Cast(Abs(d), Unsigned(rep), Unsigned(rep), num, den)
    {
      var u := Unsigned(rep);
      var v, minus := u.Wrap(d), false;
      AbsFits(d, rep);
      if d < 0 {
        Negation(d, u);
        v := u.Wrap(0 - v);
        minus := true;
      }
      assert v == Abs(d);
      var seconds, ec := SafeDurationCast(v, u, u, num, den);
      this.rep, val, negative, out := rep, v, minus, "";
      ok, s := ec == 0, seconds;
    }

    /** The value a member function returns: `mod(..)` cast back to `Rep`. */
    function Hour(): (h: int)
      reads this
      ensures h == s / 3600 % 24
    {
      FitsSmall(rep, s / 3600 % 24);
      rep.Wrap(s / 3600 % 24)
    }

    function Hour12(): (h: int)
      reads this
      ensures 1 <= h <= 12 && h % 12 == Hour() % 12
    {
      FitsSmall(rep, s / 3600 % 12);
      HalfDay(s / 3600);
      var hour := rep.Wrap(s / 3600 % 12);
      if hour <= 0 then 12 else hour
    }

    function Minute(): (m: int)
      reads this
      ensures m == s / 60 % 60
    {
      FitsSmall(rep, s / 60 % 60);
      rep.Wrap(s / 60 % 60)
    }

    function Second(): (r: int)
      reads this
      ensures r == s % 60
    {
      FitsSmall(rep, s % 60);
      rep.Wrap(s % 60)
    }

    method WriteSign()
      modifies `out, `negative
      ensures out == old(out) + SignText(old(negative)) && !negative
    {
      if negative {
        out := out + "-";
        negative := false;
      }
    }

    method Write(value: int, width: nat)
      requires 0 <= value <= MAX_INT
      modifies `out, `negative
      ensures out == old(out) + SignText(old(negative)) + Padded(value, width) && !negative
    {
      WriteSign();
      var numDigits := |Decimal(value)|;
      ghost var zeros := if width > numDigits then width - numDigits else 0;
      ghost var before := out;
      if width > numDigits {
        out := out + Zeros(width - numDigits);
      }
      assert out == before + Zeros(zeros);
      out := out + Decimal(value);
    }

    method On24HourTime()
      modifies `out, `negative
      ensures out == old(out) + MinuteText(old(negative), s) && !negative
    {
      hide Padded, SignText;
      AppendMinute(out, SignText(negative), Padded(Hour(), 2), Padded(Minute(), 2));
      EmptySign();
      Write(Hour(), 2);
      out := out + ":";
      Write(Minute(), 2);
    }

    method OnIsoTime()
      modifies `out, `negative
      ensures out == old(out) + ClockText(old(negative), s) && !negative
    {
      hide Padded, MinuteText;
      On24HourTime();
      AppendThree(old(out), MinuteText(old(negative), s), Padded(Second(), 2));
      out := out + ":";
      Write(Second(), 2);
    }

    /**
     The handler's call for a conversion of the parser (chrono.h:523-558), for those that write
     digits only; a sign is written once, by the first of them.
     */
    method OnConversion(letter: char) returns (known: bool)
      modifies `out, `negative
      ensures known <==> letter == 'H' || letter == 'I' || letter == 'M' || letter == 'R' || letter == 'T'
      ensures known ==> !negative && out == old(out) + ConversionText(letter, old(negative), s)
    {
      hide Padded, MinuteText, ClockText, SignText, Twelve;
      known := true;
      match letter {
        case 'H' =>
          Rejoin(out, SignText(negative), Padded(Hour(), 2));
          Write(Hour(), 2);
        case 'I' =>
          TwelveIs(Hour12(), s / 3600);
          Rejoin(out, SignText(negative), Padded(Hour12(), 2));
          Write(Hour12(), 2);
        case 'M' =>
          Rejoin(out, SignText(negative), Padded(Minute(), 2));
          Write(Minute(), 2);
        case 'R' => On24HourTime();
        case 'T' => OnIsoTime();
        case _ => known := false;
      }
    }
  }

  lemma {:induction false} FitsSmall(rep: IntType, x: nat)
    requires x < 60
    ensures rep.Fits(x)
  {
    Pow2Mono(7, rep.Digits());
    assert Pow2(7) == 128;
  }
}
