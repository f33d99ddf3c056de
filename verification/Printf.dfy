/**
 The printf formatter (`src/3rdparty/fmt/printf.h`): `parse_flags`, `get_arg`,
 `parse_header` and the main loop `format`, as they update `it`, `start`, the specifiers
 and the next argument index.
 */
module Printf {
  import opened Options
  import opened Decimals
  import Syntax = FormatSyntax

  /** An argument, as far as the parser asks: integral, arithmetic, a C string or neither. */
  datatype Arg =
    | Integral(value: int)
    | Floating(tag: nat)
    | CString(text: string)
    | Text(text: string)
    | Other(id: nat)
  {
    predicate IsArithmetic() {
      Integral? || Floating?
    }
  }

  /** `basic_format_specs`, without the presentation type. */
  datatype Specs = Specs(width: int, precision: int, fill: char, align: Syntax.Align, sign: Syntax.Sign, alt: bool)

  const INITIAL := Specs(0, -1, ' ', Syntax.Right, Syntax.NoSign, false)

  datatype Length = NoLength | Char | Short | Long | LongLong | IntMax | Size | PtrDiff | LongDouble

  /**
   How an argument prints: length conversion with the type character `conv`, then the
   argument formatter with presentation type `kind`. Taken as given.
   */
  datatype Writer = Writer(show: (Arg, Specs, Length, char, char) -> Option<string>)

  // ---- Specification ----

  predicate IsFlag(c: char) {
    c == '-' || c == '+' || c == '0' || c == ' ' || c == '#'
  }

  function ApplyFlag(specs: Specs, c: char): Specs {
    if c == '-' then specs.(align := Syntax.Left)
    else if c == '+' then specs.(sign := Syntax.Plus)
    else if c == '0' then specs.(fill := '0')
    else if c == ' ' then if specs.sign != Syntax.Plus then specs.(sign := Syntax.Space) else specs
    else if c == '#' then specs.(alt := true)
    else specs
  }

  function ApplyFlags(specs: Specs, flags: string): Specs
    decreases flags
  {
    if flags == "" then specs else ApplyFlags(ApplyFlag(specs, flags[0]), flags[1..])
  }

  function FlagsEnd(s: string, i: nat): (j: nat)
    requires i <= |s|
    ensures i <= j <= |s|
    ensures forall k :: i <= k < j ==> IsFlag(s[k])
    ensures j < |s| ==> !IsFlag(s[j])
    decreases |s| - i
  {
    if i < |s| && IsFlag(s[i]) then FlagsEnd(s, i + 1) else i
  }

  /** `next_arg_id` and `check_arg_id` (core.h:585-602), then the lookup. */
  function GetArg(index: int, next: int, args: seq<Arg>): Option<(Arg, int)> {
    if index < 0 then
      if 0 <= next < |args| then Some((args[next], next + 1)) else None
    else if next > 0 then None
    else if 1 <= index <= |args| then Some((args[index - 1], -1))
    else None
  }

  /** `printf_width_handler`: a negative width means left alignment. */
  function DynamicWidth(specs: Specs, arg: Arg): Option<Specs> {
    match arg
    case Integral(v) =>
      if v < 0 then
        if -v > Syntax.MAX_INT then None else Some(specs.(align := Syntax.Left, width := -v))
      else if v > Syntax.MAX_INT then None
      else Some(specs.(width := v))
    case _ => None
  }

  /** `printf_precision_handler`: a negative precision counts as zero. */
  function DynamicPrecision(arg: Arg): Option<int> {
    match arg
    case Integral(v) =>
      if v < -Syntax.MAX_INT - 1 || v > Syntax.MAX_INT then None else Some(if v < 0 then 0 else v)
    case _ => None
  }

  /** What `parse_header` returns and leaves behind; `index` is -1 if there is none. */
  datatype Header = Header(index: int, specs: Specs, end: nat, next: int)

  function FlagsAndWidth(s: string, i: nat, specs: Specs, index: int, next: int, args: seq<Arg>): (r: Option<Header>)
    requires i <= |s|
    ensures r.Some? ==> i <= r.value.end <= |s|
  {
    var j := FlagsEnd(s, i);
    var flagged := ApplyFlags(specs, s[i..j]);
    if j == |s| then Some(Header(index, flagged, j, next))
    else if Syntax.IsDigit(s[j]) then
      var n :- Syntax.ParseInt(s, j, 0);
      Some(Header(index, flagged.(width := n.0), n.1, next))
    else if s[j] == '*' then
      var arg :- GetArg(-1, next, args);
      var wide :- DynamicWidth(flagged, arg.0);
      Some(Header(index, wide, j + 1, arg.1))
    else Some(Header(index, flagged, j, next))
  }

  function ParseHeaderAt(s: string, i: nat, next: int, args: seq<Arg>): (r: Option<Header>)
    requires i <= |s|
    ensures r.Some? ==> i <= r.value.end <= |s|
  {
    if i < |s| && Syntax.IsDigit(s[i]) then
      var n :- Syntax.ParseInt(s, i, 0);
      if n.1 < |s| && s[n.1] == '$' then FlagsAndWidth(s, n.1 + 1, INITIAL, n.0, next, args)
      else
        var specs := if s[i] == '0' then INITIAL.(fill := '0') else INITIAL;
        if n.0 != 0 then Some(Header(-1, specs.(width := n.0), n.1, next))
        else FlagsAndWidth(s, n.1, specs, -1, next, args)
    else FlagsAndWidth(s, i, INITIAL, -1, next, args)
  }

  /** The precision step of `format` (printf.h:493-507). */
  function ParsePrecisionAt(s: string, h: Header, args: seq<Arg>): (r: Option<Header>)
    requires h.end <= |s|
    ensures r.Some? ==> h.end <= r.value.end <= |s| && r.value.index == h.index
  {
    var i := h.end;
    if i == |s| || s[i] != '.' then Some(h)
    else if i + 1 < |s| && Syntax.IsDigit(s[i + 1]) then
      var n :- Syntax.ParseInt(s, i + 1, 0);
      Some(h.(specs := h.specs.(precision := n.0), end := n.1))
    else if i + 1 < |s| && s[i + 1] == '*' then
      var arg :- GetArg(-1, h.next, args);
      var p :- DynamicPrecision(arg.0);
      Some(h.(specs := h.specs.(precision := p), end := i + 2, next := arg.1))
    else Some(h.(specs := h.specs.(precision := 0), end := i + 1))
  }

  /** The adjustments between the precision and the length (printf.h:510-531). */
  function Adjust(specs: Specs, arg: Arg): (Specs, Arg) {
    var p := specs.precision;
    var a := if p >= 0 && arg.Integral? then specs.(fill := ' ') else specs;
    var shown := if p >= 0 && arg.CString? then Text(if p < |arg.text| then arg.text[..p] else arg.text) else arg;
    var b := if shown == Integral(0) then a.(alt := false) else a;
    var c := if b.fill != '0' then b
             else if shown.IsArithmetic() && b.align != Syntax.Left then b.(align := Syntax.Numeric)
             else b.(fill := ' ');
    (c, shown)
  }

  function CharAt(s: string, i: nat): char {
    if i < |s| then s[i] else '\0'
  }

  /**
   Length modifier, the character the length conversion looks at, and where the type is
   (printf.h:533-572). At the end of the string the final `--it` backs up onto a character
   that has already been read.
   */
  function ParseLengthAt(s: string, i: nat): (r: (Length, char, nat))
    requires 0 < |s| && i <= |s|
    ensures i <= r.2 <= |s| || (i == |s| && r.2 == |s| - 1)
  {
    var t := CharAt(s, i + 1);
    if i == |s| then (NoLength, '\0', i - 1)
    else if s[i] == 'h' then if t == 'h' then (Char, CharAt(s, i + 2), i + 2) else (Short, t, i + 1)
    else if s[i] == 'l' then if t == 'l' then (LongLong, CharAt(s, i + 2), i + 2) else (Long, t, i + 1)
    else if s[i] == 'j' then (IntMax, t, i + 1)
    else if s[i] == 'z' then (Size, t, i + 1)
    else if s[i] == 't' then (PtrDiff, t, i + 1)
    else if s[i] == 'L' then (LongDouble, '\0', i + 1)
    else (NoLength, s[i], i)
  }

  function Kind(c: char, arg: Arg): char {
    if arg.Integral? && (c == 'i' || c == 'u') then 'd' else c
  }

  /** The text of one conversion. */
  datatype Converted = Converted(text: string, end: nat, next: int)

  function Convert(s: string, h: Header, arg: Arg, next: int, w: Writer): (r: Option<Converted>)
    requires 0 < |s| && h.end <= |s|
    ensures r.Some? ==> h.end <= r.value.end <= |s|
  {
    var (specs, shown) := Adjust(h.specs, arg);
    var (length, conv, at) := ParseLengthAt(s, h.end);
    if at == |s| then None
    else
      var text :- w.show(shown, specs, length, conv, Kind(s[at], shown));
      Some(Converted(text, at + 1, next))
  }

  /** A whole conversion, its '%' being just before `i`. */
  function Conversion(s: string, i: nat, next: int, args: seq<Arg>, w: Writer): (r: Option<Converted>)
    requires 0 < i <= |s|
    ensures r.Some? ==> i <= r.value.end <= |s|
  {
    var h :- ParseHeaderAt(s, i, next, args);
    if h.index == 0 then None
    else
      var p :- ParsePrecisionAt(s, h, args);
      var arg :- GetArg(p.index, p.next, args);
      Convert(s, p, arg.0, arg.1, w)
  }

  /** What formatting means: literal characters, "%%" and conversions, left to right. */
  function FormatFrom(s: string, i: nat, next: int, args: seq<Arg>, w: Writer): Option<string>
    requires i <= |s|
    decreases |s| - i
  {
    if i == |s| then Some("")
    else if s[i] != '%' then Prepend([s[i]], FormatFrom(s, i + 1, next, args, w))
    else if i + 1 < |s| && s[i + 1] == '%' then Prepend("%", FormatFrom(s, i + 2, next, args, w))
    else
      var c :- Conversion(s, i + 1, next, args, w);
      Prepend(c.text, FormatFrom(s, c.end, c.next, args, w))
  }

  // ---- The parser as the source runs it ----

  class FormatSpecs {
    var width: int
    var precision: int
    var fill: char
    var align: Syntax.Align
    var sign: Syntax.Sign
    var alt: bool

    function View(): Specs
      reads this
    {
      Specs(width, precision, fill, align, sign, alt)
    }

    constructor ()
      ensures View() == INITIAL
    {
      width, precision, fill, align, sign, alt := 0, -1, ' ', Syntax.Right, Syntax.NoSign, false;
    }
  }

  /** `basic_printf_context`; a method that can throw says so with `ok`. */
  class PrintfContext {
    const args: seq<Arg>
    var nextArgId: int

    constructor (args: seq<Arg>)
      ensures this.args == args && nextArgId == 0
    {
      this.args := args;
      nextArgId := 0;
    }

    /** printf.h:391-418 */
    method ParseFlags(specs: FormatSpecs, s: string, start: nat) returns (it: nat)
      requires start <= |s|
      modifies specs
      ensures it == FlagsEnd(s, start)
      ensures specs.View() == ApplyFlags(old(specs.View()), s[start..it])
    {
      it := start;
      while it != |s|
        invariant 0 <= start <= it <= |s|
        invariant FlagsEnd(s, start) == FlagsEnd(s, it)
        invariant specs.View() == ApplyFlags(old(specs.View()), s[start..it])
      {
        ghost var before := specs.View();
        match s[it] {
          case '-' => specs.align := Syntax.Left;
          case '+' => specs.sign := Syntax.Plus;
          case '0' => specs.fill := '0';
          case ' ' =>
            if specs.sign != Syntax.Plus {
              specs.sign := Syntax.Space;
            }
          case '#' => specs.alt := true;
          case _ => return;
        }
        assert s[start..it + 1] == s[start..it] + [s[it]];
        ApplyFlagsAppend(old(specs.View()), s[start..it], s[it]);
        it := it + 1;
      }
    }

    /** printf.h:420-428 */
    method FetchArg(argIndex: int) returns (arg: Option<Arg>)
      modifies this
      ensures arg.Some? <==> GetArg(argIndex, old(nextArgId), args).Some?
      ensures arg.Some? ==> GetArg(argIndex, old(nextArgId), args) == Some((arg.value, nextArgId))
    {
      var index := argIndex;
      if index < 0 {
        if nextArgId < 0 {
          return None;
        }
        index := nextArgId;
        nextArgId := nextArgId + 1;
      } else {
        index := index - 1;
        if nextArgId > 0 {
          return None;
        }
        nextArgId := -1;
      }
      return if 0 <= index < |args| then Some(args[index]) else None;
    }

    /** printf.h:430-467 */
    method ParseHeader(s: string, start: nat, specs: FormatSpecs) returns (ok: bool, argIndex: int, it: nat)
      requires start <= |s| && specs.View() == INITIAL
      modifies this, specs
      ensures ok <==> ParseHeaderAt(s, start, old(nextArgId), args).Some?
      ensures ok ==> ParseHeaderAt(s, start, old(nextArgId), args)
                     == Some(Header(argIndex, specs.View(), it, nextArgId))
    {
      ok, argIndex, it := true, -1, start;
      if it != |s| && '0' <= s[it] <= '9' {
        var c := s[it];
        var n := Syntax.ParseInt(s, it, 0);
        if n.None? {
          return false, -1, it;
        }
        var value := n.value.0;
        it := n.value.1;
        if it != |s| && s[it] == '$' {
          it := it + 1;
          argIndex := value;
        } else {
          if c == '0' {
            specs.fill := '0';
          }
          if value != 0 {
            specs.width := value;
            return;
          }
        }
      }
      ok, it := ParseFlagsAndWidth(s, it, specs, argIndex);
    }

    /** The rest of `parse_header`, after an index or zeros (printf.h:454-465). */
    method ParseFlagsAndWidth(s: string, start: nat, specs: FormatSpecs, ghost argIndex: int)
      returns (ok: bool, it: nat)
      requires start <= |s|
      modifies this, specs
      ensures ok <==> FlagsAndWidth(s, start, old(specs.View()), argIndex, old(nextArgId), args).Some?
      ensures ok ==> (FlagsAndWidth(s, start, old(specs.View()), argIndex, old(nextArgId), args)
                      == Some(Header(argIndex, specs.View(), it, nextArgId)))
    {
      ok := true;
      it := ParseFlags(specs, s, start);
      if it != |s| {
        if '0' <= s[it] <= '9' {
          var n := Syntax.ParseInt(s, it, 0);
          if n.None? {
            return false, it;
          }
          specs.width := n.value.0;
          it := n.value.1;
        } else if s[it] == '*' {
          it := it + 1;
          var arg := FetchArg(-1);
          if arg.None? {
            return false, it;
          }
          var wide := DynamicWidth(specs.View(), arg.value);
          if wide.None? {
            return false, it;
          }
          specs.align := wide.value.align;
          specs.width := wide.value.width;
        }
      }
    }

    /** The precision step of `format` (printf.h:493-507). */
    method ParsePrecision(s: string, start: nat, specs: FormatSpecs, ghost argIndex: int) returns (ok: bool, it: nat)
      requires start <= |s|
      modifies this, specs
      ensures ok <==> ParsePrecisionAt(s, Header(argIndex, old(specs.View()), start, old(nextArgId)), args).Some?
      ensures ok ==> (ParsePrecisionAt(s, Header(argIndex, old(specs.View()), start, old(nextArgId)), args)
                      == Some(Header(argIndex, specs.View(), it, nextArgId)))
    {
      ok, it := true, start;
      if it != |s| && s[it] == '.' {
        it := it + 1;
        var c := CharAt(s, it);
        if it != |s| && '0' <= c <= '9' {
          var n := Syntax.ParseInt(s, it, 0);
          if n.None? {
            return false, it;
          }
          specs.precision := n.value.0;
          it := n.value.1;
        } else if it != |s| && c == '*' {
          it := it + 1;
          var arg := FetchArg(-1);
          if arg.None? {
            return false, it;
          }
          var p := DynamicPrecision(arg.value);
          if p.None? {
            return false, it;
          }
          specs.precision := p.value;
        } else {
          specs.precision := 0;
        }
      }
    }

    /** One conversion of `format` (printf.h:486-594). */
    method FormatConversion(s: string, start: nat, w: Writer) returns (text: Option<string>, it: nat)
      requires 0 < start <= |s|
      modifies this
      ensures text.Some? <==> Conversion(s, start, old(nextArgId), args, w).Some?
      ensures text.Some? ==> Conversion(s, start, old(nextArgId), args, w) == Some(Converted(text.value, it, nextArgId))
    {
      hide ParseHeaderAt, ParsePrecisionAt, GetArg, Adjust, ParseLengthAt;
      var specs := new FormatSpecs();
      var ok, argIndex;
      ok, argIndex, it := ParseHeader(s, start, specs);
      if !ok || argIndex == 0 {
        return None, start;
      }
      ok, it := ParsePrecision(s, it, specs, argIndex);
      if !ok {
        return None, start;
      }
      var arg := FetchArg(argIndex);
      if arg.None? {
        return None, start;
      }
      var (adjusted, shown) := Adjust(specs.View(), arg.value);
      var (length, conv, at) := ParseLengthAt(s, it);
      if at == |s| {
        return None, start;
      }
      text := w.show(shown, adjusted, length, conv, Kind(s[at], shown));
      it := at + 1;
    }

    /** `format` (printf.h:469-597): `start` and `it` delimit the text not yet copied. */
    method Format(s: string, w: Writer) returns (r: Option<string>)
      modifies this
      ensures r == FormatFrom(s, 0, old(nextArgId), args, w)
    {
      hide Conversion;
      var out: string := "";
      var start, it: nat := 0, 0;
      ghost var whole := FormatFrom(s, 0, nextArgId, args, w);
      Prepending("", whole);
      while it != |s|
        invariant 0 <= start <= it <= |s|
        invariant forall k :: start <= k < it ==> s[k] != '%'
        invariant whole == Prepend(out, FormatFrom(s, start, nextArgId, args, w))
        decreases |s| - it
      {
        Uncopied(s, start, it, nextArgId, args, w);
        var c := s[it];
        it := it + 1;
        if c == '%' {
          ghost var rest := FormatFrom(s, it - 1, nextArgId, args, w);
          PrependTwice(out, s[start..it - 1], rest);
          if it != |s| && s[it] == c {
            assert s[start..it] == s[start..it - 1] + "%";
            assert out + s[start..it] == out + s[start..it - 1] + "%";
            PrependTwice(out + s[start..it - 1], "%", FormatFrom(s, it + 1, nextArgId, args, w));
            out := out + s[start..it];
            it := it + 1;
            start := it;
          } else {
            out := out + s[start..it - 1];
            var text;
            text, it := FormatConversion(s, it, w);
            if text.None? {
              return None;
            }
            PrependTwice(out, text.value, FormatFrom(s, it, nextArgId, args, w));
            start := it;
            out := out + text.value;
          }
        }
      }
      Uncopied(s, start, it, nextArgId, args, w);
      PrependTwice(out, s[start..it], Some(""));
      Prepending(out + s[start..it], Some(""));
      return Some(out + s[start..it]);
    }
  }

  lemma {:induction false} ApplyFlagsAppend(specs: Specs, flags: string, c: char)
    ensures ApplyFlags(specs, flags + [c]) == ApplyFlag(ApplyFlags(specs, flags), c)
    decreases flags
  {
    if flags != "" {
      assert (flags + [c])[1..] == flags[1..] + [c];
      ApplyFlagsAppend(ApplyFlag(specs, flags[0]), flags[1..], c);
    } else {
      assert flags + [c] == [c];
    }
  }

  lemma {:induction false} Prepending(text: string, rest: Option<string>)
    ensures Prepend("", rest) == rest
    ensures Prepend(text, Some("")) == Some(text)
  {
    if rest.Some? {
      assert "" + rest.value == rest.value;
    }
    assert text + "" == text;
  }

  lemma {:induction false} PrependTwice(a: string, b: string, rest: Option<string>)
    ensures Prepend(a, Prepend(b, rest)) == Prepend(a + b, rest)
  {
    if rest.Some? {
      assert a + (b + rest.value) == a + b + rest.value;
    }
  }

  /** Text without a '%' formats to itself. */
  lemma {:induction false} Uncopied(s: string, i: nat, j: nat, next: int, args: seq<Arg>, w: Writer)
    requires i <= j <= |s|
    requires forall k :: i <= k < j ==> s[k] != '%'
    ensures FormatFrom(s, i, next, args, w) == Prepend(s[i..j], FormatFrom(s, j, next, args, w))
    decreases j - i
  {
    if i < j {
      OneCharacter(s, i, next, args, w);
      hide FormatFrom, Prepend;
      Uncopied(s, i + 1, j, next, args, w);
      assert s[i..j] == [s[i]] + s[i + 1..j];
      PrependTwice([s[i]], s[i + 1..j], FormatFrom(s, j, next, args, w));
    } else {
      hide FormatFrom, Prepend;
      assert s[i..j] == "";
      Prepending("", FormatFrom(s, j, next, args, w));
    }
  }

  lemma {:induction false} OneCharacter(s: string, i: nat, next: int, args: seq<Arg>, w: Writer)
    requires i < |s| && s[i] != '%'
    ensures FormatFrom(s, i, next, args, w) == Prepend([s[i]], FormatFrom(s, i + 1, next, args, w))
  {
    hide Conversion, Prepend;
  }

  // ---- Properties ----

  /** Every '%' doubled. */
  function Double(s: string): string {
    if s == "" then "" else (if s[0] == '%' then "%%" else [s[0]]) + Double(s[1..])
  }

  /** Formatting `s` with each '%' doubled gives `s` back, whatever follows. */
  lemma {:induction false} DoubledText(pre: string, s: string, next: int, args: seq<Arg>, w: Writer)
    ensures FormatFrom(pre + Double(s), |pre|, next, args, w) == Some(s)
    decreases |s|
  {
    if s != "" {
      var head := if s[0] == '%' then "%%" else [s[0]];
      var all := pre + Double(s);
      assert all == (pre + head) + Double(s[1..]);
      DoubledText(pre + head, s[1..], next, args, w);
      assert all[|pre|] == head[0] && (s[0] == '%' ==> all[|pre| + 1] == '%');
      assert [s[0]] + s[1..] == s;
    }
  }

  /** A conversion between two formatted stretches prints between them. */
  lemma {:induction false} LiteralThenConversion(s: string, i: nat, j: nat, next: int, args: seq<Arg>, w: Writer)
    requires i <= j < |s| && s[j] == '%' && (j + 1 == |s| || s[j + 1] != '%')
    requires forall k :: i <= k < j ==> s[k] != '%'
    ensures FormatFrom(s, i, next, args, w)
         == (match Conversion(s, j + 1, next, args, w)
             case None => None
             case Some(c) => Prepend(s[i..j] + c.text, FormatFrom(s, c.end, c.next, args, w)))
  {
    hide Conversion;
    Uncopied(s, i, j, next, args, w);
    var c := Conversion(s, j + 1, next, args, w);
    if c.Some? {
      PrependTwice(s[i..j], c.value.text, FormatFrom(s, c.value.end, c.value.next, args, w));
    }
  }

  /** What a set of flags does: '+' beats ' ' in whatever order they come. */
  function FlagSet(specs: Specs, flags: set<char>): Specs {
    Specs(specs.width, specs.precision,
          if '0' in flags then '0' else specs.fill,
          if '-' in flags then Syntax.Left else specs.align,
          if '+' in flags || specs.sign == Syntax.Plus then Syntax.Plus
          else if ' ' in flags then Syntax.Space else specs.sign,
          specs.alt || '#' in flags)
  }

  /** Order and repetition of flags do not matter. */
  lemma {:induction false} FlagsAreASet(specs: Specs, flags: string)
    ensures ApplyFlags(specs, flags) == FlagSet(specs, set c | c in flags)
    decreases flags
  {
    if flags != "" {
      var rest := set c | c in flags[1..];
      FlagsAreASet(ApplyFlag(specs, flags[0]), flags[1..]);
      OneFlag(specs, flags[0], rest);
      assert forall c :: c in flags <==> c == flags[0] || c in flags[1..];
      assert (set c | c in flags) == {flags[0]} + rest;
    }
  }

  lemma {:induction false} OneFlag(specs: Specs, c: char, rest: set<char>)
    ensures FlagSet(ApplyFlag(specs, c), rest) == FlagSet(specs, {c} + rest)
  {
  }

  lemma {:induction false} ApplyFlagsConcat(specs: Specs, a: string, b: string)
    ensures ApplyFlags(specs, a + b) == ApplyFlags(ApplyFlags(specs, a), b)
    decreases a
  {
    if a == "" {
      assert a + b == b;
    } else {
      assert (a + b)[1..] == a[1..] + b;
      ApplyFlagsConcat(ApplyFlag(specs, a[0]), a[1..], b);
    }
  }

  // ---- Round trip: print a specification, parse it back ----

  /** Text that cannot be taken for more of a specification. */
  predicate Delimited(rest: string) {
    rest == "" || !(Syntax.IsDigit(rest[0]) || IsFlag(rest[0]) || rest[0] == '$' || rest[0] == '.' || rest[0] == '*')
  }

  function WidthText(width: nat): string {
    if width == 0 then "" else Decimal(width)
  }

  function PrecisionText(precision: Option<nat>): string {
    if precision.None? then "" else "." + Decimal(precision.value)
  }

  function IndexText(index: Option<nat>): string {
    if index.None? then "" else Decimal(index.value) + "$"
  }

  lemma {:induction false} FlagsEndIs(s: string, i: nat, j: nat)
    requires i <= j <= |s| && (j == |s| || !IsFlag(s[j]))
    requires forall k :: i <= k < j ==> IsFlag(s[k])
    ensures FlagsEnd(s, i) == j
    decreases j - i
  {
    if i < j {
      FlagsEndIs(s, i + 1, j);
    }
  }

  /** What may stand after the flags and width: nothing that is a digit, flag or '*'. */
  predicate WidthEnds(s: string, i: nat) {
    i <= |s| && (i == |s| || !(Syntax.IsDigit(s[i]) || IsFlag(s[i]) || s[i] == '*'))
  }

  /** Flags, then a width that is positive or absent. */
  lemma {:induction false} FlagsAndWidthRead(s: string, i: nat, flags: string, width: nat, specs: Specs,
                                             index: int, next: int, args: seq<Arg>)
    requires (forall c <- flags :: IsFlag(c)) && width <= Syntax.MAX_INT && specs.width == 0
    requires At(s, i, flags + WidthText(width)) && WidthEnds(s, i + |flags + WidthText(width)|)
    ensures FlagsAndWidth(s, i, specs, index, next, args)
         == Some(Header(index, ApplyFlags(specs, flags).(width := width), i + |flags + WidthText(width)|, next))
  {
    hide ApplyFlags, FlagsEnd, FlagsAndWidth;
    AtConcat(s, i, flags, WidthText(width));
    var j := i + |flags|;
    var e := j + |WidthText(width)|;
    assert forall k :: i <= k < j ==> s[k] == flags[k - i];
    if width > 0 {
      CharOf(s, j, WidthText(width), 0);
    }
    FlagsEndIs(s, i, j);
    FlagsKeepWidth(specs, flags);
    assert s[i..j] == flags;
    if width > 0 {
      DecimalValue(width);
      assert s[j..e] == Decimal(width);
      ParseDigits(s, j, e, 0);
    }
    hide At, Syntax.ParseInt, IsFlag, Decimal, ValueOf;
    WidthRead(s, i, j, specs, index, next, args, width, e);
  }

  /** A width, or none, after the flags. */
  lemma {:induction false} WidthRead(s: string, i: nat, j: nat, specs: Specs, index: int, next: int, args: seq<Arg>,
          width: nat, e: nat)
    requires i <= j <= e <= |s| && FlagsEnd(s, i) == j
    requires width > 0 ==> j < |s| && Syntax.IsDigit(s[j]) && Syntax.ParseInt(s, j, 0) == Some((width, e))
    requires width == 0 ==> e == j && WidthEnds(s, j) && ApplyFlags(specs, s[i..j]).width == 0
    ensures FlagsAndWidth(s, i, specs, index, next, args)
         == Some(Header(index, ApplyFlags(specs, s[i..j]).(width := width), e, next))
  {
    hide ApplyFlags, FlagsEnd, Syntax.ParseInt;
  }

  lemma {:induction false} FlagsKeepWidth(specs: Specs, flags: string)
    ensures ApplyFlags(specs, flags).width == specs.width
  {
    FlagsAreASet(specs, flags);
  }

  /** How many zeros `flags` starts with. */
  function LeadingZeros(flags: string): (n: nat)
    ensures n <= |flags| && forall c <- flags[..n] :: c == '0'
    ensures n < |flags| ==> flags[n] != '0'
    decreases flags
  {
    if flags == "" || flags[0] != '0' then 0
    else
      var n := LeadingZeros(flags[1..]);
      assert flags[..n + 1] == [flags[0]] + flags[1..][..n];
      n + 1
  }

  /** Zeros, however many, set the fill. */
  lemma {:induction false} ZeroFlags(zeros: string)
    requires zeros != "" && forall c <- zeros :: c == '0'
    ensures ApplyFlags(INITIAL, zeros) == INITIAL.(fill := '0')
  {
    FlagsAreASet(INITIAL, zeros);
    assert zeros[0] in zeros;
  }

  /**
   Without an index: a leading digit is a '0' flag or the width. The parser reads the
   number first and decides afterwards; it comes to the same.
   */
  lemma {:induction false} UnindexedRead(s: string, i: nat, flags: string, width: nat, next: int, args: seq<Arg>)
    requires (forall c <- flags :: IsFlag(c)) && width <= Syntax.MAX_INT
    requires At(s, i, flags + WidthText(width)) && WidthEnds(s, i + |flags + WidthText(width)|)
    requires var e := i + |flags + WidthText(width)|; e < |s| ==> s[e] != '$'
    ensures ParseHeaderAt(s, i, next, args)
         == Some(Header(-1, ApplyFlags(INITIAL, flags).(width := width), i + |flags + WidthText(width)|, next))
  {
    var z := LeadingZeros(flags);
    if i == |s| || !Syntax.IsDigit(s[i]) {
      FlagsAndWidthRead(s, i, flags, width, INITIAL, -1, next, args);
    } else if z == |flags| {
      assert flags[..z] == flags;
      DigitsOnlyRead(s, i, flags, width, next, args);
    } else {
      var zeros, others, tail := flags[..z], flags[z..], WidthText(width);
      hide At, WidthEnds, FlagsAndWidth, ParseHeaderAt, ApplyFlags, WidthText;
      SplitZeros(s, i, flags, z, tail);
      ZerosThenFlagsRead(s, i, zeros, others, width, next, args);
    }
  }

  lemma {:induction false} SplitZeros(s: string, i: nat, flags: string, z: nat, tail: string)
    requires z < |flags| && flags[z] != '0' && At(s, i, flags + tail)
    requires (forall c <- flags :: IsFlag(c)) && i < |s| && Syntax.IsDigit(s[i])
    ensures flags == flags[..z] + flags[z..] && flags[..z] != ""
    ensures At(s, i, flags[..z]) && At(s, i + z, flags[z..] + tail)
    ensures |flags + tail| == z + |flags[z..] + tail|
    ensures forall c <- flags[z..] :: IsFlag(c)
  {
    AtConcat(s, i, flags, tail);
    CharOf(s, i, flags, 0);
    DigitFlag(flags[0]);
    hide At, IsFlag;
    CutFlags(flags, z, tail);
    AtConcat(s, i, flags[..z], flags[z..] + tail);
  }

  lemma {:induction false} DigitFlag(c: char)
    ensures IsFlag(c) && Syntax.IsDigit(c) ==> c == '0'
  {
  }

  lemma {:induction false} CutFlags(flags: string, z: nat, tail: string)
    requires z <= |flags|
    ensures flags + tail == flags[..z] + (flags[z..] + tail) && flags == flags[..z] + flags[z..]
    ensures forall c <- flags[z..] :: c in flags
  {
  }

  /** Zero flags, read as a number that turns out to be zero, then other flags. */
  lemma {:induction false} ZerosThenFlagsRead(s: string, i: nat, zeros: string, others: string, width: nat,
                                              next: int, args: seq<Arg>)
    requires (forall c <- zeros :: c == '0') && (forall c <- others :: IsFlag(c)) && width <= Syntax.MAX_INT
    requires At(s, i, zeros) && At(s, i + |zeros|, others + WidthText(width))
    requires WidthEnds(s, i + |zeros| + |others + WidthText(width)|)
    requires zeros != "" && others != "" && others[0] != '0'
    ensures ParseHeaderAt(s, i, next, args)
         == Some(Header(-1, ApplyFlags(INITIAL, zeros + others).(width := width),
                        i + |zeros| + |others + WidthText(width)|, next))
  {
    hide At, WidthEnds, FlagsAndWidth, ParseHeaderAt, ApplyFlags, WidthText, Syntax.ParseInt;
    var j := i + |zeros|;
    AtConcat(s, j, others, WidthText(width));
    CharOf(s, j, others, 0);
    CharOf(s, i, zeros, 0);
    ZerosRead(s, i, zeros);
    ZeroHeader(s, i, j, next, args);
    FlagsAndWidthRead(s, j, others, width, INITIAL.(fill := '0'), -1, next, args);
    ApplyFlagsConcat(INITIAL, zeros, others);
    ZeroFlags(zeros);
  }

  lemma {:induction false} ZerosRead(s: string, i: nat, zeros: string)
    requires At(s, i, zeros) && i + |zeros| < |s| && !Syntax.IsDigit(s[i + |zeros|])
    requires forall c <- zeros :: c == '0'
    ensures Syntax.ParseInt(s, i, 0) == Some((0, i + |zeros|))
  {
    ValueOfZeros(zeros, "");
    assert zeros + "" == zeros;
    ParseDigits(s, i, i + |zeros|, 0);
  }

  lemma {:induction false} ZeroHeader(s: string, i: nat, j: nat, next: int, args: seq<Arg>)
    requires i < j < |s| && s[i] == '0' && s[j] != '$' && Syntax.ParseInt(s, i, 0) == Some((0, j))
    ensures ParseHeaderAt(s, i, next, args) == FlagsAndWidth(s, j, INITIAL.(fill := '0'), -1, next, args)
  {
  }

  /** Zero flags and a width run together in one number. */
  lemma {:induction false} DigitsOnlyRead(s: string, i: nat, zeros: string, width: nat, next: int, args: seq<Arg>)
    requires (forall c <- zeros :: c == '0') && width <= Syntax.MAX_INT
    requires At(s, i, zeros + WidthText(width)) && WidthEnds(s, i + |zeros + WidthText(width)|)
    requires i < |s| && Syntax.IsDigit(s[i])
    requires var e := i + |zeros + WidthText(width)|; e < |s| ==> s[e] != '$'
    ensures ParseHeaderAt(s, i, next, args)
         == Some(Header(-1, ApplyFlags(INITIAL, zeros).(width := width), i + |zeros + WidthText(width)|, next))
  {
    var digits := WidthText(width);
    var e := i + |zeros + digits|;
    assert forall c <- digits :: Syntax.IsDigit(c);
    ValueOfZeros(zeros, digits);
    if width > 0 {
      DecimalValue(width);
    }
    assert s[i..e] == zeros + digits;
    ParseDigits(s, i, e, 0);
    assert s[i] == (zeros + digits)[0];
    if zeros == "" {
      assert digits[0] != '0';
    } else {
      ZeroFlags(zeros);
      assert zeros[0] in zeros;
    }
    FlagsEndIs(s, e, e);
    assert s[e..e] == "";
  }

  /** The specification of one conversion, printed. */
  function SpecText(index: Option<nat>, flags: string, width: nat, precision: Option<nat>): string {
    IndexText(index) + (flags + WidthText(width)) + PrecisionText(precision)
  }

  /** Reading back the index, flags and width. */
  lemma {:induction false} HeaderRead(s: string, i: nat, index: Option<nat>, flags: string, width: nat,
                                      next: int, args: seq<Arg>)
    requires (index.Some? ==> 0 < index.value <= Syntax.MAX_INT) && width <= Syntax.MAX_INT
    requires forall c <- flags :: IsFlag(c)
    requires At(s, i, IndexText(index) + (flags + WidthText(width)))
    requires WidthEnds(s, i + |IndexText(index) + (flags + WidthText(width))|)
    requires var e := i + |IndexText(index) + (flags + WidthText(width))|; e < |s| ==> s[e] != '$'
    ensures ParseHeaderAt(s, i, next, args)
         == Some(Header(if index.Some? then index.value else -1, ApplyFlags(INITIAL, flags).(width := width),
                        i + |IndexText(index) + (flags + WidthText(width))|, next))
  {
    hide At, WidthEnds, WidthText, FlagsAndWidth, ApplyFlags;
    var rest := flags + WidthText(width);
    AtConcat(s, i, IndexText(index), rest);
    assert |IndexText(index) + rest| == |IndexText(index)| + |rest|;
    if index.None? {
      assert "" + rest == rest;
      UnindexedRead(s, i, flags, width, next, args);
    } else {
      IndexRead(s, i, index.value);
      var j := i + |IndexText(index)|;
      assert At(s, j, rest) && WidthEnds(s, j + |rest|);
      FlagsAndWidthRead(s, j, flags, width, INITIAL, index.value, next, args);
    }
  }

  lemma {:induction false} IndexRead(s: string, i: nat, index: nat)
    requires At(s, i, Decimal(index) + "$") && index <= Syntax.MAX_INT
    ensures var j := i + |Decimal(index)|;
            && Syntax.IsDigit(s[i]) && Syntax.ParseInt(s, i, 0) == Some((index, j))
            && j < |s| && s[j] == '$'
  {
    var digits := Decimal(index);
    var j := i + |digits|;
    AtConcat(s, i, digits, "$");
    DecimalRead(s, i, index);
    assert s[j] == s[j..j + 1][0];
  }

  /** Reading back the precision. */
  lemma {:induction false} PrecisionRead(s: string, h: Header, precision: Option<nat>, args: seq<Arg>)
    requires (precision.Some? ==> precision.value <= Syntax.MAX_INT) && h.specs.precision == -1
    requires At(s, h.end, PrecisionText(precision))
    requires var e := h.end + |PrecisionText(precision)|;
             e < |s| ==> !Syntax.IsDigit(s[e]) && (precision.None? ==> s[e] != '.')
    ensures ParsePrecisionAt(s, h, args)
         == Some(h.(specs := h.specs.(precision := if precision.Some? then precision.value else -1),
                    end := h.end + |PrecisionText(precision)|))
  {
    if precision.Some? {
      var digits := Decimal(precision.value);
      AtConcat(s, h.end, ".", digits);
      assert s[h.end] == s[h.end..h.end + 1][0];
      DecimalRead(s, h.end + 1, precision.value);
    }
  }

  /**
   Round trip: printing an index (or none), flags in any order and number, a width (or
   none, written 0 here) and a precision (or none), and parsing the text, gives back the
   same values, the flags as the set they are.
   */
  lemma {:induction false} SpecRoundTrip(s: string, i: nat, index: Option<nat>, flags: string, width: nat,
                                         precision: Option<nat>, rest: string, next: int, args: seq<Arg>)
    requires (index.Some? ==> 0 < index.value <= Syntax.MAX_INT) && width <= Syntax.MAX_INT
    requires (precision.Some? ==> precision.value <= Syntax.MAX_INT) && forall c <- flags :: IsFlag(c)
    requires Delimited(rest) && i <= |s| && s[i..] == SpecText(index, flags, width, precision) + rest
    ensures var h := ParseHeaderAt(s, i, next, args);
            && h.Some?
            && ParsePrecisionAt(s, h.value, args)
               == Some(Header(if index.Some? then index.value else -1,
                              FlagSet(INITIAL, set c | c in flags)
                                .(width := width, precision := if precision.Some? then precision.value else -1),
                              i + |SpecText(index, flags, width, precision)|, next))
  {
    hide ParseHeaderAt, ParsePrecisionAt, WidthText, IndexText;
    var head := IndexText(index) + (flags + WidthText(width));
    var tail := PrecisionText(precision);
    SplitSpec(s, i, head, tail, rest);
    HeaderRead(s, i, index, flags, width, next, args);
    FlagsAreASet(INITIAL, flags);
    PrecisionRead(s, ParseHeaderAt(s, i, next, args).value, precision, args);
  }

  /** Where the header ends, and what stands there. */
  lemma {:induction false} SplitSpec(s: string, i: nat, head: string, tail: string, rest: string)
    requires i <= |s| && s[i..] == head + tail + rest
    requires Delimited(rest) && (tail == "" || tail[0] == '.')
    ensures At(s, i, head) && At(s, i + |head|, tail)
    ensures WidthEnds(s, i + |head|)
    ensures i + |head| < |s| ==> s[i + |head|] != '$'
    ensures var e := i + |head| + |tail|; e < |s| ==> !Syntax.IsDigit(s[e]) && s[e] != '.'
  {
    var j := i + |head|;
    var e := j + |tail|;
    assert s[i..j] == (head + tail + rest)[..|head|] == head;
    assert s[j..e] == (head + tail + rest)[|head|..|head| + |tail|] == tail;
    assert e < |s| ==> s[e] == s[i..][e - i] == rest[0];
    assert tail != "" ==> s[j] == tail[0];
  }
}
