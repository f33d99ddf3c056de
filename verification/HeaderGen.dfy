/**
 Generated C headers (`scripts/js/opencl.js`): a buffer is printed as an array of bytes,
 32 to a line. A reader of such declarations, written independently, gets the buffer back.
 */
module HeaderGen {
  import opened Arithmetic
  import opened Decimals
  import opened FormatSyntax
  import opened Options

  // ---- The printers ----

  const HEX := "0123456789abcdef"

  /** `toString(16)` */
  function ToHex(b: Byte): (s: string)
    ensures 1 <= |s| <= 2
  {
    if b < 16 then [HEX[b]] else [HEX[b / 16], HEX[b % 16]]
  }

  function PadStart(s: string, width: nat, c: char): string
    decreases width - |s|
  {
    if |s| >= width then s else PadStart([c] + s, width, c)
  }

  function ItemText(b: Byte, comma: bool): string {
    "0x" + PadStart(ToHex(b), 2, '0') + if comma then "," else ""
  }

  const BREAK := "\n    "
  const OPENING := "] = {"

  /** The initialisers from `i` on; whether a full last line is broken too differs between the two printers. */
  function Items(values: seq<Byte>, i: nat, breakLast: bool): string
    requires i <= |values|
    decreases |values| - i
  {
    if i == |values| then ""
    else
      ItemText(values[i], i + 1 < |values|)
      + (if (i + 1) % 32 == 0 && (breakLast || i + 1 < |values|) then BREAK else "")
      + Items(values, i + 1, breakLast)
  }

  /** One declaration, from the name on. */
  function Declaration(name: string, values: seq<Byte>, breakLast: bool): string {
    name + "[" + Decimal(|values|) + OPENING + BREAK + Items(values, 0, breakLast) + "\n}" + ";\n"
  }

  function BinaryHeader(namespace: string, name: string, values: seq<Byte>): string {
    "#pragma once\n\nnamespace " + namespace + " {\n\nstatic const unsigned char "
    + Declaration(name, values, true) + "\n} // namespace " + namespace + "\n"
  }

  function TextArray(name: string, text: seq<Byte>): string {
    "\nstatic const char " + Declaration(name, text + [0], false)
  }

  function Arrays(items: seq<(string, seq<Byte>)>): string {
    if items == [] then "" else TextArray(items[0].0, items[0].1) + Arrays(items[1..])
  }

  /** `text2h` for one item, `text2h_bundle` for any number. */
  function TextHeader(namespace: string, items: seq<(string, seq<Byte>)>): string {
    "#pragma once\n\nnamespace " + namespace + " {\n" + Arrays(items) + "\n} // namespace " + namespace + "\n"
  }

  // ---- A reader of arrays ----

  /** The name and the size an array is declared with, and its initialisers. */
  datatype Array = Array(name: string, size: nat, values: seq<Byte>)

  /** What follows the last space. */
  function LastWord(s: string): string {
    if ' ' !in s then s else LastWord(s[1..])
  }

  predicate IsSpace(c: char) {
    c == ' ' || c == '\n'
  }

  function HexValue(c: char): (v: Option<nat>)
    ensures v.Some? ==> v.value < 16
  {
    if '0' <= c <= '9' then Some(c as int - '0' as int)
    else if 'a' <= c <= 'f' then Some(c as int - 'a' as int + 10)
    else None
  }

  /** A list of bytes up to the closing brace, and the text after it. */
  function ReadItems(s: string): (r: Option<(seq<Byte>, string)>)
    ensures r.Some? ==> |r.value.1| < |s|
    decreases |s|
  {
    if s == "" then None
    else if IsSpace(s[0]) then ReadItems(s[1..])
    else if s[0] == '}' then Some(([], s[1..]))
    else if |s| < 4 || s[0] != '0' || s[1] != 'x' then None
    else
      var high :- HexValue(s[2]);
      var low :- HexValue(s[3]);
      var rest :- ReadSeparator(s[4..]);
      Some(([16 * high + low] + rest.0, rest.1))
  }

  /** After an item: a comma and more, or the closing brace. */
  function ReadSeparator(s: string): (r: Option<(seq<Byte>, string)>)
    ensures r.Some? ==> |r.value.1| < |s|
    decreases |s|
  {
    if s == "" then None
    else if IsSpace(s[0]) then ReadSeparator(s[1..])
    else if s[0] == ',' then ReadItems(s[1..])
    else if s[0] == '}' then Some(([], s[1..]))
    else None
  }

  function Find(s: string, c: char): (k: nat)
    ensures k <= |s| && c !in s[..k] && (k < |s| ==> s[k] == c)
  {
    if s == "" || s[0] == c then 0
    else
      var k := Find(s[1..], c);
      assert s[..k + 1] == [s[0]] + s[1..][..k];
      k + 1
  }

  function DigitsEnd(s: string): (k: nat)
    ensures k <= |s| && forall c <- s[..k] :: IsDigit(c)
  {
    if s == "" || !IsDigit(s[0]) then 0
    else
      var k := DigitsEnd(s[1..]);
      assert s[..k + 1] == [s[0]] + s[1..][..k];
      k + 1
  }

  /** The next array in a text, and the text after its closing brace. */
  function ReadArray(s: string): (r: Option<(Array, string)>)
    ensures r.Some? ==> |r.value.1| < |s|
  {
    var k := Find(s, '[');
    if k == |s| then None
    else
      var t := s[k + 1..];
      var d := DigitsEnd(t);
      if d == 0 || !(OPENING <= t[d..]) then None
      else
        var items :- ReadItems(t[d + |OPENING|..]);
        Some((Array(LastWord(s[..k]), ValueOf(t[..d], 0), items.0), items.1))
  }

  /** All arrays of a text. */
  function ReadAll(s: string): Option<seq<Array>>
    decreases |s|
  {
    if '[' !in s then Some([])
    else
      var first :- ReadArray(s);
      var rest :- ReadAll(first.1);
      Some([first.0] + rest)
  }

  const HEADER := "#pragma once\n\nnamespace "

  /** The namespace of a header: the word after its keyword. */
  function ReadNamespace(s: string): Option<string> {
    if HEADER <= s then Some(s[|HEADER|..][..Find(s[|HEADER|..], ' ')]) else None
  }

  // ---- Reading what was printed ----

  lemma {:induction false} LastWordAfter(pre: string, name: string)
    requires pre != "" && pre[|pre| - 1] == ' '
    ensures LastWord(pre + name) == LastWord(name)
    decreases |pre|
  {
    var s := pre + name;
    assert s[|pre| - 1] == ' ';
    if |pre| == 1 {
      assert s[1..] == name;
    } else {
      assert s[1..] == pre[1..] + name;
      LastWordAfter(pre[1..], name);
    }
  }

  /** A name is its own last word, unless it has a space in it. */
  lemma {:induction false} NameIsWord(name: string)
    ensures LastWord(name) == name <==> ' ' !in name
  {
    if ' ' in name {
      ShorterWord(name);
    }
  }

  lemma {:induction false} ShorterWord(s: string)
    ensures |LastWord(s)| <= |s| && (' ' in s ==> |LastWord(s)| < |s|)
  {
    if ' ' in s {
      ShorterWord(s[1..]);
    }
  }

  lemma {:induction false} NamespaceRead(namespace: string, rest: string)
    requires ' ' !in namespace
    ensures ReadNamespace(HEADER + namespace + " {" + rest) == Some(namespace)
  {
    var s := HEADER + namespace + " {" + rest;
    var after := namespace + [' '] + ("{" + rest);
    assert s == HEADER + after;
    assert s[|HEADER|..] == after;
    FindAfter(namespace, ' ', "{" + rest);
    assert after[..|namespace|] == namespace;
  }

  lemma {:induction false} HexRoundTrip(b: Byte)
    ensures var h := PadStart(ToHex(b), 2, '0');
            |h| == 2 && HexValue(h[0]) == Some(b / 16) && HexValue(h[1]) == Some(b % 16)
  {
    HexDigit(b / 16);
    HexDigit(b % 16);
    if b < 16 {
      assert PadStart(ToHex(b), 2, '0') == ['0', HEX[b]];
    }
  }

  lemma {:induction false} HexDigit(d: nat)
    requires d < 16
    ensures HexValue(HEX[d]) == Some(d)
  {
  }

  lemma {:induction false} SkipSpaces(spaces: string, s: string)
    requires forall c <- spaces :: IsSpace(c)
    ensures ReadItems(spaces + s) == ReadItems(s) && ReadSeparator(spaces + s) == ReadSeparator(s)
    decreases |spaces|
  {
    if spaces == "" {
      assert spaces + s == s;
    } else {
      assert (spaces + s)[1..] == spaces[1..] + s;
      SkipSpaces(spaces[1..], s);
    }
  }

  /** One item in front of a text. */
  lemma {:induction false} ReadItem(b: Byte, h: string, rest: string)
    requires h == PadStart(ToHex(b), 2, '0')
    ensures ReadItems("0x" + h + rest)
         == match ReadSeparator(rest) case None => None case Some(r) => Some(([b] + r.0, r.1))
  {
    HexRoundTrip(b);
    hide PadStart, ToHex, HexValue, ReadSeparator;
    var s := "0x" + h + rest;
    assert s[0] == '0' && s[1] == 'x' && s[2] == h[0] && s[3] == h[1] && s[4..] == rest;
    assert 16 * (b / 16) + b % 16 == b;
  }

  lemma {:induction false} BreakIsSpace(breaks: bool)
    ensures forall c <- (if breaks then BREAK else "") :: IsSpace(c)
  {
  }

  /** The printed initialisers, wherever the lines are broken, read back to the values. */
  lemma {:induction false} ItemsRoundTrip(values: seq<Byte>, i: nat, breakLast: bool, rest: string)
    requires i <= |values|
    ensures ReadItems(Items(values, i, breakLast) + ("\n}" + rest)) == Some((values[i..], rest))
    decreases |values| - i
  {
    hide PadStart, ToHex, ItemText, ReadItems, ReadSeparator;
    var tail := "\n}" + rest;
    if i == |values| {
      assert Items(values, i, breakLast) + tail == tail;
      Closing(rest);
    } else {
      var h := PadStart(ToHex(values[i]), 2, '0');
      var breaks := (i + 1) % 32 == 0 && (breakLast || i + 1 < |values|);
      var gap := if breaks then BREAK else "";
      var more := Items(values, i + 1, breakLast) + tail;
      BreakIsSpace(breaks);
      ItemsRoundTrip(values, i + 1, breakLast, rest);
      OneItem(values[i], h, i + 1 < |values|, gap, Items(values, i + 1, breakLast), tail);
      assert values[i..] == [values[i]] + values[i + 1..];
      if i + 1 == |values| {
        assert more == tail;
        Closing(rest);
      }
    }
  }

  lemma {:induction false} Closing(rest: string)
    ensures ReadItems("\n}" + rest) == Some(([], rest)) && ReadSeparator("\n}" + rest) == Some(([], rest))
  {
    var s := "\n}" + rest;
    assert s[0] == '\n' && s[1..] == "}" + rest && ("}" + rest)[1..] == rest;
  }

  lemma {:induction false} OneItem(b: Byte, h: string, comma: bool, gap: string, items: string, tail: string)
    requires h == PadStart(ToHex(b), 2, '0') && forall c <- gap :: IsSpace(c)
    ensures var more := if comma then ReadItems(items + tail) else ReadSeparator(items + tail);
            ReadItems(ItemText(b, comma) + gap + items + tail)
            == match more case None => None case Some(r) => Some(([b] + r.0, r.1))
  {
    hide ReadItems, PadStart, ToHex;
    var after := gap + (items + tail);
    SkipSpaces(gap, items + tail);
    if comma {
      ReadItem(b, h, "," + after);
      assert ("," + after)[1..] == after;
      assert ItemText(b, comma) + gap + items + tail == "0x" + h + ("," + after);
    } else {
      ReadItem(b, h, after);
      assert ItemText(b, comma) + gap + items + tail == "0x" + h + after;
    }
  }

  lemma {:induction false} FindAfter(pre: string, c: char, rest: string)
    requires c !in pre
    ensures Find(pre + [c] + rest, c) == |pre|
    decreases |pre|
  {
    var s := pre + [c] + rest;
    if pre == "" {
      assert s[0] == c;
    } else {
      assert s[0] == pre[0] && pre[0] in pre;
      assert s[1..] == pre[1..] + [c] + rest;
      FindAfter(pre[1..], c, rest);
    }
  }

  lemma {:induction false} DigitsAre(digits: string, rest: string)
    requires (forall c <- digits :: IsDigit(c)) && rest != "" && !IsDigit(rest[0])
    ensures DigitsEnd(digits + rest) == |digits|
    decreases |digits|
  {
    var s := digits + rest;
    if digits == "" {
      assert s == rest;
    } else {
      assert s[0] == digits[0] && digits[0] in digits;
      assert s[1..] == digits[1..] + rest;
      DigitsAre(digits[1..], rest);
    }
  }

  lemma {:induction false} Slices(a: string, b: string, c: string)
    ensures var s := a + b + c;
            s == a + (b + c) && s[|a| + |b|..] == c && s[|a|..] == b + c && s[|a|..|a| + |b|] == b
  {
  }

  lemma {:induction false} ArrayAt(s: string, k: nat, digits: string, t: string, body: string)
    requires Find(s, '[') == k < |s| && s[k + 1..] == t
    requires digits != "" && DigitsEnd(t) == |digits| && t[..|digits|] == digits
    requires OPENING <= t[|digits|..] && t[|digits| + |OPENING|..] == body
    ensures forall c <- digits :: IsDigit(c)
    ensures ReadArray(s)
         == match ReadItems(body)
            case None => None
            case Some(r) => Some((Array(LastWord(s[..k]), ValueOf(digits, 0), r.0), r.1))
  {
    hide ReadItems, Find, DigitsEnd, ValueOf, IsDigit, LastWord;
  }

  lemma {:induction false} FoundArray(pre: string, digits: string, body: string)
    requires '[' !in pre && digits != "" && forall c <- digits :: IsDigit(c)
    ensures ReadArray(pre + "[" + (digits + (OPENING + body)))
         == match ReadItems(body)
            case None => None
            case Some(r) => Some((Array(LastWord(pre), ValueOf(digits, 0), r.0), r.1))
  {
    hide ReadItems, Find, DigitsEnd, ValueOf, ReadArray, LastWord;
    assert (pre + "[" + (digits + (OPENING + body)))[..|pre|] == pre;
    var t := digits + (OPENING + body);
    FindAfter(pre, '[', t);
    DigitsAre(digits, OPENING + body);
    Slices(pre, "[", t);
    Slices("", digits, OPENING + body);
    Slices(digits, OPENING, body);
    Slices("", OPENING, body);
    ArrayAt(pre + "[" + t, |pre|, digits, t, body);
  }

  lemma {:induction false} Parts(pre: string, name: string, bracket: string, digits: string, opening: string,
          gap: string, items: string, close: string, end: string, rest: string)
    ensures pre + (name + bracket + digits + opening + gap + items + close + end) + rest
         == pre + name + bracket + (digits + (opening + (gap + (items + (close + (end + rest))))))
  {
  }

  /** A declaration reads back to its name and values, and the declared size is their number. */
  lemma {:induction false} DeclarationRoundTrip(pre: string, name: string, values: seq<Byte>, breakLast: bool,
          rest: string)
    requires '[' !in pre && '[' !in name && pre != "" && pre[|pre| - 1] == ' '
    ensures ReadArray(pre + Declaration(name, values, breakLast) + rest)
         == Some((Array(LastWord(name), |values|, values), ";\n" + rest))
  {
    hide Items, ReadItems, ReadArray, Decimal, IsDigit, LastWord;
    LastWordAfter(pre, name);
    var items := Items(values, 0, breakLast);
    var digits := Decimal(|values|);
    var body := BREAK + (items + ("\n}" + (";\n" + rest)));
    Parts(pre, name, "[", digits, OPENING, BREAK, items, "\n}", ";\n", rest);
    FoundArray(pre + name, digits, body);
    DecimalValue(|values|);
    BreakIsSpace(true);
    SkipSpaces(BREAK, items + ("\n}" + (";\n" + rest)));
    ItemsRoundTrip(values, 0, breakLast, ";\n" + rest);
    assert values[0..] == values;
  }

  lemma {:induction false} NoArray(s: string)
    requires '[' !in s
    ensures ReadAll(s) == Some([])
  {
  }

  /** Main result for `bin2h`: the header gives back the buffer, its size, its name and the namespace. */
  lemma {:induction false} BinaryRoundTrip(namespace: string, name: string, values: seq<Byte>)
    requires '[' !in namespace && '[' !in name
    ensures ReadAll(BinaryHeader(namespace, name, values)) == Some([Array(LastWord(name), |values|, values)])
    ensures ' ' !in namespace ==> ReadNamespace(BinaryHeader(namespace, name, values)) == Some(namespace)
  {
    hide Declaration, ReadArray, ReadNamespace, LastWord;
    BinaryNamespace(namespace, name, values);
    var pre := "#pragma once\n\nnamespace " + namespace + " {\n\nstatic const unsigned char ";
    var post := "\n} // namespace " + namespace + "\n";
    DeclarationRoundTrip(pre, name, values, true, post);
    var s := pre + Declaration(name, values, true) + post;
    assert BinaryHeader(namespace, name, values) == s;
    HasArray(pre, name, values, true, post);
    NoArray(";\n" + post);
    var one := Array(LastWord(name), |values|, values);
    assert [one] + [] == [one];
  }

  lemma {:induction false} BinaryNamespace(namespace: string, name: string, values: seq<Byte>)
    ensures ' ' !in namespace ==> ReadNamespace(BinaryHeader(namespace, name, values)) == Some(namespace)
  {
    hide Declaration, ReadNamespace;
    if ' ' !in namespace {
      var rest := "\n\nstatic const unsigned char " + Declaration(name, values, true)
                  + "\n} // namespace " + namespace + "\n";
      assert BinaryHeader(namespace, name, values) == HEADER + namespace + " {" + rest;
      NamespaceRead(namespace, rest);
    }
  }

  lemma {:induction false} HasArray(pre: string, name: string, values: seq<Byte>, breakLast: bool, post: string)
    ensures '[' in pre + Declaration(name, values, breakLast) + post
  {
    var s := pre + Declaration(name, values, breakLast) + post;
    assert s[|pre| + |name|] == '[';
  }

  /** What a text array of `items` holds: the bytes and a zero, under its name. */
  function Terminated(items: seq<(string, seq<Byte>)>): (r: seq<Array>)
    ensures |r| == |items|
  {
    seq(|items|, i requires 0 <= i < |items| => Array(LastWord(items[i].0), |items[i].1| + 1, items[i].1 + [0]))
  }

  lemma {:induction false} TerminatedStep(items: seq<(string, seq<Byte>)>)
    requires items != []
    ensures Terminated(items)
         == [Array(LastWord(items[0].0), |items[0].1| + 1, items[0].1 + [0])] + Terminated(items[1..])
  {
  }

  lemma {:induction false} Regrouped(a: string, b: string, c: string, d: string, e: string)
    ensures a + ((b + c) + d) + e == a + b + c + (d + e)
    ensures c + (d + e) == c + d + e
  {
  }

  lemma {:induction false} ArraysRoundTrip(pre: string, items: seq<(string, seq<Byte>)>, post: string)
    requires '[' !in pre && '[' !in post && forall item <- items :: '[' !in item.0
    ensures ReadAll(pre + Arrays(items) + post) == Some(Terminated(items))
    decreases |items|
  {
    hide Declaration, ReadArray, LastWord;
    if items == [] {
      assert pre + Arrays(items) + post == pre + post;
      NoArray(pre + post);
    } else {
      var name, text := items[0].0, items[0].1;
      assert items[0] in items && forall item <- items[1..] :: item in items;
      var start := pre + "\nstatic const char ";
      var rest := Arrays(items[1..]) + post;
      var declaration := Declaration(name, text + [0], false);
      Regrouped(pre, "\nstatic const char ", declaration, Arrays(items[1..]), post);
      DeclarationRoundTrip(start, name, text + [0], false, rest);
      HasArray(start, name, text + [0], false, rest);
      ArraysRoundTrip(";\n", items[1..], post);
      Regrouped("", "", ";\n", Arrays(items[1..]), post);
      TerminatedStep(items);
    }
  }

  /** Main result for `text2h` and `text2h_bundle`: every text, in order, with one zero byte after it. */
  lemma {:induction false} TextRoundTrip(namespace: string, items: seq<(string, seq<Byte>)>)
    requires '[' !in namespace && forall item <- items :: '[' !in item.0
    ensures ReadAll(TextHeader(namespace, items)) == Some(Terminated(items))
    ensures ' ' !in namespace ==> ReadNamespace(TextHeader(namespace, items)) == Some(namespace)
  {
    hide Arrays, ReadAll, ReadNamespace;
    TextNamespace(namespace, items);
    var pre := "#pragma once\n\nnamespace " + namespace + " {\n";
    var post := "\n} // namespace " + namespace + "\n";
    ArraysRoundTrip(pre, items, post);
    assert TextHeader(namespace, items) == pre + Arrays(items) + post;
  }

  lemma {:induction false} TextNamespace(namespace: string, items: seq<(string, seq<Byte>)>)
    ensures ' ' !in namespace ==> ReadNamespace(TextHeader(namespace, items)) == Some(namespace)
  {
    hide Arrays, ReadNamespace;
    if ' ' !in namespace {
      var rest := "\n" + Arrays(items) + "\n} // namespace " + namespace + "\n";
      assert TextHeader(namespace, items) == HEADER + namespace + " {" + rest;
      NamespaceRead(namespace, rest);
    }
  }

  // ---- The code ----

  lemma {:induction false} ItemsStep(values: seq<Byte>, i: nat, breakLast: bool, out: string)
    requires i < |values|
    ensures out + Items(values, i, breakLast)
         == out + ItemText(values[i], i + 1 < |values|)
            + (if (i + 1) % 32 == 0 && (breakLast || i + 1 < |values|) then BREAK else "")
            + Items(values, i + 1, breakLast)
  {
  }

  /** `bin2h` (opencl.js:6-24) */
  method Bin2h(buf: seq<Byte>, namespace: string, name: string) returns (out: string)
    ensures out == BinaryHeader(namespace, name, buf)
  {
    hide Items, ItemText, Decimal;
    var size := |buf|;
    ghost var head := "#pragma once\n\nnamespace " + namespace + " {\n\nstatic const unsigned char ";
    out := "#pragma once\n\nnamespace " + namespace + " {\n\nstatic const unsigned char " + name
           + "[" + Decimal(size) + "] = {\n    ";
    ghost var start := out;
    var b := 32;
    for i := 0 to size
      invariant b == 32 - i % 32
      invariant out + Items(buf, i, true) == start + Items(buf, 0, true)
    {
      ItemsStep(buf, i, true, out);
      out := out + ItemText(buf[i], size - i > 1);
      b := b - 1;
      if b == 0 {
        b := 32;
        out := out + "\n    ";
      }
    }
    assert out == start + Items(buf, 0, true) by { NoItems(buf, true, out); }
    out := out + "\n};\n\n} // namespace " + namespace + "\n";
    BinaryText(head, namespace, name, buf, out);
  }

  lemma {:induction false} NoItems(values: seq<Byte>, breakLast: bool, out: string)
    ensures out + Items(values, |values|, breakLast) == out
  {
  }

  lemma {:induction false} Grouped(head: string, name: string, bracket: string, digits: string, opening: string,
          gap: string, items: string, close: string, end: string, foot: string, namespace: string, last: string)
    ensures head + name + bracket + digits + (opening + gap) + items + (close + end + foot) + namespace + last
         == head + (name + bracket + digits + opening + gap + items + close + end) + foot + namespace + last
  {
  }

  lemma {:induction false} BinaryText(head: string, namespace: string, name: string, values: seq<Byte>, out: string)
    requires out == head + name + "[" + Decimal(|values|) + "] = {\n    " + Items(values, 0, true)
                    + "\n};\n\n} // namespace " + namespace + "\n"
    ensures out == head + Declaration(name, values, true) + "\n} // namespace " + namespace + "\n"
  {
    hide Items, Decimal;
    Footer();
    Opening();
    Grouped(head, name, "[", Decimal(|values|), OPENING, BREAK, Items(values, 0, true),
            "\n}", ";\n", "\n} // namespace ", namespace, "\n");
  }

  lemma {:induction false} Footer()
    ensures "\n};\n\n} // namespace " == "\n}" + ";\n" + "\n} // namespace "
  {
  }

  lemma {:induction false} Opening()
    ensures "] = {\n    " == OPENING + BREAK
  {
  }

  /** `text2h_internal` (opencl.js:27-48); `buf` is the encoded text. */
  method Text2hInternal(buf: seq<Byte>, name: string) returns (out: string)
    ensures out == TextArray(name, buf)
  {
    hide Items, ItemText, Decimal;
    var size := |buf|;
    out := "\nstatic const char " + name + "[" + Decimal(size + 1) + "] = {\n    ";
    ghost var start := out;
    ghost var all: seq<Byte> := buf + [0];
    var b := 32;
    for i := 0 to size
      invariant b == 32 - i % 32
      invariant out + Items(all, i, false) == start + Items(all, 0, false)
    {
      ItemsStep(all, i, false, out);
      assert all[i] == buf[i];
      out := out + ItemText(buf[i], true);
      b := b - 1;
      if b == 0 {
        b := 32;
        out := out + "\n    ";
      }
    }
    LastItem(buf, out);
    out := out + "0x00";
    assert out == start + Items(all, 0, false);
    out := out + "\n};\n";
    TextText(name, all, out);
  }

  lemma {:induction false} ZeroText()
    ensures ItemText(0, false) == "0x00"
  {
    assert PadStart(ToHex(0), 2, '0') == "00";
  }

  lemma {:induction false} LastItem(buf: seq<Byte>, out: string)
    ensures out + Items(buf + [0], |buf|, false) == out + "0x00"
  {
    hide ItemText;
    var all: seq<Byte> := buf + [0];
    ZeroText();
    assert Items(all, |buf|, false) == ItemText(all[|buf|], false) + "" + Items(all, |buf| + 1, false);
    DropEmpty(ItemText(0, false));
  }

  lemma {:induction false} DropEmpty(s: string)
    ensures s + "" == s
  {
  }

  lemma {:induction false} TextText(name: string, values: seq<Byte>, out: string)
    requires out == "\nstatic const char " + name + "[" + Decimal(|values|) + "] = {\n    "
                    + Items(values, 0, false) + "\n};\n"
    ensures out == "\nstatic const char " + Declaration(name, values, false)
  {
    hide Items, Decimal;
    assert "\n};\n" == "\n}" + ";\n" + "";
    Opening();
    var head := "\nstatic const char ";
    Grouped(head, name, "[", Decimal(|values|), OPENING, BREAK, Items(values, 0, false), "\n}", ";\n", "", "", "");
    DropEmpty(head + Declaration(name, values, false));
    DropEmpty(out);
  }

  /** `text2h_bundle` (opencl.js:57-66) */
  method Text2hBundle(namespace: string, items: seq<(string, seq<Byte>)>) returns (out: string)
    ensures out == TextHeader(namespace, items)
  {
    hide TextArray;
    out := "#pragma once\n\nnamespace " + namespace + " {\n";
    ghost var start := out;
    for i := 0 to |items|
      invariant out + Arrays(items[i..]) == start + Arrays(items)
    {
      assert items[i..][1..] == items[i + 1..];
      var one := Text2hInternal(items[i].1, items[i].0);
      assert out + (one + Arrays(items[i + 1..])) == out + one + Arrays(items[i + 1..]);
      out := out + one;
    }
    assert out == start + Arrays(items);
    out := out + "\n} // namespace " + namespace + "\n";
  }

  /** `text2h` (opencl.js:51-54) */
  method Text2h(text: seq<Byte>, namespace: string, name: string) returns (out: string)
    ensures out == TextHeader(namespace, [(name, text)])
  {
    hide TextArray;
    var inner := Text2hInternal(text, name);
    assert Arrays([(name, text)]) == inner + Arrays([]) == inner;
    out := "#pragma once\n\nnamespace " + namespace + " {\n" + inner + "\n} // namespace " + namespace + "\n";
  }
}
