/**
 Which arguments the fields of a format string print, and with which specifiers: a string
 made of pieces of text and fields, against a direct reading of the arguments.
 */
module FormatArgs {
  import opened Decimals
  import opened FormatCompile
  import opened FormatCount
  import opened FormatInterp
  import opened FormatParts
  import opened FormatSyntax
  import opened FormatTree
  import opened Options
  import opened SpecGrammar

  /** Text, and a field after it. */
  datatype Piece = Piece(text: string, ref: Ref, specs: Option<Written>)

  predicate Fits(p: Piece) {
    IsRef(p.ref) && (p.specs.Some? ==> WellFormed(p.specs.value) && Unambiguous(p.specs.value))
  }

  // ---- The format ----

  /** Every brace doubled. */
  function Double(s: string): string {
    if s == "" then "" else (if IsBrace(s[0]) then [s[0], s[0]] else [s[0]]) + Double(s[1..])
  }

  function SpecsText(specs: Option<Written>): string {
    if specs.None? then "}" else ":" + (SpecText(specs.value) + "}")
  }

  function FieldText(p: Piece): string {
    "{" + (RefText(p.ref) + SpecsText(p.specs))
  }

  function FormatText(pieces: seq<Piece>): string {
    if pieces == [] then "" else Double(pieces[0].text) + FieldText(pieces[0]) + FormatText(pieces[1..])
  }

  // ---- Its meaning ----

  /**
   The argument of a reference, and the next automatic one. An index ends automatic numbering,
   and cannot come after it; a name has nothing to do with it.
   */
  function Referred(ref: Ref, next: int, args: Args): Option<(Arg, int)> {
    match ref
    case Auto => if 0 <= next < |args.vals| then Some((args.vals[next], next + 1)) else None
    case Index(n) => if next <= 0 && n < |args.vals| then Some((args.vals[n], -1)) else None
    case Name(name) =>
      if name in args.names && args.names[name] < |args.vals|
      then Some((args.vals[args.names[name]], next)) else None
  }

  /** A width or precision: as written, or the value of an integer argument that fits. */
  function Measured(a: Amount, default: int, next: int, args: Args): Option<(int, int)> {
    match a
    case Absent => Some((default, next))
    case Number(digits) => if IsNumber(digits) then Some((ValueOf(digits, 0), next)) else None
    case Nested(ref) =>
      var arg :- Referred(ref, next, args);
      if arg.0.Integer? && 0 <= arg.0.value <= MAX_INT then Some((arg.0.value, arg.1)) else None
  }

  /** What a field prints, and the next automatic argument: its value, then its width, then its precision. */
  function Printed(p: Piece, next: int, args: Args, w: Writer): Option<(string, int)> {
    var arg :- Referred(p.ref, next, args);
    match p.specs
    case None => Some((w.plain(arg.0), arg.1))
    case Some(t) =>
      var width :- Measured(t.width, 0, arg.1, args);
      var precision :- Measured(t.precision, -1, width.1, args);
      var fill := if t.fill == "" then " " else t.fill;
      var specs := Specs(if t.zero then "0" + fill[1..] else fill,
                         if t.zero then Numeric else t.align,
                         t.sign, t.alt, width.0, precision.0,
                         if t.kind.Some? then t.kind.value else '\0');
      var text :- w.styled(arg.0, specs);
      Some((text, precision.1))
  }

  /** Pieces print one after the other, each from where the one before left the arguments. */
  function PiecesMean(pieces: seq<Piece>, next: int, args: Args, w: Writer): Option<string> {
    if pieces == [] then Some("")
    else
      var one :- Printed(pieces[0], next, args, w);
      Prepend(pieces[0].text + one.0, PiecesMean(pieces[1..], one.1, args, w))
  }

  // ---- Reading a field ----

  lemma {:induction false} RefStarts(p: Piece)
    requires Fits(p)
    ensures RefText(p.ref) + SpecsText(p.specs) != "" && (RefText(p.ref) + SpecsText(p.specs))[0] != '{'
  {
    match p.ref
    case Index(n) => assert Decimal(n)[0] in Decimal(n);
    case Name(name) => assert name[0] in name;
    case Auto =>
  }

  function FieldOf(p: Piece, end: nat): Field
    requires Fits(p)
  {
    Field(p.ref, if p.specs.None? then None else Some(SpecMeaning(p.specs.value)), end)
  }

  lemma {:induction false} PlainField(s: string, i: nat, ref: Ref, j: nat)
    requires i + 1 < |s| && s[i] == '{' && s[i + 1] != '{'
    requires ParseArgId(s, i + 1) == Some((ref, j)) && j < |s| && s[j] == '}'
    ensures ParseField(s, i) == Some(Field(ref, None, j + 1))
  {
    hide ParseArgId, ParseSpecs;
  }

  lemma {:induction false} StyledField(s: string, i: nat, ref: Ref, j: nat, raw: RawSpecs, k: nat)
    requires i + 1 < |s| && s[i] == '{' && s[i + 1] != '{'
    requires ParseArgId(s, i + 1) == Some((ref, j)) && j < |s| && s[j] == ':'
    requires ParseSpecs(s, j + 1) == Some((raw, k)) && k < |s| && s[k] == '}'
    ensures ParseField(s, i) == Some(Field(ref, Some(raw), k + 1))
  {
    hide ParseArgId, ParseSpecs;
  }

  lemma {:induction false} SpecsStart(specs: Option<Written>)
    ensures SpecsText(specs) != "" && SpecsText(specs)[0] == if specs.None? then '}' else ':'
  {
  }

  lemma {:induction false} FieldRead(s: string, i: nat, p: Piece)
    requires Fits(p) && At(s, i, FieldText(p))
    ensures i + 1 < |s| && s[i] == '{' && s[i + 1] != '{'
    ensures ParseField(s, i) == Some(FieldOf(p, i + |FieldText(p)|))
  {
    hide At, RefText, SpecsText, SpecText, SpecMeaning, ParseArgId, ParseSpecs, ParseField, IsRef;
    hide WellFormed, Unambiguous;
    var rest := RefText(p.ref) + SpecsText(p.specs);
    RefStarts(p);
    AtConcat(s, i, "{", rest);
    CharOf(s, i, "{", 0);
    CharOf(s, i + 1, rest, 0);
    var j := i + 1 + |RefText(p.ref)|;
    AtConcat(s, i + 1, RefText(p.ref), SpecsText(p.specs));
    SpecsStart(p.specs);
    CharOf(s, j, SpecsText(p.specs), 0);
    RefRead(s, i + 1, p.ref);
    if p.specs.None? {
      NoSpecsText();
      PlainField(s, i, p.ref, j);
    } else {
      SpecsRead(s, j, p.specs.value);
      StyledField(s, i, p.ref, j, SpecMeaning(p.specs.value), j + |SpecsText(p.specs)| - 1);
    }
  }

  lemma {:induction false} NoSpecsText()
    ensures |SpecsText(None)| == 1
  {
  }

  lemma {:induction false} SpecsRead(s: string, j: nat, w: Written)
    requires WellFormed(w) && Unambiguous(w) && At(s, j, SpecsText(Some(w)))
    ensures var k := j + |SpecsText(Some(w))| - 1;
            j < k < |s| && s[k] == '}' && ParseSpecs(s, j + 1) == Some((SpecMeaning(w), k))
  {
    hide At, SpecText, SpecMeaning, ParseSpecs, WellFormed, Unambiguous;
    AtConcat(s, j, ":", SpecText(w) + "}");
    SpecRoundTrip(s, j + 1, w);
  }

  /** And every field the parser accepts is written so. */
  lemma {:induction false} FieldOnly(s: string, i: nat) returns (p: Piece)
    requires i + 1 < |s| && s[i] == '{' && s[i + 1] != '{' && ParseField(s, i).Some?
    ensures IsRef(p.ref) && (p.specs.Some? ==> WellFormed(p.specs.value))
    ensures var f := ParseField(s, i).value;
            && s[i..f.end] == FieldText(p)
            && f == Field(p.ref, if p.specs.None? then None else Some(SpecMeaning(p.specs.value)), f.end)
  {
    hide RefText, SpecText, SpecMeaning, ParseArgId, ParseSpecs, IsRef, WellFormed;
    RefOnly(s, i + 1);
    var id := ParseArgId(s, i + 1).value;
    var end := ParseField(s, i).value.end;
    if s[id.1] == ':' {
      var w := SpecsOnly(s, id.1 + 1);
      p := Piece("", id.0, Some(w));
      CutSpecs(s, id.1, end);
    } else {
      p := Piece("", id.0, None);
    }
    CutField(s, i, id.1, end);
  }

  lemma {:induction false} CutField(s: string, i: nat, j: nat, end: nat)
    requires i < j < end <= |s| && s[i] == '{'
    ensures s[i..end] == "{" + (s[i + 1..j] + s[j..end])
  {
  }

  lemma {:induction false} CutSpecs(s: string, j: nat, end: nat)
    requires j + 1 < end <= |s| && s[j] == ':' && s[end - 1] == '}'
    ensures s[j..end] == ":" + (s[j + 1..end - 1] + "}")
  {
  }

  lemma {:induction false} ReferredIs(ref: Ref, next: int, args: Args)
    ensures Referred(ref, next, args)
         == match FormatSyntax.Number(ref, next)
            case None => None
            case Some(id) => match Lookup(id.0, args) case None => None case Some(arg) => Some((arg, id.1))
  {
  }

  lemma {:induction false} MeasuredIs(a: Amount, default: int, next: int, args: Args)
    requires IsAmount(a)
    ensures InterpMeasure(AmountValue(a, default), next, args) == Measured(a, default, next, args)
  {
    match a
    case Nested(ref) =>
      ReferredIs(ref, next, args);
      hide Referred, FormatSyntax.Number, Lookup;
    case Absent =>
    case Number(digits) =>
  }

  lemma {:induction false} FieldPrints(p: Piece, end: nat, next: int, args: Args, w: Writer)
    requires Fits(p)
    ensures InterpField(FieldOf(p, end), next, args, w) == Printed(p, next, args, w)
  {
    ReferredIs(p.ref, next, args);
    var arg := Referred(p.ref, next, args);
    if arg.Some? && p.specs.Some? {
      var t := p.specs.value;
      AmountsWellFormed(t);
      MeasuredIs(t.width, 0, arg.value.1, args);
      var width := Measured(t.width, 0, arg.value.1, args);
      if width.Some? {
        MeasuredIs(t.precision, -1, width.value.1, args);
      }
    }
    hide Referred, FormatSyntax.Number, Lookup, Measured, InterpMeasure, AmountValue, IsAmount, IsCodePoint;
  }

  // ---- Whole strings ----

  lemma {:induction false} PrependNothing(rest: Option<string>)
    ensures Prepend("", rest) == rest
  {
    if rest.Some? {
      assert "" + rest.value == rest.value;
    }
  }

  lemma {:induction false} PrependTwice(a: string, b: string, rest: Option<string>)
    ensures Prepend(a, Prepend(b, rest)) == Prepend(a + b, rest)
  {
    if rest.Some? {
      assert a + (b + rest.value) == a + b + rest.value;
    }
  }

  lemma {:induction false} DoubledHead(s: string, i: nat, c: char, next: int, args: Args, w: Writer)
    requires i < |s| && s[i] == c && (IsBrace(c) ==> i + 1 < |s| && s[i + 1] == c)
    ensures Interpret(s, i, next, args, w)
         == Prepend([c], Interpret(s, i + if IsBrace(c) then 2 else 1, next, args, w))
  {
    hide Prepend, ParseField;
  }

  /** Text with each brace doubled prints as it was, in the middle of a format. */
  lemma {:induction false} DoubledPrefix(pre: string, t: string, rest: string, next: int, args: Args, w: Writer)
    ensures var s := pre + Double(t) + rest;
            Interpret(s, |pre|, next, args, w) == Prepend(t, Interpret(s, |pre| + |Double(t)|, next, args, w))
    decreases |t|
  {
    hide Interpret;
    var s := pre + Double(t) + rest;
    if t == "" {
      assert s == pre + rest;
      PrependNothing(Interpret(s, |pre|, next, args, w));
    } else {
      var head := if IsBrace(t[0]) then [t[0], t[0]] else [t[0]];
      assert s == (pre + head) + Double(t[1..]) + rest;
      DoubledPrefix(pre + head, t[1..], rest, next, args, w);
      assert s[|pre|] == head[0] && (IsBrace(t[0]) ==> s[|pre| + 1] == head[1]);
      DoubledHead(s, |pre|, t[0], next, args, w);
      PrependTwice([t[0]], t[1..], Interpret(s, |pre| + |Double(t)|, next, args, w));
      assert [t[0]] + t[1..] == t;
    }
  }

  lemma {:induction false} InterpretField(s: string, i: nat, next: int, args: Args, w: Writer)
    requires i + 1 < |s| && s[i] == '{' && s[i + 1] != '{' && ParseField(s, i).Some?
    ensures var f := ParseField(s, i).value;
            Interpret(s, i, next, args, w)
            == (match InterpField(f, next, args, w)
                case None => None
                case Some(text) => Prepend(text.0, Interpret(s, f.end, text.1, args, w)))
  {
    hide ParseField, InterpField, Prepend;
  }

  lemma {:induction false} FieldHere(s: string, i: nat, p: Piece, next: int, args: Args, w: Writer)
    requires Fits(p) && At(s, i, FieldText(p))
    ensures i + |FieldText(p)| <= |s|
    ensures Interpret(s, i, next, args, w)
         == (match Printed(p, next, args, w)
             case None => None
             case Some(r) => Prepend(r.0, Interpret(s, i + |FieldText(p)|, r.1, args, w)))
  {
    hide ParseField, InterpField, Prepend, Interpret, Printed, FieldText, Fits;
    FieldRead(s, i, p);
    FieldPrints(p, i + |FieldText(p)|, next, args, w);
    InterpretField(s, i, next, args, w);
  }

  lemma {:induction false} Gathered(a: string, b: string, rest: Option<string>, tail: string)
    ensures Prepend(a, Prepend(b, match rest case None => None case Some(r) => Some(r + tail)))
         == match Prepend(a + b, rest) case None => None case Some(r) => Some(r + tail)
  {
    if rest.Some? {
      assert a + (b + (rest.value + tail)) == a + b + rest.value + tail;
    }
  }

  lemma {:induction false} AtMiddle(a: string, b: string, c: string)
    ensures At(a + b + c, |a|, b)
  {
  }

  /**
   Main result: a string of any pieces, with any text behind, prints each piece in turn, each
   field with the arguments it names, or that come next, and with the specifiers written in it.
   */
  lemma {:induction false} FormatMeans(pre: string, pieces: seq<Piece>, tail: string, next: int, args: Args, w: Writer)
    requires forall p <- pieces :: Fits(p)
    ensures Interpret(pre + FormatText(pieces) + Double(tail), |pre|, next, args, w)
         == (match PiecesMean(pieces, next, args, w)
             case None => None
             case Some(r) => Some(r + tail))
    decreases |pieces|
  {
    hide Interpret, Double, Fits, Printed, FieldText, Prepend, At;
    var s := pre + FormatText(pieces) + Double(tail);
    if pieces == [] {
      assert s == pre + Double(tail) + "";
      DoubledPrefix(pre, tail, "", next, args, w);
      InterpretEnd(s, next, args, w);
      PrependEnd(tail);
    } else {
      var p, more := pieces[0], FormatText(pieces[1..]) + Double(tail);
      assert p in pieces && forall q <- pieces[1..] :: q in pieces;
      var front := pre + Double(p.text);
      assert s == pre + Double(p.text) + (FieldText(p) + more);
      DoubledPrefix(pre, p.text, FieldText(p) + more, next, args, w);
      assert s == front + FieldText(p) + more;
      AtMiddle(front, FieldText(p), more);
      FieldHere(s, |front|, p, next, args, w);
      var one := Printed(p, next, args, w);
      if one.Some? {
        assert s == (front + FieldText(p)) + FormatText(pieces[1..]) + Double(tail);
        FormatMeans(front + FieldText(p), pieces[1..], tail, one.value.1, args, w);
        Gathered(p.text, one.value.0, PiecesMean(pieces[1..], one.value.1, args, w), tail);
      }
      PrependNone(p.text);
    }
  }

  lemma {:induction false} InterpretEnd(s: string, next: int, args: Args, w: Writer)
    ensures Interpret(s, |s|, next, args, w) == Some("")
  {
  }

  lemma {:induction false} PrependEnd(t: string)
    ensures Prepend(t, Some("")) == Some("" + t)
  {
    assert t + "" == "" + t;
  }

  lemma {:induction false} PrependNone(t: string)
    ensures Prepend(t, None) == None
  {
  }

  // ---- Compiled, too ----

  /** The type of a written field is no brace, so the counter is not led astray. */
  lemma {:induction false} NoExtra(p: Piece, end: nat)
    requires Fits(p)
    ensures FieldExtra(FieldOf(p, end)) == 0
  {
  }

  lemma {:induction false} DoubledLast(pre: string, t: string, rest: string)
    ensures var s := pre + Double(t) + rest;
            BraceTypeLast(s, |pre|) == BraceTypeLast(s, |pre| + |Double(t)|)
    decreases |t|
  {
    hide BraceTypeLast;
    var s := pre + Double(t) + rest;
    if t == "" {
      assert s == pre + rest;
    } else {
      var head := if IsBrace(t[0]) then [t[0], t[0]] else [t[0]];
      assert s == (pre + head) + Double(t[1..]) + rest;
      DoubledLast(pre + head, t[1..], rest);
      assert s[|pre|] == head[0] && (IsBrace(t[0]) ==> s[|pre| + 1] == head[1]);
      DoubledLastHead(s, |pre|, t[0]);
    }
  }

  lemma {:induction false} DoubledLastHead(s: string, i: nat, c: char)
    requires i < |s| && s[i] == c && (IsBrace(c) ==> i + 1 < |s| && s[i + 1] == c)
    ensures BraceTypeLast(s, i) == BraceTypeLast(s, i + if IsBrace(c) then 2 else 1)
  {
    hide ParseField;
    if c == '}' {
      assert BraceTypeLast(s, i) == BraceTypeLast(s, i + 1) == BraceTypeLast(s, i + 2);
    }
  }

  lemma {:induction false} FieldLast(s: string, i: nat, p: Piece)
    requires Fits(p) && At(s, i, FieldText(p))
    ensures i + |FieldText(p)| <= |s| && BraceTypeLast(s, i) == BraceTypeLast(s, i + |FieldText(p)|)
  {
    hide FieldText, At, ParseField, FieldExtra, RefText;
    FieldRead(s, i, p);
    NoExtra(p, i + |FieldText(p)|);
  }

  /** In a string of pieces no field but the last thing has a brace for its type: none has. */
  lemma {:induction false} PiecesLast(pre: string, pieces: seq<Piece>, tail: string)
    requires forall p <- pieces :: Fits(p)
    ensures BraceTypeLast(pre + FormatText(pieces) + Double(tail), |pre|)
    decreases |pieces|
  {
    hide Double, Fits, FieldText, At, BraceTypeLast;
    var s := pre + FormatText(pieces) + Double(tail);
    if pieces == [] {
      assert s == pre + Double(tail) + "";
      DoubledLast(pre, tail, "");
      LastEnd(s);
    } else {
      var p, more := pieces[0], FormatText(pieces[1..]) + Double(tail);
      assert p in pieces && forall q <- pieces[1..] :: q in pieces;
      var front := pre + Double(p.text);
      assert s == pre + Double(p.text) + (FieldText(p) + more);
      DoubledLast(pre, p.text, FieldText(p) + more);
      assert s == front + FieldText(p) + more;
      AtMiddle(front, FieldText(p), more);
      FieldLast(s, |front|, p);
      assert s == (front + FieldText(p)) + FormatText(pieces[1..]) + Double(tail);
      PiecesLast(front + FieldText(p), pieces[1..], tail);
    }
  }

  lemma {:induction false} LastEnd(s: string)
    ensures BraceTypeLast(s, |s|)
  {
  }

  /** Compiling such a string and then formatting it prints what its pieces mean, if they mean anything. */
  lemma {:induction false} CompiledPieces(pieces: seq<Piece>, tail: string, args: Args, w: Writer)
    requires (forall p <- pieces :: Fits(p)) && PiecesMean(pieces, 0, args, w).Some?
    ensures FormatCompiled(FormatText(pieces) + Double(tail), args, w)
         == Some(PiecesMean(pieces, 0, args, w).value + tail)
  {
    hide FormatText, PiecesMean, Double, FormatCompiled, Interpret, Fits, BraceTypeLast, Sound, Meaning;
    var s := FormatText(pieces) + Double(tail);
    FromNothing(pieces, tail, args, w);
    PrintedIsSound(s, args, w);
    CompiledMeaning(s, args, w);
    MeaningIs(s, args, w);
  }

  lemma {:induction false} MeaningIs(s: string, args: Args, w: Writer)
    ensures Meaning(s, args, w) == Interpret(s, 0, 0, args, w)
  {
    hide Interpret;
  }

  lemma {:induction false} FromNothing(pieces: seq<Piece>, tail: string, args: Args, w: Writer)
    requires forall p <- pieces :: Fits(p)
    ensures var s := FormatText(pieces) + Double(tail);
            && BraceTypeLast(s, 0)
            && Interpret(s, 0, 0, args, w) == (match PiecesMean(pieces, 0, args, w)
                                               case None => None
                                               case Some(r) => Some(r + tail))
  {
    hide FormatText, PiecesMean, Double, Interpret, Fits, BraceTypeLast;
    assert "" + FormatText(pieces) + Double(tail) == FormatText(pieces) + Double(tail);
    FormatMeans("", pieces, tail, 0, args, w);
    PiecesLast("", pieces, tail);
  }

  /** Of what the interpreter prints, only a brace for a type can be lost. */
  lemma {:induction false} PrintedIsSound(s: string, args: Args, w: Writer)
    requires BraceTypeLast(s, 0) && Interpret(s, 0, 0, args, w).Some?
    ensures Sound(s, args)
  {
    hide CompileTree, CompileParts, BraceTypeLast, BracesClosed, Interpret, RunTree, FormatAll, ArgsPresent;
    if s != "" {
      TreeMeaning(s, 0, 0, args, w);
      PartsMeaning(s, 0, 0, args, w);
    }
  }
}
