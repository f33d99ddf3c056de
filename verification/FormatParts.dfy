/**
 The flat form of a compiled format string: `part_counter`, `format_string_compiler`,
 `compile_to_parts` and `cf::vformat_to` (`src/3rdparty/fmt/compile.h`).
 */
module FormatParts {
  import opened Options
  import opened FormatSyntax
  import opened FormatInterp

  /** `format_part`: literal text, a plain argument, or an argument with specifiers. */
  datatype Part =
    | TextPart(str: string)
    | ArgPart(ref: ArgRef)
    | Replacement(ref: ArgRef, specs: DynSpecs)

  function CompileField(f: Field, next: int): Option<(Part, int)> {
    var id :- Number(f.ref, next);
    match f.specs
    case None => Some((ArgPart(id.0), id.1))
    case Some(raw) =>
      var specs :- NumberSpecs(raw, id.1);
      Some((Replacement(id.0, specs.0), specs.1))
  }

  function Cons(p: Part, rest: Option<seq<Part>>): Option<seq<Part>> {
    var ps :- rest;
    Some([p] + ps)
  }

  /** The parts handed to the handler, in order; `None` if the string does not compile. */
  function CompileParts(s: string, i: nat, next: int): Option<seq<Part>>
    requires i <= |s|
    decreases |s| - i
  {
    if i == |s| then Some([])
    else if s[i] == '{' then
      if i + 1 == |s| then None
      else if s[i + 1] == '{' then Cons(TextPart("{"), CompileParts(s, i + 2, next))
      else
        var f :- ParseField(s, i);
        var part :- CompileField(f, next);
        Cons(part.0, CompileParts(s, f.end, part.1))
    else
      var j := TextEnd(s, i);
      if j == |s| || s[j] == '{' then Cons(TextPart(s[i..j]), CompileParts(s, j, next))
      else if j + 1 < |s| && s[j + 1] == '}' then Cons(TextPart(s[i..j + 1]), CompileParts(s, j + 2, next))
      else None
  }

  // ---- Running the parts ----

  /** Specifiers that `numeric_specs_checker` refuses for an argument that is not there. */
  predicate NeedsNumber(specs: Specs) {
    specs.align == Numeric || specs.sign != NoSign || specs.alt
  }

  /**
   One round of the `cf::vformat_to` loop. Nothing checks that the argument is there: in a
   release build (`FMT_ASSERT` empty, core.h:281-282) a missing one prints as nothing.
   */
  function FormatPart(p: Part, args: Args, w: Writer): Option<string> {
    match p
    case TextPart(str) => Some(str)
    case ArgPart(ref) =>
      var arg := Lookup(ref, args);
      if arg.None? then Some("") else Some(w.plain(arg.value))
    case Replacement(ref, d) =>
      var specs :- ResolveSpecs(d, args);
      var arg := Lookup(ref, args);
      if arg.Some? then w.styled(arg.value, specs)
      else if NeedsNumber(specs) then None
      else Some("")
  }

  function FormatAll(parts: seq<Part>, args: Args, w: Writer): Option<string> {
    if parts == [] then Some("")
    else
      var out :- FormatPart(parts[0], args, w);
      Prepend(out, FormatAll(parts[1..], args, w))
  }

  /** The body of the loop of `cf::vformat_to` (compile.h:213-266). */
  method VformatPart(part: Part, args: Args, w: Writer) returns (text: Option<string>)
    ensures text == FormatPart(part, args, w)
  {
    hide ResolveSpecs, NeedsNumber;
    text := None;
    match part {
      case TextPart(str) =>
        text := Some(str);
      case ArgPart(ref) =>
        var arg := Lookup(ref, args);
        text := if arg.None? then Some("") else Some(w.plain(arg.value));
      case Replacement(ref, d) =>
        var specs := ResolveSpecs(d, args);
        if specs.Some? {
          var arg := Lookup(ref, args);
          if arg.Some? {
            text := w.styled(arg.value, specs.value);
          } else if !NeedsNumber(specs.value) {
            text := Some("");
          }
        }
    }
  }

  /** `cf::vformat_to` (compile.h:203-269). */
  method VformatTo(parts: array<Part>, args: Args, w: Writer) returns (r: Option<string>)
    ensures r == FormatAll(parts[..], args, w)
  {
    hide FormatPart;
    var out: string := "";
    var k := 0;
    ghost var whole := FormatAll(parts[..], args, w);
    assert parts[0..] == parts[..];
    assert whole.Some? ==> "" + whole.value == whole.value;
    while k != parts.Length
      invariant 0 <= k <= parts.Length
      invariant whole == Prepend(out, FormatAll(parts[k..], args, w))
    {
      var text := VformatPart(parts[k], args, w);
      assert parts[k..][1..] == parts[k + 1..];
      if text.None? {
        return None;
      }
      ghost var rest := FormatAll(parts[k + 1..], args, w);
      if rest.Some? {
        assert out + (text.value + rest.value) == out + text.value + rest.value;
      }
      out := out + text.value;
      k := k + 1;
    }
    assert out + "" == out;
    return Some(out);
  }

  /** Every argument that some part refers to was passed. */
  predicate ArgsPresent(parts: seq<Part>, args: Args) {
    forall p <- parts :: p.TextPart? || Lookup(p.ref, args).Some?
  }

  lemma {:induction false} ArgsPresentCons(p: Part, rest: seq<Part>, args: Args)
    ensures ArgsPresent([p] + rest, args)
        <==> (p.TextPart? || Lookup(p.ref, args).Some?) && ArgsPresent(rest, args)
  {
    assert forall q :: q in [p] + rest <==> q == p || q in rest;
  }

  predicate Agrees(parts: Option<seq<Part>>, meaning: Option<string>, args: Args, w: Writer) {
    match parts
    case None => meaning == None
    case Some(ps) => meaning == if ArgsPresent(ps, args) then FormatAll(ps, args, w) else None
  }

  lemma {:induction false} ConsAgrees(p: Part, rest: Option<seq<Part>>, meaning: Option<string>,
                                      args: Args, w: Writer)
    requires Agrees(rest, meaning, args, w)
    ensures Agrees(Cons(p, rest),
                   (if (p.TextPart? || Lookup(p.ref, args).Some?) && FormatPart(p, args, w).Some?
                    then Prepend(FormatPart(p, args, w).value, meaning) else None), args, w)
  {
    if rest.Some? {
      ArgsPresentCons(p, rest.value, args);
      assert ([p] + rest.value)[1..] == rest.value;
    }
  }

  lemma {:induction false} FieldAgrees(f: Field, next: int, args: Args, w: Writer)
    ensures InterpField(f, next, args, w)
         == (match CompileField(f, next)
             case None => None
             case Some(part) =>
               if Lookup(part.0.ref, args).None? then None
               else
                 match FormatPart(part.0, args, w)
                 case None => None
                 case Some(text) => Some((text, part.1)))
  {
    if f.specs.Some? && Number(f.ref, next).Some? {
      LateResolution(f.specs.value, Number(f.ref, next).value.1, args);
    }
  }

  /**
   The part array preserves meaning: a string that does not compile means nothing, and
   running the parts prints what the interpreter prints if every argument referred to was
   passed; otherwise the interpreter rejects the call.
   */
  lemma {:induction false} PartsMeaning(s: string, i: nat, next: int, args: Args, w: Writer)
    requires i <= |s|
    ensures Agrees(CompileParts(s, i, next), Interpret(s, i, next, args, w), args, w)
    decreases |s| - i
  {
    hide ParseField, CompileField, InterpField;
    if i == |s| || (s[i] == '{' && i + 1 == |s|) {
    } else if s[i] == '{' && s[i + 1] == '{' {
      PartsMeaning(s, i + 2, next, args, w);
      ConsAgrees(TextPart("{"), CompileParts(s, i + 2, next), Interpret(s, i + 2, next, args, w), args, w);
    } else if s[i] == '{' {
      var f := ParseField(s, i);
      if f.Some? {
        FieldAgrees(f.value, next, args, w);
        var part := CompileField(f.value, next);
        if part.Some? {
          var (p, n) := part.value;
          FieldIsNoText(f.value, next);
          PartsMeaning(s, f.value.end, n, args, w);
          ConsAgrees(p, CompileParts(s, f.value.end, n), Interpret(s, f.value.end, n, args, w), args, w);
        }
      }
    } else {
      TextRunAgrees(s, i, next, args, w);
    }
  }

  /** The parts of a string that starts with a field. */
  lemma {:induction false} FieldParts(s: string, i: nat, next: int)
    requires i + 1 < |s| && s[i] == '{' && s[i + 1] != '{'
    ensures CompileParts(s, i, next)
         == (match ParseField(s, i)
             case None => None
             case Some(f) =>
               match CompileField(f, next)
               case None => None
               case Some(p) => Cons(p.0, CompileParts(s, f.end, p.1)))
  {
    hide ParseField, CompileField;
  }

  lemma {:induction false} FieldIsNoText(f: Field, next: int)
    ensures CompileField(f, next).Some? ==> !CompileField(f, next).value.0.TextPart?
  {
  }

  lemma {:induction false} TextRunAgrees(s: string, i: nat, next: int, args: Args, w: Writer)
    requires i < |s| && s[i] != '{'
    ensures Agrees(CompileParts(s, i, next), Interpret(s, i, next, args, w), args, w)
    decreases |s| - i, 0
  {
    hide ParseField, InterpField, FormatAll;
    var j := TextEnd(s, i);
    if j == |s| || s[j] == '{' {
      assert i < j;
      InterpretText(s, i, j, next, args, w);
      PartsMeaning(s, j, next, args, w);
      ConsAgrees(TextPart(s[i..j]), CompileParts(s, j, next), Interpret(s, j, next, args, w), args, w);
    } else {
      InterpretTextAndBrace(s, i, j, next, args, w);
      if j + 1 < |s| && s[j + 1] == '}' {
        PartsMeaning(s, j + 2, next, args, w);
        ConsAgrees(TextPart(s[i..j + 1]), CompileParts(s, j + 2, next), Interpret(s, j + 2, next, args, w), args, w);
      }
    }
  }

  /** Text up to and including a '}'. */
  lemma {:induction false} InterpretTextAndBrace(s: string, i: nat, j: nat, next: int, args: Args, w: Writer)
    requires i <= j < |s| && s[j] == '}'
    requires forall k :: i <= k < j ==> !IsBrace(s[k])
    ensures Interpret(s, i, next, args, w)
         == if j + 1 < |s| && s[j + 1] == '}'
            then Prepend(s[i..j + 1], Interpret(s, j + 2, next, args, w)) else None
  {
    hide ParseField, InterpField;
    InterpretText(s, i, j, next, args, w);
    if j + 1 < |s| && s[j + 1] == '}' && Interpret(s, j + 2, next, args, w).Some? {
      var rest := Interpret(s, j + 2, next, args, w).value;
      assert s[i..j + 1] == s[i..j] + "}";
      assert s[i..j] + ("}" + rest) == s[i..j + 1] + rest;
    }
  }
}
