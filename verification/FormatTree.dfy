/**
 The tree form of a compiled format string: `compile_format_string` and the `format`
 members of `text`, `code_unit`, `field`, `spec_field` and `concat`
 (`src/3rdparty/fmt/compile.h`).
 */
module FormatTree {
  import opened Options
  import opened FormatSyntax
  import opened FormatInterp

  datatype Tree =
    | Text(data: string)
    | CodeUnit(value: char)
    | FieldN(n: nat)
    | SpecField(n: nat, specs: DynSpecs)
    | Concat(lhs: Tree, rhs: Tree)

  /** `Unknown` is `unknown_format`; `Error` is a format string that does not compile. */
  datatype Compiled = Error | Unknown | Ok(tree: Tree)

  function RunTree(t: Tree, args: Args, w: Writer): Option<string> {
    match t
    case Text(data) => Some(data)
    case CodeUnit(value) => Some([value])
    case FieldN(n) => if n < |args.vals| then Some(w.plain(args.vals[n])) else None
    case SpecField(n, specs) =>
      if n >= |args.vals| then None
      else
        var resolved :- ResolveSpecs(specs, args);
        w.styled(args.vals[n], resolved)
    case Concat(lhs, rhs) =>
      var out :- RunTree(lhs, args, w);
      Prepend(out, RunTree(rhs, args, w))
  }

  /** `parse_text`, the loop. */
  method ParseText(str: string, start: nat) returns (pos: nat)
    requires start <= |str|
    ensures pos == TextEnd(str, start)
  {
    pos := start;
    while pos != |str|
      invariant start <= pos <= |str|
      invariant TextEnd(str, start) == TextEnd(str, pos)
    {
      if str[pos] == '{' || str[pos] == '}' {
        break;
      }
      pos := pos + 1;
    }
  }

  /** What `parse_specs` returns: the formatter's specifiers, `end` and `next_arg_id`. */
  datatype SpecsResult = SpecsResult(specs: DynSpecs, end: nat, next: nat)

  /**
   `parse_specs` (compile.h:511-519). The position it returns is one past wherever the
   specifier parser stopped: nothing checks that a '}' is there.
   */
  function ParseSpecField(s: string, pos: nat, id: nat): (r: Option<SpecsResult>)
    requires pos <= |s|
    ensures r.Some? ==> r.value.end > pos
  {
    var raw :- ParseSpecs(s, pos);
    var specs :- NumberSpecs(raw.0, id + 1);
    if specs.1 < 0 then None else Some(SpecsResult(specs.0, raw.1 + 1, specs.1))
  }

  /** `parse_tail` (compile.h:490-503). */
  function ParseTail(head: Tree, s: string, pos: nat, id: nat, nargs: nat): Compiled
    decreases |s| as int - pos as int, 1
  {
    if pos == |s| then Ok(head)
    else if pos > |s| then Error
    else
      match CompileTree(s, pos, id, nargs)
      case Ok(tail) => Ok(Concat(head, tail))
      case other => other
  }

  /** `compile_format_string` (compile.h:523-558) for `nargs` arguments. */
  function CompileTree(s: string, pos: nat, id: nat, nargs: nat): Compiled
    requires pos < |s|
    decreases |s| - pos, 0
  {
    if s[pos] == '{' then
      if pos + 1 == |s| then Error
      else if s[pos + 1] == '{' then ParseTail(Text("{"), s, pos + 2, id, nargs)
      else if s[pos + 1] == '}' then
        if id >= nargs then Error else ParseTail(FieldN(id), s, pos + 2, id + 1, nargs)
      else if s[pos + 1] == ':' then
        if id >= nargs then Error
        else
          match ParseSpecField(s, pos + 2, id)
          case None => Error
          case Some(r) => ParseTail(SpecField(id, r.specs), s, r.end, r.next, nargs)
      else Unknown
    else if s[pos] == '}' then
      if pos + 1 == |s| then Error else ParseTail(Text("}"), s, pos + 2, id, nargs)
    else
      var end := TextEnd(s, pos + 1);
      ParseTail(if end - pos > 1 then Text(s[pos..end]) else CodeUnit(s[pos]), s, end, id, nargs)
  }

  /**
   The two things the compiler takes on trust: the second character of a "}}" and the
   '}' after a field's specifiers. Decidable from the string alone.
   */
  predicate BracesClosed(s: string, pos: nat)
    decreases |s| as int - pos as int
  {
    if pos >= |s| then true
    else if s[pos] == '{' then
      if pos + 1 == |s| then true
      else if s[pos + 1] == '{' || s[pos + 1] == '}' then BracesClosed(s, pos + 2)
      else if s[pos + 1] == ':' then
        var r := ParseSpecs(s, pos + 2);
        r.Some? ==> r.value.1 < |s| && s[r.value.1] == '}' && BracesClosed(s, r.value.1 + 1)
      else true
    else if s[pos] == '}' then
      pos + 1 < |s| ==> s[pos + 1] == '}' && BracesClosed(s, pos + 2)
    else BracesClosed(s, pos + 1)
  }

  /** Text without braces plays no part in `BracesClosed`. */
  lemma {:induction false} BracesClosedText(s: string, i: nat, j: nat)
    requires i <= j <= |s|
    requires forall k :: i <= k < j ==> !IsBrace(s[k])
    ensures BracesClosed(s, i) == BracesClosed(s, j)
    decreases j - i
  {
    if i < j {
      BracesClosedText(s, i + 1, j);
    }
  }

  /** What a compilation result has to do with the interpreter running from `pos`. */
  predicate Agrees(c: Compiled, closed: bool, meaning: Option<string>, args: Args, w: Writer) {
    match c
    case Error => meaning == None
    case Unknown => true
    case Ok(tree) => meaning == if closed then RunTree(tree, args, w) else None
  }

  /** A head that means `text`, put in front of a tail that agrees, agrees. */
  lemma {:induction false} TailAgrees(head: Tree, text: Option<string>, s: string, pos: nat, id: nat,
                                      args: Args, w: Writer)
    requires pos <= |s|
    requires RunTree(head, args, w) == text
    requires pos < |s| ==> Agrees(CompileTree(s, pos, id, |args.vals|), BracesClosed(s, pos),
                                  Interpret(s, pos, id, args, w), args, w)
    ensures Agrees(ParseTail(head, s, pos, id, |args.vals|), BracesClosed(s, pos),
                   if text.None? then None else Prepend(text.value, Interpret(s, pos, id, args, w)), args, w)
  {
    if pos == |s| && text.Some? {
      assert text.value + "" == text.value;
    }
  }

  /**
   Compiling to a tree preserves meaning. A string that does not compile means nothing;
   a tree prints what the interpreter prints if every brace is closed where the compiler
   assumes it is, and otherwise the interpreter rejects the string.
   */
  lemma {:induction false} TreeMeaning(s: string, pos: nat, id: nat, args: Args, w: Writer)
    requires pos < |s|
    ensures Agrees(CompileTree(s, pos, id, |args.vals|), BracesClosed(s, pos),
                   Interpret(s, pos, id, args, w), args, w)
    decreases |s| - pos
  {
    var c := s[pos];
    if !IsBrace(c) {
      TextRunAgrees(s, pos, id, args, w);
    } else if pos + 1 == |s| {
    } else if c == '}' || s[pos + 1] == '{' {
      if pos + 2 < |s| {
        TreeMeaning(s, pos + 2, id, args, w);
      }
      TailAgrees(Text([c]), Some([c]), s, pos + 2, id, args, w);
    } else if s[pos + 1] == '}' && id < |args.vals| {
      if pos + 2 < |s| {
        TreeMeaning(s, pos + 2, id + 1, args, w);
      }
      TailAgrees(FieldN(id), Some(w.plain(args.vals[id])), s, pos + 2, id + 1, args, w);
    } else if s[pos + 1] == ':' && id < |args.vals| {
      SpecFieldAgrees(s, pos, id, args, w);
    }
  }

  lemma {:induction false} TextRunAgrees(s: string, pos: nat, id: nat, args: Args, w: Writer)
    requires pos < |s| && !IsBrace(s[pos])
    ensures Agrees(CompileTree(s, pos, id, |args.vals|), BracesClosed(s, pos),
                   Interpret(s, pos, id, args, w), args, w)
    decreases |s| - pos, 0
  {
    var end := TextEnd(s, pos + 1);
    var head := if end - pos > 1 then Text(s[pos..end]) else CodeUnit(s[pos]);
    if end < |s| {
      TreeMeaning(s, end, id, args, w);
    }
    InterpretText(s, pos, end, id, args, w);
    BracesClosedText(s, pos, end);
    assert end - pos == 1 ==> [s[pos]] == s[pos..end];
    TailAgrees(head, Some(s[pos..end]), s, end, id, args, w);
  }

  /** A numbered field with specifiers, at the compiler's numbering. */
  lemma {:induction false} SpecFieldText(raw: RawSpecs, end: nat, id: nat, args: Args, w: Writer)
    requires id < |args.vals|
    ensures InterpField(Field(Auto, Some(raw), end), id, args, w)
         == (match NumberSpecs(raw, id + 1)
             case None => None
             case Some(specs) =>
               match RunTree(SpecField(id, specs.0), args, w)
               case None => None
               case Some(text) => Some((text, specs.1)))
  {
    LateResolution(raw, id + 1, args);
  }

  /** Indices given out after an automatic one are never negative. */
  lemma {:induction false} NumberedOn(raw: RawSpecs, next: int)
    requires next > 0
    ensures NumberSpecs(raw, next).Some? ==> NumberSpecs(raw, next).value.1 >= next
  {
  }

  /** The interpreter on a field "{:specs}" whose specifiers stop at a '}'. */
  lemma {:induction false} SpecFieldMeaning(s: string, pos: nat, id: nat, args: Args, w: Writer,
                                            raw: RawSpecs, stop: nat)
    requires pos + 1 < |s| && s[pos] == '{' && s[pos + 1] == ':' && id < |args.vals|
    requires pos < stop < |s| && ParseField(s, pos) == Some(Field(Auto, Some(raw), stop + 1))
    ensures Interpret(s, pos, id, args, w)
         == (match NumberSpecs(raw, id + 1)
             case None => None
             case Some(specs) =>
               match RunTree(SpecField(id, specs.0), args, w)
               case None => None
               case Some(text) => Prepend(text, Interpret(s, stop + 1, specs.1, args, w)))
  {
    hide ParseSpecs, ParseArgId, NumberSpecs, RunTree, InterpField, ParseField;
    SpecFieldText(raw, stop + 1, id, args, w);
  }

  /** The interpreter rejects a field "{:specs}" whose specifiers stop anywhere else. */
  lemma {:induction false} OpenSpecFieldMeaning(s: string, pos: nat, id: nat, args: Args, w: Writer)
    requires pos + 1 < |s| && s[pos] == '{' && s[pos + 1] == ':'
    requires var r := ParseSpecs(s, pos + 2); r.Some? ==> r.value.1 == |s| || s[r.value.1] != '}'
    ensures Interpret(s, pos, id, args, w) == None
  {
    assert ParseArgId(s, pos + 1) == Some((Auto, pos + 1));
    assert ParseField(s, pos) == None;
  }

  lemma {:induction false} SpecFieldAgrees(s: string, pos: nat, id: nat, args: Args, w: Writer)
    requires pos + 1 < |s| && s[pos] == '{' && s[pos + 1] == ':' && id < |args.vals|
    ensures Agrees(CompileTree(s, pos, id, |args.vals|), BracesClosed(s, pos),
                   Interpret(s, pos, id, args, w), args, w)
    decreases |s| - pos, 0
  {
    hide ParseAlign, ParseSign, ParseHash, ParseZero, ParseWidth, ParsePrecision, ParseKind;
    var raw := ParseSpecs(s, pos + 2);
    if raw.None? || raw.value.1 == |s| || s[raw.value.1] != '}' {
      OpenSpecFieldMeaning(s, pos, id, args, w);
    } else {
      assert ParseArgId(s, pos + 1) == Some((Auto, pos + 1));
      SpecFieldMeaning(s, pos, id, args, w, raw.value.0, raw.value.1);
      NumberedOn(raw.value.0, id + 1);
      var r := ParseSpecField(s, pos + 2, id);
      if r.Some? {
        if r.value.end < |s| {
          TreeMeaning(s, r.value.end, r.value.next, args, w);
        }
        var head := SpecField(id, r.value.specs);
        TailAgrees(head, RunTree(head, args, w), s, r.value.end, r.value.next, args, w);
      }
    }
  }
}
