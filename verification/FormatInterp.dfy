/**
 The reference meaning of a format string: a direct left-to-right interpreter, as
 `format_handler` is (format.h:2918-2969). It looks at one character or one field at a
 time and keeps nothing but the automatic argument index.
 */
module FormatInterp {
  import opened Options
  import opened FormatSyntax

  /** An argument. Only integers matter here, because they can be dynamic widths. */
  datatype Arg = Integer(value: int) | Other(tag: nat)

  datatype Args = Args(vals: seq<Arg>, names: map<string, nat>)

  function Lookup(ref: ArgRef, args: Args): Option<Arg> {
    match ref
    case ById(id) => if id < |args.vals| then Some(args.vals[id]) else None
    case ByName(name) =>
      if name in args.names && args.names[name] < |args.vals|
      then Some(args.vals[args.names[name]]) else None
  }

  /** `basic_format_specs`: specifiers with every dynamic width resolved. */
  datatype Specs = Specs(fill: string, align: Align, sign: Sign, alt: bool,
                         width: int, precision: int, kind: char)

  /** How values print: the part of the library this model takes as given. */
  datatype Writer = Writer(plain: Arg -> string, styled: (Arg, Specs) -> Option<string>)

  /** `get_dynamic_spec` (format.h:2434-2440). */
  function DynamicValue(arg: Option<Arg>): Option<int> {
    match arg
    case Some(Integer(v)) => if 0 <= v <= MAX_INT then Some(v) else None
    case _ => None
  }

  /** A width or precision read and resolved on the spot (`specs_handler`). */
  function InterpMeasure(m: Measure, next: int, args: Args): Option<(int, int)> {
    match m
    case Value(v) => Some((v, next))
    case Dynamic(ref) =>
      var id :- Number(ref, next);
      var v :- DynamicValue(Lookup(id.0, args));
      Some((v, id.1))
  }

  function InterpSpecs(raw: RawSpecs, next: int, args: Args): Option<(Specs, int)> {
    var w :- InterpMeasure(raw.width, next, args);
    var p :- InterpMeasure(raw.precision, w.1, args);
    Some((Specs(raw.fill, raw.align, raw.sign, raw.alt, w.0, p.0, raw.kind), p.1))
  }

  /** The text of one field and the next automatic index. */
  function InterpField(f: Field, next: int, args: Args, w: Writer): Option<(string, int)> {
    var id :- Number(f.ref, next);
    var arg :- Lookup(id.0, args);
    match f.specs
    case None => Some((w.plain(arg), id.1))
    case Some(raw) =>
      var specs :- InterpSpecs(raw, id.1, args);
      var text :- w.styled(arg, specs.0);
      Some((text, specs.1))
  }

  function Interpret(s: string, i: nat, next: int, args: Args, w: Writer): Option<string>
    requires i <= |s|
    decreases |s| - i
  {
    if i == |s| then Some("")
    else if s[i] == '{' then
      if i + 1 == |s| then None
      else if s[i + 1] == '{' then Prepend("{", Interpret(s, i + 2, next, args, w))
      else
        var f :- ParseField(s, i);
        var text :- InterpField(f, next, args, w);
        Prepend(text.0, Interpret(s, f.end, text.1, args, w))
    else if s[i] == '}' then
      if i + 1 < |s| && s[i + 1] == '}' then Prepend("}", Interpret(s, i + 2, next, args, w)) else None
    else Prepend([s[i]], Interpret(s, i + 1, next, args, w))
  }

  /** What formatting the whole string means. */
  function Meaning(s: string, args: Args, w: Writer): Option<string> {
    Interpret(s, 0, 0, args, w)
  }

  /** `handle_dynamic_spec` (format.h:3094-3109): resolution at formatting time. */
  function ResolveMeasure(m: DynMeasure, args: Args): Option<int> {
    match m
    case Fixed(v) => Some(v)
    case FromArg(ref) => DynamicValue(Lookup(ref, args))
  }

  function ResolveSpecs(d: DynSpecs, args: Args): Option<Specs> {
    var w :- ResolveMeasure(d.width, args);
    var p :- ResolveMeasure(d.precision, args);
    Some(Specs(d.fill, d.align, d.sign, d.alt, w, p, d.kind))
  }

  /** Numbering now and resolving later is the same as resolving on the spot. */
  lemma {:induction false} LateResolution(raw: RawSpecs, next: int, args: Args)
    ensures InterpSpecs(raw, next, args)
         == (match NumberSpecs(raw, next)
             case None => None
             case Some(n) =>
               match ResolveSpecs(n.0, args)
               case None => None
               case Some(specs) => Some((specs, n.1)))
  {
  }

  /** Brace-free text is copied. */
  lemma {:induction false} InterpretText(s: string, i: nat, j: nat, next: int, args: Args, w: Writer)
    requires i <= j <= |s|
    requires forall k :: i <= k < j ==> !IsBrace(s[k])
    ensures Interpret(s, i, next, args, w) == Prepend(s[i..j], Interpret(s, j, next, args, w))
    decreases j - i
  {
    if i < j {
      InterpretText(s, i + 1, j, next, args, w);
      assert s[i..j] == [s[i]] + s[i + 1..j];
      if Interpret(s, j, next, args, w).Some? {
        var r := Interpret(s, j, next, args, w).value;
        assert [s[i]] + (s[i + 1..j] + r) == s[i..j] + r;
      }
    } else if Interpret(s, j, next, args, w).Some? {
      assert s[i..j] + Interpret(s, j, next, args, w).value == Interpret(s, j, next, args, w).value;
    }
  }
}
