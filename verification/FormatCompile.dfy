/**
 `compile` and `format` together (compile.h:560-578, 606-614, 625-635): which form a
 string compiles to, and exactly when formatting it means what the interpreter says.
 */
module FormatCompile {
  import opened Options
  import opened FormatSyntax
  import opened FormatInterp
  import opened FormatTree
  import opened FormatParts
  import opened FormatCount

  /** Running the flat form: it compiles if the array it is given has room for its parts. */
  function FormatFlat(s: string, args: Args, w: Writer): Option<string> {
    var parts :- CompileParts(s, 0, 0);
    if |parts| > CountParts(s) then None else FormatAll(parts, args, w)
  }

  /** Compiling and then formatting. `None` stands for an error at either time. */
  function FormatCompiled(s: string, args: Args, w: Writer): Option<string> {
    if s == "" then Some("")
    else
      match CompileTree(s, 0, 0, |args.vals|)
      case Error => None
      case Ok(tree) => RunTree(tree, args, w)
      case Unknown => FormatFlat(s, args, w)
  }

  /** What the caller has to check: about the string, and for the flat form the arguments. */
  predicate Sound(s: string, args: Args) {
    s == "" ||
    match CompileTree(s, 0, 0, |args.vals|)
    case Error => true
    case Ok(_) => BracesClosed(s, 0)
    case Unknown =>
      match CompileParts(s, 0, 0)
      case None => true
      case Some(parts) => BraceTypeLast(s, 0) && ArgsPresent(parts, args)
  }

  /**
   Compiling a format string preserves its meaning if it is `Sound`; if it is not, the
   interpreter rejects it or it does not compile. So of the strings that either of them
   prints, exactly the sound ones are printed alike.
   */
  lemma {:induction false} CompiledMeaning(s: string, args: Args, w: Writer)
    ensures Sound(s, args) ==> FormatCompiled(s, args, w) == Meaning(s, args, w)
    ensures Meaning(s, args, w).Some? || FormatCompiled(s, args, w).Some?
            ==> (FormatCompiled(s, args, w) == Meaning(s, args, w) <==> Sound(s, args))
  {
    MeaningOrError(s, args, w);
    hide *;
  }

  lemma {:induction false} MeaningOrError(s: string, args: Args, w: Writer)
    ensures Sound(s, args) ==> FormatCompiled(s, args, w) == Meaning(s, args, w)
    ensures !Sound(s, args) ==> Meaning(s, args, w) == None || FormatCompiled(s, args, w) == None
  {
    if s != "" {
      TreeMeaning(s, 0, 0, args, w);
      PartsMeaning(s, 0, 0, args, w);
      hide CompileTree, CompileParts, CountFrom, BraceTypeLast, BracesClosed, Interpret, RunTree;
      hide FormatAll, ArgsPresent;
      if CompileParts(s, 0, 0).Some? {
        CountExact(s, 0, 0, |s| >= 32);
      }
    }
  }

  /** When both forms exist they print the same. */
  lemma {:induction false} FormsAgree(s: string, args: Args, w: Writer)
    requires s != "" && CompileTree(s, 0, 0, |args.vals|).Ok? && BracesClosed(s, 0)
    requires CompileParts(s, 0, 0).Some? && ArgsPresent(CompileParts(s, 0, 0).value, args)
    ensures RunTree(CompileTree(s, 0, 0, |args.vals|).tree, args, w)
         == FormatAll(CompileParts(s, 0, 0).value, args, w)
  {
    TreeMeaning(s, 0, 0, args, w);
    PartsMeaning(s, 0, 0, args, w);
  }

  /** Every field from `i` on is written "{}" or "{:...}". */
  predicate AllAutomatic(s: string, i: nat)
    requires i <= |s|
    decreases |s| - i
  {
    if i == |s| then true
    else if s[i] == '{' && i + 1 < |s| then
      if s[i + 1] == '{' then AllAutomatic(s, i + 2)
      else
        && (s[i + 1] == '}' || s[i + 1] == ':')
        && var f := ParseField(s, i); f.Some? ==> AllAutomatic(s, f.value.end)
    else if s[i] == '}' && i + 1 < |s| then AllAutomatic(s, i + 2)
    else AllAutomatic(s, i + 1)
  }

  lemma {:induction false} AllAutomaticText(s: string, i: nat, j: nat)
    requires i <= j <= |s|
    requires forall k :: i <= k < j ==> !IsBrace(s[k])
    ensures AllAutomatic(s, i) == AllAutomatic(s, j)
    decreases j - i
  {
    if i < j {
      AllAutomaticText(s, i + 1, j);
    }
  }

  /**
   A string that compiles falls back to the flat form if and only if some field, however
   far into the string, names its argument.
   */
  lemma {:induction false} UnknownExactly(s: string, pos: nat, id: nat, nargs: nat)
    requires pos < |s| && BracesClosed(s, pos) && CompileTree(s, pos, id, nargs) != Error
    ensures CompileTree(s, pos, id, nargs) == Unknown <==> !AllAutomatic(s, pos)
    decreases |s| - pos
  {
    hide ParseSpecs;
    if !IsBrace(s[pos]) {
      var end := TextEnd(s, pos + 1);
      AllAutomaticText(s, pos, end);
      BracesClosedText(s, pos, end);
      if end < |s| {
        UnknownExactly(s, end, id, nargs);
      }
    } else if s[pos] == '}' || s[pos + 1] == '{' {
      if pos + 2 < |s| {
        UnknownExactly(s, pos + 2, id, nargs);
      }
    } else if s[pos + 1] == '}' {
      if pos + 2 < |s| {
        UnknownExactly(s, pos + 2, id + 1, nargs);
      }
    } else if s[pos + 1] == ':' {
      var r := ParseSpecField(s, pos + 2, id).value;
      if r.end < |s| {
        UnknownExactly(s, r.end, r.next, nargs);
      }
    }
  }

  // ---- Each condition is needed ----

  /** "}x" is rejected by the interpreter; compiled, it prints "}". */
  lemma {:induction false} SecondBraceUnchecked(s: string, args: Args, w: Writer)
    requires s == "}x"
    ensures FormatCompiled(s, args, w) == Some("}") && Meaning(s, args, w) == None
  {
    assert CompileTree(s, 0, 0, |args.vals|) == Ok(Text("}"));
  }

  /** "{:dx" is rejected by the interpreter; compiled, it prints its argument. */
  lemma {:induction false} SpecsEndUnchecked(s: string, arg: Arg, w: Writer)
    requires s == "{:dx"
    ensures var specs := Specs(" ", NoAlign, NoSign, false, 0, -1, 'd');
            FormatCompiled(s, Args([arg], map[]), w) == w.styled(arg, specs)
    ensures Meaning(s, Args([arg], map[]), w) == None
  {
    var args := Args([arg], map[]);
    DExample(s, 2);
    hide ParseSpecs, ParseAlign;
    assert ParseField(s, 0) == None;
    var d := DynSpecs(" ", NoAlign, NoSign, false, Fixed(0), Fixed(-1), 'd');
    assert ParseSpecField(s, 2, 0) == Some(SpecsResult(d, 4, 1));
    assert CompileTree(s, 0, 0, 1) == Ok(SpecField(0, d));
  }

  lemma {:induction false} DExample(s: string, i: nat)
    requires i + 1 < |s| && s[i] == 'd' && s[i + 1] == 'x'
    ensures ParseSpecs(s, i) == Some((DEFAULT_SPECS.(kind := 'd'), i + 1))
  {
  }

  lemma {:induction false} BraceTypeExample(s: string, i: nat)
    requires i + 2 < |s| && s[i] == '5' && s[i + 1] == '{' && s[i + 2] == '}'
    ensures ParseSpecs(s, i) == Some((DEFAULT_SPECS.(width := Value(5), kind := '{'), i + 2))
  {
    hide ParsePrecision;
    assert ParseAlign(s, i, DEFAULT_SPECS) == Some((DEFAULT_SPECS, i));
    assert ParseInt(s, i, 0) == Some((5, i + 1));
    PrecisionAbsent(s, i + 1, DEFAULT_SPECS.(width := Value(5)));
  }

  lemma {:induction false} PrecisionAbsent(s: string, i: nat, specs: RawSpecs)
    requires i < |s| && s[i] != '.'
    ensures ParsePrecision(s, i, specs) == Some((specs, i))
  {
  }

  /** In "{:5{}{}" the counter finds one part and the compiler two. */
  lemma {:induction false} CounterLedAstray(s: string)
    requires s == "{:5{}{}"
    ensures CompileParts(s, 0, 0).Some?
    ensures CountParts(s) == 1 && |CompileParts(s, 0, 0).value| == 2
  {
    hide ParseSpecs, CompileParts, CountFrom;
    BraceTypeExample(s, 2);
    var raw := DEFAULT_SPECS.(width := Value(5), kind := '{');
    assert ParseField(s, 0) == Some(Field(Auto, Some(raw), 5));
    assert ParseField(s, 5) == Some(Field(Auto, None, 7));
    FieldParts(s, 0, 0);
    FieldParts(s, 5, 1);
    EndParts(s, 2);
    assert BraceEnd(s, 6, 1) == BraceEnd(s, 7, 0);
    CountField(s, 0, false);
  }

  lemma {:induction false} EndParts(s: string, next: int)
    ensures CompileParts(s, |s|, next) == Some([])
    ensures CountFrom(s, |s|, false) == 0
  {
  }

  /** "{0}" without arguments is rejected by the interpreter; compiled, it prints nothing. */
  lemma {:induction false} MissingArgument(s: string, w: Writer)
    requires s == "{0}"
    ensures FormatCompiled(s, Args([], map[]), w) == Some("")
    ensures Meaning(s, Args([], map[]), w) == None
  {
    hide ParseSpecs, CompileParts, CountFrom;
    assert ParseField(s, 0) == Some(Field(Index(0), None, 3));
    FieldParts(s, 0, 0);
    EndParts(s, -1);
    var p := ArgPart(ById(0));
    assert [p] + [] == [p] && [p][1..] == [] && "" + "" == "";
    assert CompileParts(s, 0, 0) == Some([p]);
    assert CompileTree(s, 0, 0, 0) == Unknown;
    CountField(s, 0, false);
    assert FormatAll([p], Args([], map[]), w) == Some("");
  }
}
