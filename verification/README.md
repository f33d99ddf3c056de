# Formal model of the mining client's core

The repository is a mining client built on XMRig, with the {fmt} library vendored in. This
project models its most intricate parts in Dafny and proves what they are for:

- **Format strings** (`FormatSyntax`, `SpecGrammar`, `FormatInterp`, `FormatTree`,
  `FormatParts`, `FormatCount`, `FormatVisitors`, `FormatCompile`, `FormatArgs`). `compile.h` turns a format string into a
  tree, or into an array of parts whose length a different visitor computes beforehand.
  `FormatInterp` is the reference: a direct left-to-right interpreter. Both compiled forms
  are compared with it, and the two visitors with each other. `SpecGrammar` and `FormatArgs`
  say what the interpreter itself does: what specifiers mean, and which arguments fields
  print. How a single value prints is a parameter (`Writer`).
- **printf strings** (`Printf`, `PrintfArgs`, `Decimals`): the iterator parser of `printf.h`,
  with its digit-first branches, the literal text around conversions, and the argument that
  each conversion prints.
- **Argument lists** (`ArgStore`): packed type descriptors, and the dynamic store whose
  indices shift when the first named argument arrives.
- **Durations** (`Chrono`, `Duration`): the two passes over a duration format, the
  overflow-checked `safe_duration_cast` over machine integers of 8 to 64 bits and either sign,
  and the clock text.
- **Base32** (`Base32`): a bit buffer that is never masked, against section 6 of RFC 4648.
- **The result pipeline** (`Jobs`, `GpuResults`, `Pipeline`, `DoubleBuffer`): the concurrent
  parts, as steps of threads that interleave freely, with every step atomic and seen by all
  threads at once. Hash functions are parameters.
- **The miner and the network** (`Nonces`, `NonceRanges`, `Miner`, `Sequences`, `UserNonces`,
  `Network`): pausing, nonce counters, telling workers of news, and routing, as operations on
  explicit state and properties of all runs of them. `UserNonces` takes `setJob` apart, because workers run in the middle of it.
  `Delivery` runs the network and the pipeline together, from a job handed to the miner to
  the strategy that gets its results.
- **Generated headers** (`HeaderGen`): the printers of `opencl.js`, against a reader.

Code that changes things step by step is a `method` or a `class` here too; its contract ties
it to a function on values, and the lemmas are about that function. `dafny verify
dfyconfig.toml` checks everything.

## Where the code differs from what one expects

The model follows the code. Each of these has a lemma that shows it, and another one that
says when the expected property holds.

- The tree form of `compile` takes any character after a `}` outside a field for its double,
  and never looks at the character that ends the specifiers of `{:...}`: `"}x"` and `"{:dx"`
  compile (`FormatCompile.SecondBraceUnchecked`, `FormatCompile.SpecsEndUnchecked`). The
  flat form is exact on strings only if no field but the last thing has `{` as its type,
  because the counter then matches braces wrongly (`FormatCompile.CounterLedAstray`,
  `FormatCount.CountExact`), and prints nothing for a missing argument in a build without
  assertions (`FormatCompile.MissingArgument`). Together: `FormatCompile.CompiledMeaning`.
- The counter counts some fields the compiler rejects, for instance `"{2147483648}"`
  (`FormatCount.TooLargeIsCounted`), because its `on_error` returns.
- `pause-on-battery` implies "disabled on battery" exactly as long as the user does not
  resume with the option off (`Miner.BatteryOptionNeeded`, `Miner.BatteryExactly`).
- `Nonce::stop` lifts the pause whatever the miner's state, so "unpaused means active and
  enabled" is lost exactly by stopping a miner that is not to work (`Miner.SoundExactly`).
- A user's nonce counter can start again at zero after nonces were taken for the same job.
  `setJob` publishes a job before it resets the counter, and a worker can come in between
  (`UserNonces.TakenBeforeReset`). `reset` is never cleared but by another job, and an
  announced dataset handles the current job again: so it happens too when a second job is
  found ready before the callback for a first one arrives (`UserNonces.StartedOver`), and when
  the user pauses and resumes while a dataset is being built (`UserNonces.ResumedTooEarly`).
  `UserNonces.NoncesOnceExactly` and `UserNonces.UserJobNoncesExactly` say for all runs when
  no nonce is handed out twice.
- A result that is on its way while the pools are replaced is submitted to the new pools
  (`Network.SentToNewPools`). `Delivery.BackToItsSupplier` says for all runs when a result
  reaches the strategy that supplied its job.
- A reader of the GPU statistics can get a pair that no call stored (`DoubleBuffer.TornRead`);
  `DoubleBuffer.OneCallExactly` and `DoubleBuffer.TornExactly` say for every schedule when.
- Replacing the pools pauses the miner even while donated work goes on, if the old strategy
  has several pools (`Network.AfterPoolsReplaced`).

## Model

| member | source | states |
|---|---|---|
| FormatTree.ParseText | src/3rdparty/fmt/compile.h:479-485 | the first brace at or after a position, or the end |
| FormatTree.TreeMeaning | src/3rdparty/fmt/compile.h:487-558 | whatever the string, the arguments and the position: if braces outside fields are closed, running the compiled tree is what the interpreter prints, and a string the compiler rejects is rejected by the interpreter; if they are not, the interpreter rejects it |
| FormatTree.TailAgrees | src/3rdparty/fmt/compile.h:490-503 | putting a head before a compiled tail keeps the agreement, an unknown tail making the whole unknown |
| FormatTree.SpecFieldAgrees | src/3rdparty/fmt/compile.h:511-540 | the same agreement at a field with specifiers, nested argument references included |
| FormatInterp.LateResolution | src/3rdparty/fmt/compile.h:248-250 | numbering dynamic widths first and looking them up later gives what looking them up at once gives |
| SpecGrammar.SpecRoundTrip | src/3rdparty/fmt/format.h:2744-2793 | the text of any fill, alignment, sign, '#', '0', width, precision (each absent, a number or a nested reference) and type, in front of a closing brace, reads back to exactly these values, and reading stops at the brace |
| SpecGrammar.SpecsOnly | src/3rdparty/fmt/format.h:2661-2793 | whatever the parser accepts in front of a closing brace is such a text, with its values |
| SpecGrammar.RefRead | src/3rdparty/fmt/format.h:2585-2616 | an argument id as written (none, an index, a name) reads back |
| FormatArgs.FieldRead | src/3rdparty/fmt/format.h:2826-2851 | a written field, plain or with specifiers, reads back and ends where it ends |
| FormatArgs.FieldOnly | src/3rdparty/fmt/format.h:2826-2851 | every field the parser accepts is written so |
| FormatArgs.FieldPrints | src/3rdparty/fmt/format.h:2453-2497 | `{n}` prints argument n, `{}` the next one, `{name}` the one so named; a nested width and then precision take theirs in the same way; an index and automatic numbering do not mix |
| FormatArgs.FormatMeans | src/3rdparty/fmt/format.h:2918-2969 | a string of any pieces of text (braces doubled) and fields prints them in turn, each field with the arguments it names or that come next |
| FormatArgs.CompiledPieces | src/3rdparty/fmt/compile.h:560-635 | compiling such a string and formatting it prints the same, whenever the arguments are there |
| FormatParts.VformatTo | src/3rdparty/fmt/compile.h:203-270 | the loop over the parts prints the concatenation of what each part prints, and fails with the first that fails |
| FormatParts.PartsMeaning | src/3rdparty/fmt/compile.h:126-183 | the parts the compiler collects, when every argument is there, print what the interpreter prints; a string it rejects is rejected by the interpreter |
| FormatVisitors.PartCounter.OnFormatSpecs | src/3rdparty/fmt/compile.h:99-112 | the brace matcher stops where a recursive matcher does |
| FormatVisitors.PartCounter.ParseReplacementField | src/3rdparty/fmt/format.h:2826-2851 | one field moves the counter by exactly what the string counts from there |
| FormatVisitors.PartCounter.ParseLong | src/3rdparty/fmt/format.h:2876-2901 | the search for braces used on long strings counts what the string counts |
| FormatVisitors.CountFormatParts | src/3rdparty/fmt/compile.h:117-123 | the counting visitor returns the count given by a recursion over the string, by either parsing loop |
| FormatVisitors.FormatStringCompiler.OnFormatSpecs | src/3rdparty/fmt/compile.h:168-182 | specifiers become one replacement part, numbered from where numbering stood, or an error |
| FormatVisitors.FormatStringCompiler.ParseShort | src/3rdparty/fmt/format.h:2858-2875 | the collected parts are those of the string; failure means the string is wrong or the array full |
| FormatVisitors.FormatStringCompiler.ParseLong | src/3rdparty/fmt/format.h:2876-2901 | the same for the loop used on long strings |
| FormatVisitors.CompileToParts | src/3rdparty/fmt/compile.h:296-315 | succeeds exactly if the string compiles to at most N parts, fills the array with them in order and ends it with an empty text if there is room |
| FormatCount.BraceEndSpecs | src/3rdparty/fmt/compile.h:99-112 | over parsed specifiers the matcher gains a level exactly if the type is an opening brace |
| FormatCount.CountField | src/3rdparty/fmt/compile.h:84-123 | what the counter counts at a field the compiler accepts |
| FormatCount.CountAstray | src/3rdparty/fmt/compile.h:99-112 | once the matcher is too deep, wherever it comes out at least one part has been missed |
| FormatCount.CountExact | src/3rdparty/fmt/compile.h:84-183 | on every string that compiles the counter never counts too many, and counts exactly the parts if and only if no field but the last thing has an opening brace as its type |
| FormatCount.LaxArgIdAgrees | src/3rdparty/fmt/format.h:2585-2616 | an argument id the compiler accepts is read the same by the counter, whose errors do nothing |
| FormatCount.TooLargeIsCounted | src/3rdparty/fmt/format.h:2233-2252 | the input "{2147483648}": one part counted, none compiled |
| FormatCompile.CompiledMeaning | src/3rdparty/fmt/compile.h:560-635 | compiling and running means what the interpreter says if the string is sound, and of the strings either prints exactly the sound ones are printed alike |
| FormatCompile.FormsAgree | src/3rdparty/fmt/compile.h:203-558 | when both compiled forms exist they print the same |
| FormatCompile.UnknownExactly | src/3rdparty/fmt/compile.h:490-558 | a string that compiles is unknown to the tree form if and only if some field, anywhere, names its argument |
| FormatCompile.SecondBraceUnchecked | src/3rdparty/fmt/compile.h:544-547 | the input "}x" |
| FormatCompile.SpecsEndUnchecked | src/3rdparty/fmt/compile.h:511-519 | the input "{:dx" |
| FormatCompile.CounterLedAstray | src/3rdparty/fmt/compile.h:99-112 | the input "{:5{}{}": two parts, one counted |
| FormatCompile.MissingArgument | src/3rdparty/fmt/compile.h:194-201 | the input "{0}" without arguments |
| Base32.Base32Encode | src/3rdparty/base32/base32.h:35-65 | for every input and buffer size: the clamped length is returned, that prefix of the standard encoding is written, a zero after it if there is room, nothing else changes |
| Base32.DecodeEncode | src/3rdparty/base32/base32.h:35-65 | decoding the whole encoding gives back the data |
| Base32.SameBits | src/3rdparty/base32/base32.h:44-59 | the letters carry the bits of the data in order |
| Base32.ShiftIn | src/3rdparty/base32/base32.h:47-53 | shifting the wrapped 32-bit buffer does to its low bits what it would do to an unbounded number |
| Base32.TakeFive | src/3rdparty/base32/base32.h:56-57 | the index is the top five of the pending bits, negative buffers included |
| Base32.Refill | src/3rdparty/base32/base32.h:45-55 | a byte or padding is shifted in and the buffer stays in step with the data |
| Printf.PrintfContext.ParseFlags | src/3rdparty/fmt/printf.h:391-418 | stops at the first character that is no flag, having applied all before it in order |
| Printf.FlagsAreASet | src/3rdparty/fmt/printf.h:391-418 | flags depend only on the set of characters, and '+' beats ' ' |
| Printf.PrintfContext.FetchArg | src/3rdparty/fmt/printf.h:420-428 | automatic or explicit argument, or an error, with the counter as it must be left |
| Printf.PrintfContext.ParseHeader | src/3rdparty/fmt/printf.h:430-467 | index, flags and width, through all the digit-first branches |
| Printf.PrintfContext.ParsePrecision | src/3rdparty/fmt/printf.h:493-507 | precision given, dynamic, empty or absent |
| Printf.PrintfContext.FormatConversion | src/3rdparty/fmt/printf.h:486-594 | one whole conversion, or the error it raises |
| Printf.PrintfContext.Format | src/3rdparty/fmt/printf.h:469-597 | the loop, with `start` and `it` around the uncopied text, prints literal text and conversions in order |
| Printf.LiteralThenConversion | src/3rdparty/fmt/printf.h:476-594 | text without '%' and then a conversion: the text, the converted argument, the rest |
| Printf.DoubledText | src/3rdparty/fmt/printf.h:479-483 | every string, with each '%' doubled, is printed as it was |
| Printf.SpecRoundTrip | src/3rdparty/fmt/printf.h:430-507 | printing any index, flags in any order with repeats, width and precision, and parsing them, gives them back |
| Printf.ZerosThenFlagsRead | src/3rdparty/fmt/printf.h:436-465 | zeros read as the number zero are flags, and parsing goes on after them |
| PrintfArgs.OneConversion | src/3rdparty/fmt/printf.h:486-594 | a written conversion: an index (counted from 1) takes that argument, allowed only before any automatic one and without stars; otherwise a star for the width, then one for the precision, then the value take the next arguments; a negative width aligns left, a negative precision is zero |
| PrintfArgs.AdjustMeans | src/3rdparty/fmt/printf.h:510-531 | zeros fill numbers only, not against '-' and not integers with a precision; of a C string no more than the precision is shown; '#' does nothing for zero |
| PrintfArgs.LengthMeans | src/3rdparty/fmt/printf.h:533-577 | each length modifier and the type after it are told apart |
| PrintfArgs.FormatMeans | src/3rdparty/fmt/printf.h:469-597 | a format of any pieces of text ('%' doubled) and conversions prints them in turn, each from where the one before left the arguments |
| PrintfArgs.SimpleInOrder | src/3rdparty/fmt/printf.h:420-428 | conversions without index or star print the arguments in order, and fail if there are too few |
| PrintfArgs.NoMixing | src/3rdparty/fmt/core.h:585-602 | a conversion with an index and one without cannot follow each other |
| Decimals.DecimalValue | src/3rdparty/fmt/format.h:1043-1064 | a number printed in decimal is read back |
| ArgStore.DescriptorRoundTrip | src/3rdparty/fmt/core.h:1421-1427 | of at most 15 codes each is read back, every other index reads as none, whatever the two flag bits |
| ArgStore.DescriptorFlags | src/3rdparty/fmt/core.h:1590-1595 | the named bit is set exactly if there are named arguments, the unpacked bit exactly if there are more than 15, and then the number of arguments stands below |
| ArgStore.TypeOfEncoded | src/3rdparty/fmt/core.h:1870-1874 | reading a code with anything at all above the list |
| ArgStore.DynamicFormatArgStore.PushBack | src/3rdparty/fmt/core.h:1720-1764 | the argument is appended to what was pushed |
| ArgStore.DynamicFormatArgStore.PushBackNamed | src/3rdparty/fmt/core.h:1724-1739 | the same with a name, although the first one shifts the storage |
| ArgStore.DynamicFormatArgStore.Clear | src/3rdparty/fmt/core.h:1813-1818 | nothing is left |
| ArgStore.DynamicFormatArgStore.Get | src/3rdparty/fmt/core.h:1912-1924 | below the number pushed, the argument pushed at that position |
| ArgStore.DynamicFormatArgStore.GetId | src/3rdparty/fmt/core.h:1931-1939 | the position of the first argument pushed with the name, or -1 |
| ArgStore.ArgsView.GetId | src/3rdparty/fmt/core.h:1931-1939 | the first entry with the name in the list of names |
| ArgStore.NamesFindFirst | src/3rdparty/fmt/core.h:1736-1737 | the ids in the list of names are positions among all pushed arguments |
| ArgStore.Run | src/3rdparty/fmt/core.h:1759-1818 | after any calls the store holds what a plain list would |
| Chrono.ParseChronoFormat | src/3rdparty/fmt/chrono.h:471-627 | the events in order and where parsing stops, or the error |
| Chrono.TwoPasses | src/3rdparty/fmt/chrono.h:1062-1109 | what the checker accepts, the formatter reads the same, to the same place, without error |
| Chrono.CheckerRejects | src/3rdparty/fmt/chrono.h:629-656 | the checker rejects exactly what does not parse or has a date in it |
| Chrono.OneLetter | src/3rdparty/fmt/chrono.h:484-575 | all two-character formats: which letters are conversions or escapes, the event of each, and which of them the checker lets a duration have |
| Chrono.TwoLetters | src/3rdparty/fmt/chrono.h:576-621 | the same for the alternative forms |
| Chrono.EventsCanonical | src/3rdparty/fmt/chrono.h:476-626 | no two plain texts follow each other |
| Chrono.ConvRoundTrip | src/3rdparty/fmt/chrono.h:485-622 | every conversion and escape, printed, is read back |
| Chrono.PrintThenParse | src/3rdparty/fmt/chrono.h:473-627 | printing any events a parse can give, and parsing that, gives them back |
| Chrono.Reprint | src/3rdparty/fmt/chrono.h:473-627 | the same starting from any format that parses |
| Duration.LosslessConversion | src/3rdparty/fmt/chrono.h:35-102 | succeeds exactly if the value fits, and then keeps it |
| Duration.SafeDurationCast | src/3rdparty/fmt/chrono.h:151-197 | with wrapping machine arithmetic: succeeds exactly if the count and its product fit the intermediate type and the quotient the target, and then gives the exact truncated quotient |
| Duration.MultiplicationGuards | src/3rdparty/fmt/chrono.h:179-190 | the two bounds, the negative one included, refuse exactly what would overflow |
| Duration.TruncatesTowardZero | src/3rdparty/fmt/chrono.h:194-195 | the quotient is the nearest multiple toward zero |
| Duration.CastBack | src/3rdparty/fmt/chrono.h:151-197 | a cast to a finer period can be undone |
| Duration.CastMonotone | src/3rdparty/fmt/chrono.h:151-197 | accepted casts keep the order |
| Duration.ChronoFormatter.constructor | src/3rdparty/fmt/chrono.h:807-828 | the magnitude survives the wrap-around of the unsigned negation, and it throws exactly if the cast to seconds is refused |
| Duration.Negation | src/3rdparty/fmt/chrono.h:811-816 | negating the wrapped value gives the magnitude |
| Duration.ChronoFormatter.Hour12 | src/3rdparty/fmt/chrono.h:850-853 | between 1 and 12, and the hour modulo 12 |
| Duration.ChronoFormatter.WriteSign | src/3rdparty/fmt/chrono.h:866-871 | the sign is written once |
| Duration.ChronoFormatter.Write | src/3rdparty/fmt/chrono.h:873-881 | a pending sign, then the value filled up with zeros |
| Duration.ChronoFormatter.On24HourTime | src/3rdparty/fmt/chrono.h:974-984 | sign, hour and minute |
| Duration.ChronoFormatter.OnIsoTime | src/3rdparty/fmt/chrono.h:986-991 | sign, hour, minute and second |
| Duration.ChronoFormatter.OnConversion | src/3rdparty/fmt/chrono.h:523-558 | the handler's text for each conversion that writes digits of a time of day |
| Duration.ShortForms | src/3rdparty/fmt/chrono.h:974-991 | `%R` is `%H:%M`, and `%T` is `%R` and the seconds, with the sign written once |
| Duration.TimeOfDay | src/3rdparty/fmt/chrono.h:848-856 | hour, minute and second are in range and make up the seconds modulo a day |
| Duration.ClockRoundTrip | src/3rdparty/fmt/chrono.h:986-991 | the clock text reads back to the sign and the time of day |
| Duration.SecondsRoundTrip | src/3rdparty/fmt/chrono.h:807-991 | end to end for durations in seconds of any integral type |
| DoubleBuffer.GpuWorker.StoreStats | src/backend/common/GpuWorker.cpp:30-42 | uninterrupted, the steps of one call: the new pair is current, the old one kept in the other slot |
| DoubleBuffer.GpuWorker.HashrateData | src/backend/common/GpuWorker.cpp:45-52 | uninterrupted, the current pair |
| DoubleBuffer.RunKeeps | src/backend/common/GpuWorker.cpp:30-52 | what every interleaving of one writer and any readers keeps |
| DoubleBuffer.ConsistentRead | src/backend/common/GpuWorker.cpp:45-52 | if no store begins after a flip that followed the load, a reader gets the pair of one single call: the newest when it loaded the index |
| DoubleBuffer.HistoryIs | src/backend/common/GpuWorker.cpp:30-42 | the stored pairs are those of the completed calls, in order |
| DoubleBuffer.ReadComesFrom | src/backend/common/GpuWorker.cpp:45-52 | on every schedule, a read is the count of the call whose count its slot held at the first load and the time of the call whose time it held at the second |
| DoubleBuffer.OneCallExactly | src/backend/common/GpuWorker.cpp:30-52 | on every schedule, these are one call if and only if between the loads no time was stored into the slot, or exactly one if the slot was out of step |
| DoubleBuffer.TornExactly | src/backend/common/GpuWorker.cpp:30-52 | on every schedule with distinct values, the pair read is one that was stored if and only if it is of one call |
| DoubleBuffer.TornRead | src/backend/common/GpuWorker.cpp:30-52 | a schedule, from any quiet state and for any values, that reads the count of one call with the time of another |
| GpuResults.JobBundle.CheckHash | src/net/JobResults.cpp:103-112 | one result or one error, by the comparison with the target |
| GpuResults.JobBundle.CheckKawPow | src/net/JobResults.cpp:149-177 | the same for the reversed output of KawPow |
| GpuResults.JobBundle.WriteNonce | src/net/JobResults.cpp:134-134 | four bytes of the blob, at the offset of the algorithm |
| GpuResults.JobBundle.GetResults | src/net/JobResults.cpp:115-194 | overwriting one blob again and again gives what a fresh copy for each nonce would give, in every branch |
| GpuResults.SetNonceTwice | src/net/JobResults.cpp:133-136 | a nonce written over another leaves no trace |
| GpuResults.EachNonceOnce | src/net/JobResults.cpp:115-194 | every nonce is one result or one error, also without a dataset |
| GpuResults.ResultsExactly | src/net/JobResults.cpp:103-194 | with the dataset there and outside Argon2: results are exactly the nonces whose hash, as a number in its last eight bytes (for KawPow the first eight, reversed), is below the target, in order, each with its own nonce and hash and the fields of its job; the others are errors |
| GpuResults.ResultsKeepJob | src/net/JobResult.h:46-53 | results carry index, id and client of their job |
| GpuResults.KawPowNonce | src/net/JobResults.cpp:152-171 | the wide nonce of a KawPow result is the bundle's nonce below and the job's bytes above |
| Pipeline.JobResultsPrivate.Submit | src/net/JobResults.cpp:214-220 | queued last, with a wakeup |
| Pipeline.JobResultsPrivate.SubmitNonces | src/net/JobResults.cpp:224-230 | queued last, with a wakeup |
| Pipeline.JobResultsPrivate.OnAsync | src/net/JobResults.cpp:240-278 | delivers what was queued in order, hands the bundles over, and is a run of the drain's steps |
| Pipeline.RunBaton | src/net/JobResults.cpp:261-267 | on the bundles in place: the results and errors of each in turn |
| Pipeline.Conservation | src/net/JobResults.cpp:198-278 | over all interleavings: every submitted result is delivered or waiting, once and in order; every bundle is queued, in the drain or in a baton, once and in order; each baton holds and once delivers exactly what its bundles come to; a filled queue has a wakeup, a drain or a sender to come |
| Pipeline.NonceConservation | src/net/JobResults.cpp:115-278 | submitted nonces equal those queued, in the drain and in batons plus results plus errors |
| Pipeline.InternalStepsEnd | src/net/JobResults.cpp:198-278 | without new submissions the program comes to rest |
| Pipeline.AllDelivered | src/net/JobResults.cpp:198-278 | at rest, all results were delivered in order and all bundles worked off and delivered |
| Nonces.Nonce.Touch | src/crypto/common/Nonce.cpp:78-83 | all sequence numbers advance |
| Nonces.Nonce.Stop | src/crypto/common/Nonce.cpp:68-75 | unpaused, all sequence numbers zero |
| Nonces.Nonce.Claim | src/crypto/common/Nonce.cpp:40-55 | the range found lies after everything taken before, within the mask and within a 32-bit block, and the last one pauses |
| Nonces.Nonce.Next | src/crypto/common/Nonce.cpp:33-65 | for masks of up to 64 ones, of which 63 are used: a granted range was never taken before, ends at the new counter, stays within the mask and a 32-bit block, and leaves the other bits of the nonce alone; one that fits where the counter stands is granted, one that crosses a block is passed over for the next, and `next` fails only when nothing is left |
| Nonces.FirstFits | src/crypto/common/Nonce.cpp:40-63 | which range is found: where the counter stands if it fits its 32-bit block and the mask, else, for ranges of up to half a block, the one after it if that fits the mask |
| NonceRanges.OnceExactly | src/crypto/common/Nonce.h:44-44 | for a counter that is taken from and restarted: no nonce is handed out twice if and only if, of any two stretches between restarts, the earlier took nothing or the later did not get as far as where the earlier began |
| NonceRanges.OnceFrom | src/crypto/common/Nonce.h:44-44 | wherever the counter stands: if and only if nothing is taken on both sides of a later restart and, if anything was taken before the first one, the counter never again gets past where it stood |
| NonceRanges.OnceFromZero | src/crypto/common/Nonce.h:44-44 | from zero: if and only if nothing is taken on both sides of a restart |
| Nonces.LastBlock | src/crypto/common/Nonce.cpp:46-51 | the last range of a mask needs no check for the 32-bit boundary |
| Miner.Miner.HandleJobChange | src/core/Miner.cpp:117-141 | its whole effect on the state |
| Miner.Miner.Pause | src/core/Miner.cpp:506-513 | its whole effect on the state |
| Miner.Miner.SetEnabled | src/core/Miner.cpp:516-549 | its whole effect, with both early returns |
| Miner.Miner.SetJob | src/core/Miner.cpp:552-615 | its whole effect, with and without RandomX |
| Miner.Miner.AutoPause | src/core/Miner.cpp:678-687 | its whole effect, for either flag |
| Miner.Miner.OnTimer | src/core/Miner.cpp:644-700 | both reasons to pause looked at in turn |
| Miner.Miner.OnConfigChanged | src/core/Miner.cpp:628-641 | the backends are given the current job again, unless the pools were replaced |
| Miner.Miner.OnDatasetReady | src/core/Miner.cpp:745-752 | the job is handed out if its dataset is the one that is ready |
| Miner.ReasonsCounted | src/core/Miner.cpp:678-687 | over every run `auto_pause` is the number of reasons to pause |
| Miner.TickDecides | src/core/Miner.cpp:678-695 | a tick with a transition ends enabled exactly if no reason is left |
| Miner.BatteryExactly | src/core/Miner.cpp:516-526 | a step enables the miner on battery power exactly if the user resumes with the option off |
| Miner.BatteryDisables | src/core/Miner.cpp:516-526 | over every run with the option on whenever the user resumes, battery power means disabled |
| Miner.BatteryOptionNeeded | src/core/Miner.cpp:522-526 | a run with the option switched off in between |
| Miner.UnpausedMeansWorking | src/core/Miner.cpp:117-135 | over every run without a stop, unpaused nonces imply active and enabled |
| Miner.WorkingMeansUnpaused | src/core/Miner.cpp:506-615 | without RandomX, until a worker exhausts the nonces, it is an equivalence |
| Miner.SoundExactly | src/core/Miner.cpp:618-625 | a step breaks this if and only if it stops a miner that was not to work: not active or not enabled before it, or left disabled by the sensors of the tick |
| Miner.NonceContinuity | src/core/Miner.cpp:574-588 | while one job of the user goes and comes back around donated ones, its counter moves only by what is taken |
| Miner.NoNonceTwice | src/core/Miner.cpp:574-588 | two ranges taken anywhere in such a segment do not overlap |
| Miner.UserJobNoncesOnce | src/core/Miner.cpp:552-615 | the same from the start of the program |
| Miner.NewJobResets | src/core/Miner.cpp:574-581 | a job with another blob, donated or not, starts its own counter at zero and leaves the other alone; the user's job coming back after a donated one, and a job that repeats the blob, leave both |
| Miner.SettingsPassedOn | src/core/Miner.cpp:628-641 | new settings are passed on with the current job, unless the pools were replaced |
| Sequences.HandOverAdvances | src/core/Miner.cpp:117-131 | handing a job over makes each sequence number one more, in 64 bits, hence different |
| Sequences.PauseAdvances | src/core/Miner.cpp:506-513 | so does a pause |
| Sequences.SwitchAdvances | src/core/Miner.cpp:516-549 | so does a switch that takes effect while active, and no other |
| Sequences.PublishAdvances | src/core/Miner.cpp:558-568 | a missing dataset advances the numbers for the same algorithm and zeroes them for another |
| Sequences.StopZeroes | src/crypto/common/Nonce.cpp:68-75 | a stop leaves all three numbers at zero, which ends the workers |
| Sequences.RunAdvances | src/core/Miner.cpp:117-700 | over every run that does not stop the workers, the numbers count the news for them |
| Sequences.OutdatedExactly | src/crypto/common/Nonce.h:40-40 | a worker sees itself outdated at the end of such a run if and only if there was news |
| Sequences.NewJobIsSeen | src/crypto/common/Nonce.h:40-40 | in particular if a job was handed over in between |
| UserNonces.WholeRuns | src/core/Miner.cpp:552-615 | with nobody in between, publishing and handing over have the effect of the whole `setJob`, over every run |
| UserNonces.CounterFollows | src/core/Miner.cpp:117-131 | in every segment of one user job, whatever datasets are missing and wherever workers come in between, the counter and its ranges follow from what is taken and from the hand-overs and announced datasets with `reset` set |
| UserNonces.NoncesOnceExactly | src/core/Miner.cpp:117-131 | in every such segment, no nonce is handed out twice if and only if, of any two stretches between restarts, the earlier took nothing or the later did not get as far as where the earlier began |
| UserNonces.UserJobNoncesExactly | src/core/Miner.cpp:572-615 | from the start of the program, after any past, for a job of the user from its publication on: if and only if nothing is taken on both sides of a later restart and, if anything was taken before the first one, the counter never again gets past where it stood at publication |
| UserNonces.TakenBeforeReset | src/backend/cpu/CpuWorker.cpp:502-517 | a run in which a worker takes nonces for a job before its counter is reset, and they are handed out again |
| UserNonces.StartedOver | src/core/Miner.cpp:574-615 | a run in which a late callback restarts the counter of a job being worked on |
| UserNonces.ResumedTooEarly | src/core/Miner.cpp:516-615 | a run in which resuming during a build lets nonces be taken from a counter about to be restarted |
| Network.Network.SetJob | src/net/Network.cpp:265-299 | the miner is given the job with the donate flag |
| Network.Network.OnJob | src/net/Network.cpp:166-173 | jobs of the main strategy are dropped while donating |
| Network.Network.OnJobResult | src/net/Network.cpp:176-184 | one call of `submit`, by the index |
| Network.Network.OnPause | src/net/Network.cpp:211-223 | the main strategy resumes after donating, and the miner pauses without an active pool |
| Network.Network.OnConfigChanged | src/net/Network.cpp:150-163 | unless the pools are the same or none is enabled: the old main strategy is stopped, with the pause it may report, and a new one of the right kind takes its place |
| Network.Network.StopStrategy | src/base/net/stratum/strategies/FailoverStrategy.cpp:110-120 | a strategy of several pools always reports a pause, one of a single pool only when it loses its connection |
| Network.PreferAlgorithm | src/net/Network.cpp:192-201 | in place: a permutation with the pool's algorithm first if it is there |
| Network.JobsReachTheMiner | src/net/Network.cpp:166-173 | a job of the main strategy is worked on at once, or kept for later while donating; a donated one is worked on while donating |
| Network.DonateRound | src/net/strategies/DonateStrategy.cpp:152-250 | a round of the donate strategy through its phases |
| Network.Routing | src/net/Network.cpp:166-184 | what every run keeps: stamped indices tell donated jobs from others, results match jobs, calls match both |
| Network.RoutingFromStart | src/net/Network.cpp:166-299 | over every run from the start, a result of a donated job goes to the donate strategy and any other to the main strategy of the moment |
| Network.SentToNewPools | src/net/Network.cpp:150-184 | a run in which the result of one pool's job is submitted to the pools that replaced it |
| Network.NoUserJobWhileDonating | src/net/Network.cpp:166-173 | while donating lasts, the miner is given donated jobs only |
| Network.AfterDonating | src/net/Network.cpp:211-223 | when donating ends, the miner has the main strategy's job back, or is paused without an active pool |
| Network.AfterClose | src/net/Network.cpp:211-223 | when the main strategy closes, the miner is paused |
| Network.AfterPoolsReplaced | src/net/Network.cpp:150-163 | replacing the pools pauses the miner exactly if stopping the old strategy reports a pause, donating or not |
| Network.DonationRound | src/net/Network.cpp:211-299 | over a whole round of donation and the return, through network and miner, the user's nonces continue where they were |
| Delivery.DirectSource | src/net/JobResults.cpp:250-252 | the next result of a drain is the one submitted after those delivered, and carries its job's index, id and client |
| Delivery.ComputedSource | src/net/JobResults.cpp:268-276 | so does every result of a finished baton, for the job of its bundle |
| Delivery.DeliveredOnce | src/net/JobResults.cpp:198-278 | over all interleavings of pools, miner, workers, queues and batons: every delivered result was made from a job given to the miner and is submitted once, to the donate strategy if that job was donated |
| Delivery.BackToItsSupplier | src/net/Network.cpp:150-184 | over all those interleavings: a result reaches the strategy that supplied its job if and only if that was the donate strategy, or the pools were not replaced between the step that gave the job to the miner and the step that submitted the result |
| Delivery.EveryResult | src/net/Network.cpp:166-184 | for every submitted result there are such two steps |
| HeaderGen.Bin2h | scripts/js/opencl.js:6-24 | the loop with its line counter prints the header of a recursion |
| HeaderGen.Text2hInternal | scripts/js/opencl.js:27-48 | the same for one text |
| HeaderGen.Text2h | scripts/js/opencl.js:51-54 | a header with one text |
| HeaderGen.Text2hBundle | scripts/js/opencl.js:57-66 | a header with any number of texts |
| HeaderGen.ItemsRoundTrip | scripts/js/opencl.js:11-19 | initialisers read back, wherever lines are broken, multiples of 32 included |
| HeaderGen.BinaryRoundTrip | scripts/js/opencl.js:6-24 | reading the header gives the buffer, its length as the declared size, its name and the namespace |
| HeaderGen.TextRoundTrip | scripts/js/opencl.js:27-66 | reading a header gives every text in order with one zero byte, the declared sizes, the names and the namespace |
| HeaderGen.NameIsWord | scripts/js/opencl.js:9-9 | the name read is the name given exactly if that has no space in it |

## Left out

- FormatParts.VformatTo: how values print, and the checks of specifiers against argument types, are the parameter `Writer`; custom formatters are not modelled.
- ArgStore.DynamicFormatArgStore.Get: says nothing about ids from the number pushed on, because the size in the descriptor includes the slot for names.
- ArgStore.DynamicFormatArgStore.PushBackNamed: copying of strings and the roll-back after a failed allocation are left out.
- Printf.PrintfContext.Format: conversion of argument types by length, and the printing of arguments, are parameters; the character one past the end of a format, which the code reads in two places, is taken to be the terminator.
- Duration.ChronoFormatter.OnConversion: `%S`, which adds fractions of a second, floating-point durations and localised output are left out.
- GpuResults.JobBundle.GetResults: creation of virtual machines, scratchpads and caches is left out; `errors` is unbounded.
- DoubleBuffer.ConsistentRead: is stated for sequential consistency; the weaker order of the relaxed load is not modelled.
- Pipeline.Conservation: `stop`, a null handler and failures of the event descriptor are left out; delivery by a finishing baton is one step.
- Nonces.Nonce.Next: masks are runs of low ones, the only ones `nonceMask` builds; threads inside it at once are covered by `Take` steps of `Miner.Next`, each one `fetch_add`.
- UserNonces.NoncesOnceExactly: ranges are all those taken from the user's counter, with a total below 2^64; whether a worker takes one for this job or for an older one it has not left yet, and which it still uses after a restart (`WorkerJob::add`), is not modelled.
- Miner.Miner.SetJob: preparation of backends, the mutex around the job and the GhostRider benchmark are left out; readiness of datasets is an input of the step.
- Miner.Miner.OnTimer: hash rates, health and log output are left out; whether a backend asks to stop is an input.
- Network.RoutingFromStart: the donate strategy is reduced to its phases; its proxy and the connections of pools are left out.
- HeaderGen.TextRoundTrip: the encoding of the text into bytes is left out; of a name with a space in it, which no identifier has, the reader sees the last word, and it reads a namespace without spaces only.
- Sequences.OutdatedExactly: is about runs that do not stop the workers; after a stop the numbers start at zero again, and so do the workers.
- Fixed-size and truncating output buffers of `core.h`, `color.h`, `ranges.h`, `os.h` and `ostream.h`.
- `opencl_minify.js`: its rewriting does not keep the meaning of every program.
- Builds of the pipeline without GPU support, or with algorithm families compiled out.
- Integer types wider than 64 bits in durations.
- Logging, the HTTP interface, the task bar, signals and process teardown.
