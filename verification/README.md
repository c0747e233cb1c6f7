# Verified models of six libkrun components

Dafny models of the parts of libkrun that are state machines, parsers or protocols, with proofs of
what they promise. Each component has its own modules; `Options` and `LittleEndian` are shared.

* **JSON tokenizer and configuration reader** (`init/jsmn.h`, `init/init.c`). The tokenizer as it is
  compiled: neither strict nor with parent links. `JsonLexing` and `JsonMachine` say what a call does,
  on values; `JsmnParser` is the parser object with its three cursors and its loops, proved to do
  that. Around it: the refinement to a pushdown automaton (`JsonPushdown`), nesting of spans
  (`JsonSpans`), the token counts (`JsonCounting`), the round trip from any value tree through its
  printed form to its tokens (`JsonRoundTrip*`, with the layout characters of section 2 of RFC 8259),
  strings with any escapes, from what is written to what is left (`JsonEscapes`), resumption after
  running out of tokens (`JsonResume`), counting first and filling afterwards (`JsonTwoPass`). `ConfigReader` is what
  `config_parse_file` makes of tokens and `ConfigParse` its loops over arrays. `ConfigNodes` is the same
  walk over the nodes of a tree; `ConfigMeaning` is the theorem from the text of any configuration object
  to that walk. `ConfigFinds` says exactly what the walk delivers; `ConfigSpared` when cutting the
  environment apart does not disturb it; `ConfigCommand` what that is by look-up in the tree, at every
  depth, up to the vector that is executed; `ConfigLimits` what the conditions there shut out.
  `ConfigEnv` says name by name what entries do to an environment, and `ConfigOutcome` what a guest is
  given, from the tree and the names and numbers of the file format alone.
* **HVF vCPU** (`src/hvf/src/lib.rs`). `VcpuModel` is one vCPU: the registers the framework holds, the
  fields beside them, and `run`, which leaves a trapped load and the step of the program counter
  pending until its next entry. The guest is an arbitrary function from registers to registers and a
  stop. `ArmArchitecture` is what the Arm documents say: the fields of a syndrome (Arm Architecture
  Reference Manual, ESR_ELx, with the ISS encodings for a Data Abort and for trapped MSR and MRS), the
  encodings of system registers and what they are for, the bits of a timer control register, and the
  functions of section 5 of Arm DEN 0022. Nothing in it comes from the code. `VcpuSyndrome` proves that
  decoding recovers the fields; `VcpuRuns` compares every run with a reference machine, written from
  those documents, that has nothing pending; `VcpuState` is capture and restore, `VcpuContract` proves
  its register lists to be the architecture's and `VcpuRestore` what a restore achieves; `HvfVcpu` is
  the object.
* **CPU brand string** (`src/cpuid/src/brand_string.rs`): the frequency search (`BrandString`) and the
  string given to a guest (`BrandVendor`).
* **Touch sequencer** (`examples/krun_gtk_display/src/display_worker.rs`): the finger tracker and delta
  encoder (`TouchTracker`, `TouchSender`) against a receiver that follows the Linux kernel document
  "Multi-touch (MT) Protocol", type B (`TouchProtocol`). From the calls alone: what each slot and each
  touch is shown as (`TouchStream`), and the ids given out, the single pointer and its button, and the
  requests for a later sync (`TouchPointer`).
* **Frame-buffer protocol** (`examples/krun_gtk_display/src/display_backend.rs` with the message loop of
  `display_worker.rs`): a state machine of both threads (`DisplayProtocol`), buffer conservation
  (`DisplayBuffers`), frame sizes (`DisplayFrames`), the windows (`DisplayWindows`) and the objects
  whose methods are its steps (`DisplayThreads`).
* **Registries**: the device bus (`BusIndex`), the epoll event manager (`EventRegistry`, `EventMasks`), and the enclave
  argument reader (`ArgsStream`, `ArgsCut`, `ArgsLoop`, `ArgsReader`).

What comes from outside is a parameter: the guest, the clock, the callbacks, the answers of the kernel
and of the framework, how a stream is split into reads, which thread moves next. A theorem quantified
over such a parameter holds for every behaviour of the outside.

Properties that do not always hold are stated with the condition under which they do. Where the
condition is exact the theorem says "if and only if", and a concrete input shows a failure:

* A tokenizer call that ran out of tokens can be resumed with the result of a fresh call if and only if
  the lexeme it stopped at is not a string with a `\u` escape of anything but a decimal digit
  (`JsonResume.ResumeIsFresh`, `JsonResume.ResumeCanDiffer`): the first reading has rewritten the text.
* For the same reason, counting and then filling finds the tokens of one filling call if and only if
  every string read has only `\u` escapes of hexadecimal digits, and leaves the same text if and only if
  counting left the text alone (`JsonTwoPass.TwoPasses`, `JsonTwoPass.TwoPassesSameText`,
  `JsonTwoPass.CountThenFillCanFail`).
* Inserting on the bus refuses exactly the overlapping ranges, and keeps the ranges disjoint, if and
  only if the range wraps harmlessly: its end does not exceed 2^64, or it begins inside a stored range,
  or no stored range begins after it (`BusIndex.PassesIffFree`, `BusIndex.Bus.Insert`,
  `BusIndex.WrappedEndPasses`). The word arithmetic is modelled as wrapping, as in a release build; a
  debug build stops instead.
* Every frame fits its window if and only if every present of a live scanout found a frame of the size
  the scanout required at that moment (`DisplayFrames.FramesFitIffMatched`,
  `DisplayFrames.ResizeWhileFilling`).
* A live scanout keeps its four buffers, and a buffer coming back finds room, if and only if every
  present found a frame and no alloc found one of no size (`DisplayBuffers.WholeIffCareful`,
  `DisplayBuffers.CarelessRuns`). That no buffer is ever in two places needs no condition.
* The loop that reads enclave arguments returns if and only if the stream does not end where an id is
  expected, or does so after an argument with a body (`ArgsLoop.ReturnsIff`).
* Capture and restore carry exactly the registers the architecture gives a guest. The debug registers
  are not among those the code saves: one comes back if and only if the destination already holds its
  value (`VcpuRestore.RestoreCarries`, `VcpuRestore.DebugStaysBehind`).
* A touch that is down is shown where its last event was, in a slot of its own, if there is a slot for
  each; a seventeenth moves the first (`TouchStream.TouchesAreShown`,
  `TouchStream.CrowdedTouchMovesFirst`). What each slot shows needs no condition
  (`TouchStream.SlotShowsLastEvent`).
* A device with one pointer sees the first finger's position with multi-touch on, and the position of
  its last beginning with multi-touch off, when motion is never sent; its button is down from any
  beginning to any end, so with two touches it can be up while one is down; it tells of the first finger
  if and only if the other touches let it (`TouchPointer.PointerSees`, `TouchPointer.MotionIsNotSent`,
  `TouchPointer.ButtonForgetsFirst`, `TouchPointer.ButtonIsFirstFingerIff`).
* The kernel watches exactly the registered descriptors if and only if no unregistering was refused
  (`EventRegistry.RegistryWithinKernel`, `EventRegistry.RefusedDeleteLeaks`).

What is delivered for a configuration is stated exactly, with no condition but on backslashes and size
(`ConfigCommand.ConfigDelivered`): for each name the first string with it in document order decides, key
or not, as the text stands when it is met. Two conditions relate this to look-up in the tree, with an
input for each that shows what goes wrong without it:

* The command line is that of look-up if and only if the first strings with the names stand for what
  look-up finds, as they do when they are keys, at any depth (`ConfigCommand.ArgvByLookUp`,
  `ConfigLimits.StringTakenForKey`).
* Cutting the environment apart spares what is looked for if the string with the name lies outside the
  array that is read, or the entries of that array have no children (`ConfigSpared.SparedVector`,
  `ConfigLimits.CommandInEntry`, `ConfigLimits.EntryWithChildren`).

Assumptions about the outside, each a named predicate: the framework sets its timer mask when it reports
the timer and leaves it alone otherwise (`VcpuRuns.Honest`); a device fills the whole slice it is given
(`VcpuModel.Fills`); a restored vCPU agrees with the captured one on every register the architecture does
not give a guest, and the captured one holds every register it does (`VcpuRestore.Alike`; without it
`VcpuRestore.RestoreCarries` still says what each register holds); ids and lengths of the argument
stream arrive whole (`ArgsStream.ReadSoFar`).

## Model

| member | source | states |
|---|---|---|
| JsonLexing.ScanString | init/jsmn.h:194-283 | A string scan leaves everything before its start and from its closing quote on untouched, and fails only with INVAL or PART. |
| JsonLexing.ScanPrimitive | init/jsmn.h:142-173 | A primitive runs to the first delimiter, NUL or end of text, and not past it. |
| JsonLexing.Lex | init/jsmn.h:296-463 | One turn of the outer loop: `pos` strictly increases, the lexeme lies between the old and the new position, and text outside it is untouched. |
| JsonMachine.LastOpen | init/jsmn.h:358-379 | The downward search for an open token finds the last one, or -1 if there is none. |
| JsonMachine.Step | init/jsmn.h:301-455 | What a lexeme does to tokens and superior: the superior stays -1 or a token index, one token more for a bracket, string or primitive, and only a closing bracket can be rejected. |
| JsonMachine.ParseRunsLexemes | init/jsmn.h:288-475 | Every filling call runs a prefix of the text's lexemes through the machine, and its result says why it stopped there. |
| JsonMachine.AcceptedRun | init/jsmn.h:288-475 | If the machine accepts all lexemes with everything closed, a call with enough tokens returns exactly its tokens. |
| JsonPushdown.BalancedKeepsStack | init/jsmn.h:301-381 | A type-matched balanced word leaves any pushdown stack as it was. |
| JsonPushdown.AcceptedIsBalanced | init/jsmn.h:301-381 | Conversely, a word that takes the automaton from empty to empty is balanced. |
| JsonPushdown.LastOpenIsTop | init/jsmn.h:358-379 | The last open token is the top of the implicit stack, and closing it pops. |
| JsonPushdown.StepRefines | init/jsmn.h:301-455 | One lexeme moves the open tokens and the automaton's stack together, and is rejected by both or neither. |
| JsonPushdown.RunRefinesPushdown | init/jsmn.h:296-463 | At every step of every run the open tokens are the stack of the pushdown automaton. |
| JsonPushdown.ParseAcceptsBalanced | init/jsmn.h:288-475 | With valid strings and enough tokens, a call succeeds if and only if the brackets form a type-matched balanced word; it then counts one token per bracket pair, string and primitive. |
| JsonSpans.StepLaminar | init/jsmn.h:301-455 | Each lexeme keeps the spans a laminar family with strictly increasing starts. |
| JsonSpans.ParseLaminar | init/jsmn.h:288-475 | So does every call, whatever its outcome. |
| JsonSpans.SpansNest | init/jsmn.h:288-475 | After success any two spans are disjoint or nested, starts strictly increase, and strings and primitives contain nothing. |
| JsonCounting.SizesCountChildren | init/jsmn.h:312-324 | Over every run the token sizes sum to the number of tokens made while there was a superior. |
| JsonCounting.CountingCountsLexemes | init/jsmn.h:304-307 | Counting mode returns the number of token lexemes, or the lexing error, and touches no token. |
| JsonCounting.FillingAgreesWithCounting | init/jsmn.h:288-475 | Every successful filling call returns the number of tokens it handed out, which is what counting mode returns. |
| JsonCounting.NeverOverfills | init/jsmn.h:102-116 | No call hands out more tokens than the array holds. |
| JsonCounting.CapacityNeeded | init/jsmn.h:288-475 | On one and the same text: an array of the counted size never runs out; a smaller one never succeeds, and runs out if the text is balanced. |
| JsonCounting.ParseSizesFit | init/jsmn.h:312-324 | Each token's size stays within the tokens that follow it. |
| JsonRoundTripMachine.RunValue | init/jsmn.h:301-455 | The lexemes of any value tree, in any context, append exactly the tree's tokens to those before. |
| JsonRoundTripText.ReadsValue | init/jsmn.h:296-463 | The printed form of any value tree, anywhere in a text, reads as the tree's lexemes. |
| JsonRoundTripText.TokenizePrinted | init/jsmn.h:288-475 | Tokenizing any value tree printed with any layout of spaces, tabs, newlines and carriage returns and no `\u` escape returns its pre-order tokens: types, spans, object size as number of keys, key size 1, array size as number of elements; the text is unchanged. |
| JsonEscapes.PiecesRead | init/jsmn.h:204-282 | Any characters, simple escapes and ASCII `\u` escapes, in any number, are read through; of a `\u` escape the last digit is left as the character, everything else as it was. |
| JsonEscapes.StringEnds | init/jsmn.h:204-282 | Behind any such pieces: a quote closes the string there, the end of the text or a NUL makes it PART, an escape of any letter but `" \ / b f n r t u` INVAL; in each case with exactly the pieces rewritten. |
| JsonEscapes.StringTooLarge | init/jsmn.h:263-269 | A `\u` escape of a value above 127 behind them is INVAL. |
| JsonEscapes.StringBadDigit | init/jsmn.h:245-258 | So is a `\u` with another character than a hexadecimal digit among its four. |
| JsonResume.SteadyKeepsText | init/jsmn.h:240-273 | Reading a string without escapes of other characters than decimal digits changes nothing. |
| JsonResume.SecondReading | init/jsmn.h:240-273 | A string that its first reading changed is read differently, or rejected, the second time. |
| JsonResume.ParseKeepsConsumed | init/jsmn.h:240-273 | A call never changes text before its starting position. |
| JsonResume.ResumeIsFresh | init/jsmn.h:178-182 | After NOMEM, calling again with a larger array gives the result, tokens, cursors and text of one fresh call, if and only if the lexeme stopped at is resumable. |
| JsonResume.ResumeWithoutUnicode | init/jsmn.h:212-216 | For texts without `\u` escapes resuming always equals a fresh call. |
| JsonResume.ResumeCanDiffer | init/jsmn.h:212-216 | A text on which resuming ends differently from a fresh call. |
| JsonTwoPass.SecondScan | init/jsmn.h:240-273 | Reading a string again after a first reading has rewritten it closes at the same quote if and only if each of its `\u` escapes is that of a hexadecimal digit; otherwise it is rejected. |
| JsonTwoPass.SecondLex | init/jsmn.h:296-463 | So for every lexeme of a text that has been read to its end. |
| JsonTwoPass.TwoPasses | init/jsmn.h:288-475 | Counting and then filling the text that is left gives the result, tokens and cursors of one filling call on the untouched text, if and only if every string that call reads can be read again. |
| JsonTwoPass.CountThenFill | init/jsmn.h:304-307 | The second call succeeds if and only if every string can be read again, the brackets balance and there is room for the tokens counted; it then finds what one call finds. |
| JsonTwoPass.CountThenFillCanFail | init/jsmn.h:240-273 | A text that counts to one token and then cannot be filled, though one filling call accepts it. |
| JsonTwoPass.TwoPassesSameText | init/jsmn.h:240-273 | With the text included, two passes end as one call does if and only if counting left the text as it was. |
| JsmnParser.Parser.constructor | init/jsmn.h:481-486 | A new parser starts at 0 with no token and no superior. |
| JsmnParser.Parser.AllocToken | init/jsmn.h:102-116 | Hands out the next unused token, open and with size 0, or -1 and changes nothing. |
| JsmnParser.Parser.ParsePrimitive | init/jsmn.h:133-189 | Does what the primitive scan says: token and cursor on success, cursor back at the start when out of tokens. |
| JsmnParser.Parser.ParseHex | init/jsmn.h:244-260 | Reads up to four hexadecimal digits and fails on another character before the end. |
| JsmnParser.Parser.ParseUnicode | init/jsmn.h:240-273 | A `\u` escape is rejected, with the text unchanged, for a wrong digit or a value that is not ASCII; otherwise its last digit becomes the character. |
| JsmnParser.Parser.ParseEscape | init/jsmn.h:225-279 | One escape, with its rewriting of the text, is one step of the string scan. |
| JsmnParser.Parser.ToQuote | init/jsmn.h:204-282 | The string loop finds the closing quote of the string scan, or its error, and leaves its text. |
| JsmnParser.Parser.ParseString | init/jsmn.h:194-283 | A string turn has the text, token, cursor and errors of the string scan; the cursor is back at the start on every error. |
| JsmnParser.Parser.OpenBracket | init/jsmn.h:302-328 | An opening bracket does the machine's step, or reports NOMEM and changes nothing. |
| JsmnParser.Parser.FindOpen | init/jsmn.h:358-379 | The downward loop finds the last open token. |
| JsmnParser.Parser.CloseBracket | init/jsmn.h:329-381 | A closing bracket does the machine's step, or reports INVAL and changes nothing. |
| JsmnParser.Parser.CommaMark | init/jsmn.h:400-418 | A comma hands the superior back to the innermost open container. |
| JsmnParser.Parser.AnyOpen | init/jsmn.h:465-472 | The final loop finds an open token if and only if there is one. |
| JsmnParser.Parser.StringTurn | init/jsmn.h:382-391 | A string turn is a turn of the specification, with the superior's size counted. |
| JsmnParser.Parser.PrimitiveTurn | init/jsmn.h:445-455 | So is a primitive turn. |
| JsmnParser.Parser.MarkTurn | init/jsmn.h:301-418 | So is a turn on a bracket, mark or blank. |
| JsmnParser.Parser.OuterTurn | init/jsmn.h:296-463 | After a turn the rest of the call is the rest of the specified call; a failure is the call's failure; `count` equals `toknext`. |
| JsmnParser.Parser.Parse | init/jsmn.h:288-475 | `jsmn_parse` on arrays has the result, text, cursors and tokens of the specified call, in filling and counting mode. |
| ConfigReader.TokenizerFits | init/init.c:759-768 | A successful tokenizer call gives tokens whose spans and sizes are all within what the reader then uses. |
| ConfigReader.UnescapeCopies | init/init.c:521-525 | Text without a backslash is its own unescaped form. |
| ConfigReader.UnescapePrefix | init/init.c:521-525 | Whatever follows, the text before the first backslash is kept. |
| ConfigParse.UnescapeString | init/init.c:514-525 | The loop copies the text over itself up to the first backslash; what follows is written behind it, then a NUL; nothing else changes. |
| ConfigEnv.EntrySets | init/init.c:596-617 | For every entry and name: `name=value` gives the value to that name, if it was absent or is HOME or TERM; every other name keeps its value; an entry without `=`, or with nothing before it, changes nothing. |
| ConfigEnv.EntriesSet | init/init.c:588-618 | Lifted to a list: the value of each name is what the entries make of it one after the other. |
| ConfigEnv.OldValueStays | init/init.c:603-616 | A name that was there keeps its value, unless it is HOME or TERM. |
| ConfigEnv.FirstEntryCounts | init/init.c:603-616 | Of a new name the first entry counts. |
| ConfigEnv.LastEntryCounts | init/init.c:603-616 | Of HOME and TERM the last entry counts. |
| ConfigEnv.NamesIgnoreCase | init/init.c:682-689 | Two names are the same if and only if they have the same letters, each in either case, and the same other characters. |
| ConfigParse.ParseEntry | init/init.c:596-617 | One entry is cut at its first `=`, in the text and in the environment. Afterwards each name has the value that the entry, as `name=value`, gives it, if it had none or is HOME or TERM, and otherwise the value it had. |
| ConfigParse.ParseEnv | init/init.c:588-618 | The loop applies the entries in order. |
| ConfigParse.ParseArgs | init/init.c:620-655 | The vector holds the strings in order and a NULL behind them, or is NULL when empty; it does not fit if there are 32 or more. |
| ConfigParse.ConcatArgv | init/init.c:691-709 | The first vector's strings, then the second's, then NULL. |
| ConfigParse.EnvTurn | init/init.c:777-781 | The test for `Env` does what the specification of the turn says. |
| ConfigParse.ArgsTurn | init/init.c:783-793 | So do the tests for `args` and `Cmd`. |
| ConfigParse.DirTurn | init/init.c:795-805 | So do the tests for `WorkingDir` and `Cwd`. |
| ConfigParse.EntryTurn | init/init.c:807-811 | So does the test for `Entrypoint`. |
| ConfigParse.WalkTokens | init/init.c:774-812 | The loop stops when all four are found or the tokens end. |
| ConfigParse.ConfigParseFile | init/init.c:758-820 | Tokenizing, walking and joining on arrays delivers the specified configuration, or none. |
| ConfigNodes.EnvShown | init/init.c:588-618 | Reading entries over the text and over the nodes it shows: the same environment, and the text then shows the nodes as they are cut, entries with children included. |
| ConfigNodes.VisitShown | init/init.c:777-811 | One turn over tokens that show a list of nodes finds what meeting the first node finds, and the tokens then show the nodes beyond it. |
| ConfigNodes.WalkShown | init/init.c:774-812 | Walking any tokens over a backslash-free text that is being cut apart is walking the nodes they show. |
| ConfigMeaning.ValueTells | init/init.c:774-812 | The tokens of any printed value show the nodes of its tree, in order: strings end before the next token starts, and the children of an array lie inside it. |
| ConfigMeaning.ConfigIsItsMeaning | init/init.c:758-820 | End to end: for every backslash-free configuration object in any layout, with known names and lists and objects anywhere, what is delivered is what walking the nodes of its tree delivers. |
| ConfigFinds.WalkFindsArgv | init/init.c:783-811 | The walk over any nodes ends with the vectors after the first string `args` or `Cmd` and the first `Entrypoint`, keys or not, as they are when met; only a vector that does not fit stops it. |
| ConfigFinds.WalkFindsDir | init/init.c:795-805 | It ends with the text after the first `WorkingDir` or `Cwd`, likewise. |
| ConfigFinds.WalkFindsEnv | init/init.c:777-781 | It ends with the entries after the first `Env` that has an array, each as the ones before have left it. |
| ConfigSpared.ClearMeets | init/init.c:596-617 | A string that lies outside the array read as environment is met with everything after it as it was. |
| ConfigSpared.UnsaidIsClear | init/init.c:596-617 | So it is when no string inside that array has the name. |
| ConfigSpared.CutSparesVector | init/init.c:596-617 | Cutting entries without children changes no vector: one after a cut entry is empty before and after. |
| ConfigSpared.SparedVector | init/init.c:596-655 | In either case the vector is that of the first string with the name in the untouched text. |
| ConfigSpared.GentleEnv | init/init.c:588-618 | Entries without children are applied one after the other, each as it is written. |
| ConfigCommand.WalkDelivers | init/init.c:774-820 | Exactly what the walk over any nodes delivers: joined command line or overrun, directory, environment. |
| ConfigCommand.FindsMembers | init/init.c:774-812 | The first string with a name among the nodes of any tree is a string without a child, or the key that looking up finds, at any depth, with the nodes of its value behind it. |
| ConfigCommand.ArgvByLookUp | init/init.c:783-820 | The command line is that of the first strings with the names; so it is that of look-up if and only if these stand for the same, as they do when they are keys. |
| ConfigCommand.RestByLookUp | init/init.c:777-805 | The directory and the environment by look-up, each under its own condition. |
| ConfigCommand.ConfigDelivered | init/init.c:758-820 | From the text, exactly and for every backslash-free object: command line or overrun, directory, environment. |
| ConfigCommand.ConfigByLookUp | init/init.c:758-820 | From the text: command line, directory and environment together, by look-up in the tree. |
| ConfigCommand.EntrypointThenCmd | init/init.c:814-818 | From the text: with non-empty `Entrypoint` and `Cmd` lists at any depth and fewer than 32 strings, the command line is the elements of the one followed by those of the other, whatever the environment holds, unless it holds one of the two. |
| ConfigCommand.ReadCommandLine | init/init.c:758-820 | From the character array: `config_parse_file` succeeds and leaves those strings in a vector ended by NULL. |
| ConfigOutcome.FirstMemberIsLookup | init/init.c:774-812 | Look-up finds the first member called by one of the names, in document order and at any depth. |
| ConfigOutcome.NamesMean | init/init.c:777-811 | The names are `args` or `Cmd`, `WorkingDir` or `Cwd`, `Entrypoint`, `Env`, in any case. |
| ConfigOutcome.VectorIsStrings | init/init.c:620-655 | The vector of any value: as many strings as it has children, read from left to right inside it; NULL if it has none; too many from 32 on. |
| ConfigOutcome.LineIsCommand | init/init.c:783-820 | The strings of the entry point and then those of the arguments, or nothing without arguments; too many from 32 on, together or alone. |
| ConfigOutcome.GuestIsGiven | init/init.c:758-820 | From the text, in the terms of the file format alone: with names that come first as keys and plain environment entries, the file overruns 32 cells, or the command is the entry point followed by the arguments, the directory is as written, and every variable has the value its entries give it. |
| ConfigOutcome.ReadGuestConfig | init/init.c:758-820 | From the character array, in place: `config_parse_file` ends so. |
| ConfigLimits.StringTakenForKey | init/init.c:783-793 | A value that is the string `cmd` is taken for the key: the command line is the text of the list. |
| ConfigLimits.EntryWithChildren | init/init.c:596-617 | An environment entry that is an object: cutting it cuts the directory inside it. |
| ConfigLimits.CommandInEntry | init/init.c:596-617 | An environment entry that holds the command: cutting it cuts the command. |
| LittleEndian.ValueOfBytes | src/hvf/src/lib.rs:1157-1163 | The value of n bytes is below 256^n, and its n bytes are those bytes. |
| LittleEndian.BytesOfValue | src/hvf/src/lib.rs:1239-1245 | The n bytes of a value are octets and give the value modulo 256^n. |
| LittleEndian.BytesAreDigits | src/hvf/src/lib.rs:1239-1245 | Byte i of a value is its i-th digit to the base 256. |
| VcpuSyndrome.AbortDecodes | src/hvf/src/lib.rs:1208-1222 | For every data abort packed from its fields: a store or load of 2^SAS bytes, with the register and direction of their fields, whatever the other fields are. |
| VcpuSyndrome.SysregDecodes | src/hvf/src/lib.rs:1254-1257 | For every system-register trap packed from its fields: a read or write of the register named by its five encoding fields, with that general register. |
| VcpuSyndrome.ClassDecodes | src/hvf/src/lib.rs:1208-1330 | The other classes: 0x01 is WFx, 0x16 HVC, 0x17 SMC, 0x3c a breakpoint, any other unexpected, whatever the details. |
| VcpuSyndrome.EverySyndrome | src/hvf/src/lib.rs:1208-1209 | Every number is the syndrome of some fields, so these are all. |
| VcpuRuns.PsciAsks | src/hvf/src/lib.rs:1113-1151 | For every function number: what the monitor is asked; CPU_ON names the target in X1, the entry in X2 and the context in X3, AFFINITY_INFO the processor in X1; an unknown number stops the program. |
| VcpuRuns.PsciServes | src/hvf/src/lib.rs:1107-1151 | And what X0 is afterwards: 2 for the version and the migrate type, 0 for CPU_ON, the monitor's answer for AFFINITY_INFO; nothing else changes. |
| VcpuRuns.TrapEmulates | src/hvf/src/lib.rs:1210-1330 | For every trap: handling it, answering it and completing what is pending equals emulating the instruction in one go, and reports what the registers at that moment tell. |
| VcpuRuns.LeaveEmulates | src/hvf/src/lib.rs:1090-1105 | For every stop, with the timer sync: the same, and the mask field still equals the framework's mask. |
| VcpuRuns.TurnEmulates | src/hvf/src/lib.rs:1153-1331 | For every turn: nothing is pending when the guest starts, the mask field equals the framework's mask, and the turn is a turn of the reference machine. |
| VcpuRuns.RunsAreAtomic | src/hvf/src/lib.rs:1153-1331 | Every run shows the guest the registers, and reports the exits, of the machine that emulates each trapped instruction at once, power services as DEN 0022 numbers them included; no guest instruction executes with a load or a step pending. |
| VcpuRuns.TargetIsNotPc | src/hvf/src/lib.rs:1157-1170 | Register 31 of a trapped instruction is never written: the target is below the program counter's slot. |
| VcpuRuns.EmulateTouches | src/hvf/src/lib.rs:1174-1178 | Between two guest instructions the program counter moves by 4 exactly for data aborts, system-register traps, WFx and SMC that are not retried, and by 0 otherwise; besides it only the target register changes, and the timer mask, lifted at an exception once the timer is not firing; SIMD, system and interrupt registers, lines and offset stay. |
| VcpuRuns.LoadReachesTarget | src/hvf/src/lib.rs:1157-1171 | A trapped load puts the device's bytes, little-endian and zero-extended, into its target. |
| VcpuRuns.StoreReportsSource | src/hvf/src/lib.rs:1230-1252 | A trapped store reports its address and, little-endian, the source register modulo 256^len; register 31 stores zero. |
| VcpuContract.SystemListed | src/hvf/src/lib.rs:40-106 | The system registers saved are, by their encodings, exactly the control, translation, key, exception, thread and timer registers of EL1 and EL0, and those of EL2 for a nested guest. |
| VcpuContract.InterfaceListed | src/hvf/src/lib.rs:108-124 | The processor-interface registers saved are exactly priority, active state and enables, and the EL2 enable for a nested guest. |
| VcpuRestore.VirtualListed | src/hvf/src/lib.rs:125-148 | The virtual-interface registers saved are exactly its active priorities, control, enable and the list registers there are. |
| VcpuRestore.ScriptSize | src/hvf/src/lib.rs:943-984 | A restore makes 118 framework writes, for a nested guest 148 and one for each list register. |
| VcpuRestore.NestedIchRegisters | src/hvf/src/lib.rs:1366-1383 | The nested list is the active priorities, the control register, exactly the implemented list registers, and the enable last. |
| VcpuRestore.TopologyMatches | src/hvf/src/lib.rs:646-673 | A state saved with n list registers is accepted by a nested destination with m if and only if n equals m, up to 16. |
| VcpuRestore.ScriptRestores | src/hvf/src/lib.rs:943-984 | The writes of a restore leave every listed register with the captured value and no other changed; CPSR, first forced to EL2, ends with the captured one; lines, offset and mask are the captured ones, a nested mask cleared. |
| VcpuRestore.CaptureSucceedsIff | src/hvf/src/lib.rs:870-933 | A capture succeeds if and only if the interface is there, no load is pending, there are at most 16 list registers and the host answers all of 118 reads, for a nested guest 148 and one for each list register; otherwise the error says which. |
| VcpuRestore.RestoreAccepts | src/hvf/src/lib.rs:936-989 | A captured state is restored without error if and only if the destination is of the same kind with as many list registers and the host accepts all those writes. |
| VcpuRestore.RestoreCarries | src/hvf/src/lib.rs:870-989 | From any destination: after capture and restore every register the architecture gives a guest, CNTV_CTL and CNTV_CVAL among them, holds the source's value and every other one the destination's own; lines, offset, pending step and mask are the source's, a nested mask cleared. |
| VcpuRestore.DebugStaysBehind | src/hvf/src/lib.rs:40-106 | A debug register comes back if and only if the destination already holds the source's value. |
| VcpuRestore.RestoreOfCapture | src/hvf/src/lib.rs:870-989 | Capture then restore, on a destination that differs only in what the architecture gives a guest, makes its registers and pending step equal the source's; only a nested destination drops the timer mask. |
| VcpuRestore.RestoredRunsAlike | src/hvf/src/lib.rs:936-989 | Not nested, from any destination that differs only in what the architecture gives a guest: whatever guest and monitor do next, source and copy report the same exits and show the guest the same registers. |
| VcpuRestore.NestedRestoredRuns | src/hvf/src/lib.rs:978-987 | Nested: the copy runs as the source would with its timer notifications unmasked. |
| VcpuRestore.InterfaceEnabledLast | src/hvf/src/lib.rs:970-972 | In every prefix of a restore the virtual interface is enabled only after its active-priority, control and list registers. |
| VcpuRestore.GroupsEnabledLast | src/hvf/src/lib.rs:967-969 | In every prefix the interface and group enables come only after control, priority and active state. |
| VcpuRestore.ClockBeforeTimers | src/hvf/src/lib.rs:949-966 | In every prefix the counter offset is set before any system register, and so before any timer, and not again. |
| VcpuRestore.HypervisorModeFirst | src/hvf/src/lib.rs:942-953 | The first write puts a nested destination into EL2h with D, A, I and F masked; otherwise it is the counter offset. |
| HvfVcpu.HvfVcpu.constructor | src/hvf/src/lib.rs:722-732 | A new vCPU has nothing pending, a zero buffer and an unmasked timer. |
| HvfVcpu.HvfVcpu.RetryCurrentInstruction | src/hvf/src/lib.rs:1076-1078 | Takes back the pending step and changes nothing else. |
| HvfVcpu.HvfVcpu.SyncVtimer | src/hvf/src/lib.rs:1090-1105 | Unmasks field and framework together unless the timer still fires; raises the interrupt if it was masked. |
| HvfVcpu.HvfVcpu.HandlePsciRequest | src/hvf/src/lib.rs:1113-1151 | Does the specified request, and asks the monitor what the function number and the argument registers say. |
| HvfVcpu.HvfVcpu.EnterGuest | src/hvf/src/lib.rs:1154-1182 | Completes the pending load and step and injects the interrupt. |
| HvfVcpu.HvfVcpu.FillBuffer | src/hvf/src/lib.rs:1239-1245 | The front of the buffer holds the value's low bytes, the rest is unchanged. |
| HvfVcpu.HvfVcpu.HandleDataAbort | src/hvf/src/lib.rs:1215-1252 | Does what the specification says of the decoded abort. |
| HvfVcpu.HvfVcpu.HandleSysreg | src/hvf/src/lib.rs:1254-1305 | So for a system-register trap, including the two cases in which the program stops. |
| HvfVcpu.HvfVcpu.HandleWait | src/hvf/src/lib.rs:1306-1323 | So for WFx. |
| HvfVcpu.HvfVcpu.HandleException | src/hvf/src/lib.rs:1205-1330 | So for every exception. |
| HvfVcpu.HvfVcpu.Run | src/hvf/src/lib.rs:1153-1331 | The object's `run` ends in the state and with the report of the specified run. |
| HvfVcpu.HvfVcpu.CaptureState | src/hvf/src/lib.rs:870-933 | Returns the specified state, or the error: interface missing, load pending, too many list registers, or a register read refused, at whatever point; nothing changes. |
| HvfVcpu.HvfVcpu.CountListRegisters | src/hvf/src/lib.rs:991-1001 | The count the hardware reports, 0 if not nested, an error above 16. |
| HvfVcpu.HvfVcpu.WriteState | src/hvf/src/lib.rs:943-984 | Makes the writes of the script in order; if the host refuses one, exactly those before it have happened. |
| HvfVcpu.HvfVcpu.RestoreState | src/hvf/src/lib.rs:936-989 | Ends in the state, and with the error if any, of the specified restore, for every point at which the host refuses. |
| BrandString.FindFreq | src/cpuid/src/brand_string.rs:210-302 | Finds a match of digits, point, digits, unit, "Hz" if and only if there is one, and then the match that starts first, which also ends first. |
| BrandString.FractionStart | src/cpuid/src/brand_string.rs:256-269 | Of a finished candidate only the unit at its end can make a match, so restarting at the fraction loses none. |
| BrandString.CandidateIsFirst | src/cpuid/src/brand_string.rs:282-289 | The candidate that reaches its "Hz" starts and ends before every other match. |
| BrandString.WordOfView | src/cpuid/src/brand_string.rs:151-174 | A register is the little-endian value of its four bytes. |
| BrandString.ViewInjective | src/cpuid/src/brand_string.rs:171-184 | Two register buffers with the same bytes are the same. |
| BrandString.ByteStored | src/cpuid/src/brand_string.rs:180-184 | Storing a byte through the view changes that byte and no other. |
| BrandString.Brand.FromBytesUnchecked | src/cpuid/src/brand_string.rs:140-145 | The bytes are the source followed by zeros. |
| BrandString.Brand.PushBytes | src/cpuid/src/brand_string.rs:192-204 | Appends if and only if there is room below the terminator, otherwise changes nothing; zeros past the text stay zeros. |
| BrandString.Brand.GetRegForLeaf | src/cpuid/src/brand_string.rs:151-156 | The register of a leaf from 0x80000002 to 0x80000004 is the value of exactly its four bytes, EAX, EBX, ECX and EDX in this order. |
| BrandString.Brand.SetRegForLeaf | src/cpuid/src/brand_string.rs:162-167 | Sets that register and no other. |
| BrandVendor.FromHostCpuid | src/cpuid/src/brand_string.rs:106-134 | Not supported if and only if the leaves are missing; stops if and only if they are there and hold no text; otherwise the bytes are the host's leaves and the length ends at the last non-zero byte below the terminator. |
| BrandVendor.FromVendorId | src/cpuid/src/brand_string.rs:85-101 | Stops if and only if the guest is Intel and the host shows no text or a frequency of more than 18 bytes; otherwise the text is the vendor's name and, for Intel, " @ " and the host's first frequency; the rest is zeros. |
| BrandVendor.EmulatedShowsFreq | src/cpuid/src/brand_string.rs:85-101 | The string given to an Intel guest shows the frequency it was built from, and no other. |
| BrandVendor.EmulatedIsFixedPoint | src/cpuid/src/brand_string.rs:85-101 | A guest of a guest gets the string its host got, whatever the vendor, and nothing stops on the way. |
| BrandVendor.NestingChangesNothing | src/cpuid/src/brand_string.rs:85-101 | So at every depth. |
| TouchTracker.SlotFor | examples/krun_gtk_display/src/display_worker.rs:51-68 | The slot that follows the touch, else the first free one, else slot 0. |
| TouchProtocol.SyncMirrors | examples/krun_gtk_display/src/display_worker.rs:124-174 | Sending what is queued, with pointer, report and blank events, shows the receiver nothing new. |
| TouchProtocol.SelectMirrors | examples/krun_gtk_display/src/display_worker.rs:225-232 | After the slot event the receiver's slot is the finger's. |
| TouchProtocol.IdentifyMirrors | examples/krun_gtk_display/src/display_worker.rs:234-242 | A new finger becomes a contact with its id in that slot. |
| TouchProtocol.PlaceMirrors | examples/krun_gtk_display/src/display_worker.rs:244-260 | Sending only the coordinates that changed leaves the receiver with the finger's position. |
| TouchProtocol.LiftMirrors | examples/krun_gtk_display/src/display_worker.rs:278-294 | Lifting a finger ends exactly its contact. |
| TouchProtocol.PushMirrors | examples/krun_gtk_display/src/display_worker.rs:205-307 | A touch event keeps the receiver's view equal to the tracker; after a begin or end the queue is empty. |
| TouchProtocol.ReceiverSeesTracker | examples/krun_gtk_display/src/display_worker.rs:99-307 | For every sequence of calls, a receiver that knows the protocol's event numbers and nothing else ends with the tracker: slot, live slots, ids and positions. |
| TouchProtocol.TouchesAreDistinct | examples/krun_gtk_display/src/display_worker.rs:50-81 | No touch is ever followed by two fingers. |
| TouchProtocol.SlotIsKept | examples/krun_gtk_display/src/display_worker.rs:51-68 | A touch keeps its slot while it lives. |
| TouchStream.PushAt | examples/krun_gtk_display/src/display_worker.rs:205-307 | A touch event puts its position, or its end, into its own slot, which keeps its touch and its id; every other slot stays as it is. |
| TouchStream.SlotShowsLastEvent | examples/krun_gtk_display/src/display_worker.rs:205-307 | After any calls the receiver shows in each slot a contact at the position of the last event whose touch was there, and none if there was no event or it ended its touch. |
| TouchStream.ContactKeepsId | examples/krun_gtk_display/src/display_worker.rs:234-242 | A contact shown before and after a call has the same tracking id. |
| TouchStream.TouchesAreShown | examples/krun_gtk_display/src/display_worker.rs:50-307 | After any calls with a slot for each touch: the contacts shown correspond one to one to the touches begun and not ended, each at the position of its last event; an ended touch is not shown. |
| TouchStream.CrowdedTouchMovesFirst | examples/krun_gtk_display/src/display_worker.rs:51-68 | With every slot taken, the event of another touch moves the contact in the first slot. |
| TouchPointer.TrackingIdsCountUp | examples/krun_gtk_display/src/display_worker.rs:234-242 | The n-th tracking id in the stream of any calls is n modulo 65536; so one differs from each of the 65535 given out before it. |
| TouchPointer.StreamReads | examples/krun_gtk_display/src/display_worker.rs:124-307 | After any calls the ABS_X, ABS_Y and BTN_TOUCH events of the stream decode to the last synced position and to whether the last begin or end was a begin. |
| TouchPointer.PointerSees | examples/krun_gtk_display/src/display_worker.rs:141-163 | With single-touch on, what was sent decodes to the position of the last event of the first slot, once nothing is left to send; with multi-touch off to that of its last beginning; the button is down from a beginning to an end. |
| TouchPointer.MotionIsNotSent | examples/krun_gtk_display/src/display_worker.rs:124-127 | With multi-touch off an update and a sync send nothing: the queue is empty. |
| TouchPointer.ButtonForgetsFirst | examples/krun_gtk_display/src/display_worker.rs:286-292 | Two touches, the second of which ends: the button is up and the first touch is down. |
| TouchPointer.ButtonIsFirstFingerIff | examples/krun_gtk_display/src/display_worker.rs:262-306 | After every call the button says whether the first slot's touch is down, if and only if no touch moves in that slot before it begins, and touches in other slots begin only while it is down and end only while it is not. |
| TouchPointer.EverythingIsReported | examples/krun_gtk_display/src/display_worker.rs:161-173 | Whatever was sent ends with a report. |
| TouchPointer.FirstUpdateAsks | examples/krun_gtk_display/src/display_worker.rs:298-305 | A later sync is asked for by exactly the first update after something was sent. |
| TouchSender.TouchEventSequencedSender.constructor | examples/krun_gtk_display/src/display_worker.rs:111-122 | A fresh sender. |
| TouchSender.TouchEventSequencedSender.FindSlot | examples/krun_gtk_display/src/display_worker.rs:52-68 | One pass over the fingers finds the specified slot. |
| TouchSender.TouchEventSequencedSender.Track | examples/krun_gtk_display/src/display_worker.rs:51-81 | Puts a new finger there if it is free. |
| TouchSender.TouchEventSequencedSender.SyncNow | examples/krun_gtk_display/src/display_worker.rs:124-174 | Does the specified sync. |
| TouchSender.TouchEventSequencedSender.QueueDescription | examples/krun_gtk_display/src/display_worker.rs:219-260 | Queues and records what changed about a finger. |
| TouchSender.TouchEventSequencedSender.ConcludeTouch | examples/krun_gtk_display/src/display_worker.rs:262-306 | Begin, end and update as specified, with the answer whether to schedule a sync. |
| TouchSender.TouchEventSequencedSender.PushTouch | examples/krun_gtk_display/src/display_worker.rs:205-307 | Does the specified touch event, so the theorems on streams hold of what it sends. |
| DisplayBuffers.AllocTally | examples/krun_gtk_display/src/display_backend.rs:116-132 | Taking a buffer moves it from the channel to the scanout, and the one it replaces is freed; the count is kept. |
| DisplayBuffers.PresentTally | examples/krun_gtk_display/src/display_backend.rs:134-157 | Presenting moves the current buffer, or a new empty one, on its way; the count is kept. |
| DisplayBuffers.ReturnTally | examples/krun_gtk_display/src/display_backend.rs:200-213 | A buffer that goes back to its channel is counted there. |
| DisplayBuffers.RoomForOne | examples/krun_gtk_display/src/display_backend.rs:200-213 | While a channel has only its four buffers there is room for one that is away. |
| DisplayBuffers.GiveBackKeeps | examples/krun_gtk_display/src/display_backend.rs:200-213 | Letting a buffer go keeps the invariant, whether it goes back, finds the channel full or finds it gone. |
| DisplayBuffers.StepKeeps | examples/krun_gtk_display/src/display_backend.rs:62-213 | Every step of either thread keeps every buffer of every live scanout in exactly one place, freed included. |
| DisplayBuffers.BuffersAreConserved | examples/krun_gtk_display/src/display_backend.rs:62-213 | So does every interleaving. |
| DisplayBuffers.EveryBufferIsInOnePlace | examples/krun_gtk_display/src/display_backend.rs:62-213 | From the start, under every interleaving and whatever the caller does: each buffer made for a live scanout is in exactly one of channel, current, presented, shown, freed; only its own buffers are in its channel. |
| DisplayBuffers.StepWhole | examples/krun_gtk_display/src/display_backend.rs:116-157 | A step adds no buffer to a live scanout and frees none if and only if it is careful: a present finds a frame, an alloc finds none of no size. |
| DisplayBuffers.WholeIffCareful | examples/krun_gtk_display/src/display_backend.rs:62-213 | Over every interleaving: the four buffers stay the four, none freed, if and only if every step is careful. |
| DisplayBuffers.FourBuffers | examples/krun_gtk_display/src/display_backend.rs:62-213 | After a careful run each of a live scanout's four buffers is in exactly one of channel, current, presented, shown, and one that is let go finds room. |
| DisplayBuffers.CarelessRuns | examples/krun_gtk_display/src/display_backend.rs:121-146 | A present without a frame makes a fifth buffer; an alloc over a frame of no size frees one. |
| DisplayFrames.SendOne | examples/krun_gtk_display/src/display_worker.rs:684-742 | Sending one more message adds its effect at the end of the worker's future. |
| DisplayFrames.StepFits | examples/krun_gtk_display/src/display_backend.rs:72-157 | Every step keeps the two sides' configurations in agreement; a present adds a frame that will fit if and only if it has the required size; no other step changes whether the frames under way fit. |
| DisplayFrames.RunFits | examples/krun_gtk_display/src/display_backend.rs:72-157 | Over every interleaving: all frames handled fit and all left will fit, if and only if those there at first would and every present had the required size. |
| DisplayFrames.FramesFitIffMatched | examples/krun_gtk_display/src/display_worker.rs:726-737 | From the start: every frame handled had its window and exactly 4 × width × height bytes, and every frame under way will, if and only if every present of a live scanout had the size required at that moment. |
| DisplayFrames.HandledFrameFits | examples/krun_gtk_display/src/display_worker.rs:726-737 | If every present finds a frame and no scanout is resized while its frame is being filled, every frame handled has its window and exactly 4 × width × height bytes; nothing else is asked of the run. |
| DisplayFrames.ResizeWhileFilling | examples/krun_gtk_display/src/display_backend.rs:74-75 | A scanout resized between alloc and present: the frame under way does not fit. |
| DisplayWindows.WindowsFollowConfigurations | examples/krun_gtk_display/src/display_worker.rs:684-742 | After any interleaving, once everything sent is handled there is a window for exactly the scanouts configured and not disabled since, with the width and height of the last configuration; frames of 4 × width × height bytes are asked for. |
| DisplayWindows.EmptyPresentFitsIff | examples/krun_gtk_display/src/display_backend.rs:134-157 | After any interleaving a present without a frame sends one without bytes, which fits if and only if the scanout's window has no pixels. |
| DisplayWindows.AllocWaitsIff | examples/krun_gtk_display/src/display_backend.rs:116-132 | After any careful interleaving an alloc that needs a buffer waits if and only if all four are presented or shown. |
| DisplayThreads.Shared.NewChannel | examples/krun_gtk_display/src/display_backend.rs:77-86 | A new channel, filled with four buffers of its own. |
| DisplayThreads.Shared.DropBuffer | examples/krun_gtk_display/src/display_backend.rs:200-213 | Returns the buffer as specified: sent, dropped with its channel, or refused by a full one. |
| DisplayThreads.Shared.ReleaseBuffer | examples/krun_gtk_display/src/display_backend.rs:200-213 | The release step. |
| DisplayThreads.GtkDisplayBackend.ConfigureDisplay | examples/krun_gtk_display/src/display_backend.rs:63-106 | The configure step. |
| DisplayThreads.GtkDisplayBackend.DisableDisplay | examples/krun_gtk_display/src/display_backend.rs:108-114 | The disable step. |
| DisplayThreads.GtkDisplayBackend.AllocFrame | examples/krun_gtk_display/src/display_backend.rs:116-132 | The alloc step with its two errors; an empty current buffer counts as none; the frame has the required size. |
| DisplayThreads.GtkDisplayBackend.PresentFrame | examples/krun_gtk_display/src/display_backend.rs:134-157 | The present step with its error, with or without an allocated frame. |
| DisplayThreads.DisplayWorker.HandleOne | examples/krun_gtk_display/src/display_worker.rs:687-741 | The handle step. |
| DisplayThreads.DisplayWorker.HandleEvent | examples/krun_gtk_display/src/display_worker.rs:684-742 | Handles every message there is, in order. |
| BusIndex.FirstBefore | src/devices/src/bus.rs:93-101 | The last entry that starts at or before the address, if any. |
| BusIndex.GetDevice | src/devices/src/bus.rs:103-111 | Finds a device if and only if some range contains the address, and then that range's, with the offset into it. |
| BusIndex.PlacedIsValid | src/devices/src/bus.rs:136-138 | Placing a free range keeps the ranges sorted, non-empty and disjoint, and adds exactly it. |
| BusIndex.PassesIffFree | src/devices/src/bus.rs:115-134 | The tests of insert pass exactly the non-empty ranges that meet no stored one, if and only if the range wraps harmlessly. |
| BusIndex.WrappedEndPasses | src/devices/src/bus.rs:128-134 | A range beyond the address space that lies across a stored one and passes. |
| BusIndex.Bus.MapInsert | src/devices/src/bus.rs:136-138 | Replaces if and only if an entry has the same base. |
| BusIndex.Bus.Insert | src/devices/src/bus.rs:114-141 | Accepted exactly when the tests pass, then the range is added; refused, nothing changes; the replacing branch is never taken; the ranges stay disjoint and the answer is right if and only if the range wraps harmlessly. |
| BusIndex.AllAccepted | src/devices/src/bus.rs:114-141 | A list of ranges is accepted as a whole if and only if it is non-empty ranges, pairwise disjoint. |
| BusIndex.OrderDoesNotMatter | src/devices/src/bus.rs:114-141 | Whatever the order of insertion, the same lists are accepted and the bus is the same. |
| BusIndex.InsertEach | src/devices/src/bus.rs:114-141 | Calling insert for each range of a list that ends within 2^64, up to the first refusal, ends as that fold does: refused if and only if the ranges are not apart, otherwise the same bus in every order. |
| EventRegistry.DoTells | src/polly/src/event_manager.rs:135-183 | A command and its outcome tell who owns a descriptor afterwards. |
| EventRegistry.DispatchTells | src/polly/src/event_manager.rs:227-244 | After any part of a batch the owner is what the log of commands tells. |
| EventRegistry.DeliveredToOwner | src/polly/src/event_manager.rs:227-244 | Each event of a batch goes to whoever is registered for its descriptor at that moment, callbacks of the batch included, and to nobody otherwise. |
| EventRegistry.NothingAfterUnregister | src/polly/src/event_manager.rs:154-170 | Once unregistered, even if the kernel refused, a descriptor gets nothing until registered again. |
| EventRegistry.DoKeeps | src/polly/src/event_manager.rs:135-183 | The kernel watches the registered descriptors and the leaked ones, and every command keeps it so: a descriptor leaks exactly when unregistering it is refused. |
| EventRegistry.DispatchKeeps | src/polly/src/event_manager.rs:227-244 | So does every batch with any callbacks. |
| EventRegistry.RegistryWithinKernel | src/polly/src/event_manager.rs:122-244 | For every life of the manager: the kernel's set is the registry's and, for ever, the descriptors whose unregistering was refused; so the registry is within it, and equal to it if and only if none was. |
| EventRegistry.RefusedDeleteLeaks | src/polly/src/event_manager.rs:154-170 | A descriptor whose deletion was refused stays watched, and registering it again fails. |
| EventMasks.MaskIsLastAsked | src/polly/src/event_manager.rs:122-244 | For every life of the manager: the mask the kernel holds for a descriptor is that of its last successful register or modify since it was last deleted, and its subscriber the one last registered and not unregistered since. |
| EventRegistry.RegisterFirstOwns | src/polly/src/event_manager.rs:122-131 | With the first n interests registered the subscriber owns those descriptors, and all others are as before. |
| EventRegistry.EventManager.RegisterFd | src/polly/src/event_manager.rs:135-151 | The register command. |
| EventRegistry.EventManager.UnregisterFd | src/polly/src/event_manager.rs:154-170 | The unregister command: the subscriber goes even if the kernel refuses. |
| EventRegistry.EventManager.ModifyFd | src/polly/src/event_manager.rs:173-183 | The modify command. |
| EventRegistry.EventManager.IsPollable | src/polly/src/event_manager.rs:186-203 | Tells whether the kernel would add the descriptor and leaves everything as it was. |
| EventRegistry.EventManager.AddSubscriber | src/polly/src/event_manager.rs:122-131 | Registers exactly the interests before the first failing one; succeeds if and only if none fails. |
| EventRegistry.EventManager.DispatchEvents | src/polly/src/event_manager.rs:227-244 | The loop delivers the batch as specified, with callbacks changing the manager in between. |
| ArgsStream.ReadBodyBack | init/aws-nitro/args_reader.c:72-121 | A framed object reads back as itself. |
| ArgsStream.ReadListBack | init/aws-nitro/args_reader.c:126-160 | So does a framed list. |
| ArgsStream.ReadAllBack | init/aws-nitro/args_reader.c:227-274 | A written argument stream reads back as the arguments, and what follows is left. |
| ArgsStream.SoFarIsAll | init/aws-nitro/args_reader.c:227-274 | A stream is read to its final id if and only if it neither breaks off inside an argument nor ends where an id is expected. |
| ArgsCut.CutArg | init/aws-nitro/args_reader.c:72-160 | An argument cut off inside cannot be read, whatever its kind; a root file system of which nine bytes came has told its size, nothing else tells anything. |
| ArgsCut.CutStream | init/aws-nitro/args_reader.c:227-274 | A written stream cut off after any number of bytes: exactly the arguments whole before the cut are read, and reading ends inside the argument that is cut, or where an id is expected. |
| ArgsStream.LastWins | init/aws-nitro/args_reader.c:241-262 | The last occurrence of each argument is what the enclave ends up with. |
| ArgsStream.FlagsStaySet | init/aws-nitro/args_reader.c:255-260 | A flag is set exactly when some argument sets it or it was set. |
| ArgsLoop.DoesReturn | init/aws-nitro/args_reader.c:232-273 | A stream with its final id, one that breaks off, and one that ends after an argument with a body: the loop returns 0 or the negated error number, with the whole arguments in the record. |
| ArgsLoop.NeverReturns | init/aws-nitro/args_reader.c:234-238 | A stream that ends after a flag or an unknown id: the loop goes on for any number of turns, taking the last id again. |
| ArgsLoop.ReturnsIff | init/aws-nitro/args_reader.c:227-274 | The loop returns if and only if the stream does not end where an id is expected, or does so after an argument with a body. |
| ArgsReader.Socket.LenRead | init/aws-nitro/args_reader.c:38-54 | Eight bytes, little-endian; nothing if fewer are left. |
| ArgsReader.Socket.Receive | init/aws-nitro/args_reader.c:72-121 | However the object is split into non-empty reads, the buffer holds exactly its bytes and nothing after them is consumed; no buffer if and only if the stream breaks off, the announced size being known if its eight bytes came. |
| ArgsReader.Socket.ListBuild | init/aws-nitro/args_reader.c:126-160 | The declared number of strings, in order, and a NULL behind them; no list if and only if the stream breaks off. |
| ArgsReader.EnclaveArgs.ReadOne | init/aws-nitro/args_reader.c:240-261 | One argument is taken as specified; an unknown id is skipped; one that breaks off leaves the record as it was, but for the announced size of a root file system. |
| ArgsReader.EnclaveArgs.ReadArgs | init/aws-nitro/args_reader.c:227-274 | For every stream on which the loop returns: the status and record specified, whole arguments kept when one breaks off or the stream ends; the record depends on the stream alone, not on how it is split. |
| ArgsReader.ReadWritten | init/aws-nitro/args_reader.c:227-274 | End to end: what was written, split in any way, fills the record with the arguments. |

## Left out

- ConfigParse.UnescapeString: what becomes of the text from the first backslash on is a parameter that makes it no longer, because `unescape_string` does no JSON unescaping that could be claimed there: it does not step past an escape letter.
- ConfigMeaning.ConfigIsItsMeaning: configurations with backslashes are not covered, for that reason.
- ConfigParse.ConfigParseFile: assumes, with `ConfigReader.PutNul`, that the cell after the text holds a NUL. The code allocates exactly as many bytes as the file has, puts none there and takes `strlen`.
- ConfigSpared.SparedVector: one way only. A vector inside the array read as environment may be spared as well; `ConfigCommand.ConfigDelivered` says what is delivered then.
- JsonResume.ResumeIsFresh: the value of a `\u` escape cut short by the end of the text is a parameter, because the code then converts a partly uninitialised buffer.
- HvfVcpu.HvfVcpu.Run: framework calls inside `run` succeed, so the errors of single register accesses are not modelled; a refused access is modelled for capture and restore only. The program counter wraps at 2^64; the multiplication of a timeout does not.
- TouchSender.TouchEventSequencedSender.PushTouch: takes the mapped integer coordinates; the floating-point `map_position` is not modelled. A tracking id may repeat after 65536 touches.
- DisplayThreads.GtkDisplayBackend.ConfigureDisplay: the frame size is not reduced to a machine word, which 4 × width × height can exceed.
- EventRegistry.EventManager.DispatchEvents: a descriptor closed while it is registered, which the kernel forgets by itself, is not modelled.
- ArgsReader.EnclaveArgs.ReadArgs: requires a positive error number, because the code returns `-errno` after a short read, which does not set it. Freeing a list that breaks off is not modelled, and allocations succeed.
- The bus's `read` and `write`, which pass the offset found on to the device, and the event manager's wait, which passes the kernel's events to the dispatch loop.
- Integer widths of text positions and token counts: unbounded in the model.
- Whether a deferred touch sync that is asked for ever happens.
- Where a vCPU restarts after an SMC-issued CPU_OFF; `set_initial_state` is not modelled.
- GTK widgets, keyboards, sockets, ioctls, mounts, processes, firmware and network code: I/O plumbing.
- CPUID bit helpers, input bitmaps, GIC entry points and address-space flags: they would only add easy members.
- Lock poisoning, log output and the wording of errors.
