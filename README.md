# FuncSelector core, modelled in Dafny

FuncSelector picks a representative subset of C functions from a benchmark.
An LLM translates each C function to Rust, and the number of repair rounds the
translation needed becomes one of the metrics used to pick functions. This
project models the parts of that pipeline that decide what gets recorded, and
proves properties of them:

- **The translate–verify–repair loop** of `llm_transpile_with_compilation_fixing.py`:
  - the fence-stripping normaliser with its `"TryAgain"` sentinel (`Normalizer`);
  - the `Cargo.toml` update (`CargoManifest`);
  - the request helpers and their conversation history (`Session`);
  - the three bounded retry phases (`Retry`);
  - the per-file control flow of `main`: skip when done, one log line, artifact write (`Orchestrator`).
- **The model and the compiler are collaborators:**
  - The model is an `Oracle` object that hands out a scripted sequence of replies. An exhausted script stands for the exception the network call raises. The script is finite, so every loop over it ends; `main`'s `while True` restart loop itself has no bound on restarts (see Findings).
  - The compiler is a `Toolchain` object with an uninterpreted acceptance predicate and diagnostic function, and it records every program it is asked to check.
- **The two Rust metric extractors**, each over a small syntax-tree datatype that stands in for `syn`:
  - `dump-unsafe-usage`: the statement counter, the per-function report line, the argument check and the error snippet (`UnsafeUsage`);
  - `dump-var-types`: the expression-type guesser and the per-function report (`VarTypes`).
- **`measure.py`'s record handling** (`Measure`): the type categoriser, `#`-id parsing and key building, the compilation-attempt reader, the unsafe average, the function-section state machine of the variable-type reader, and bin sampling.
- **`evaluate_selections.py`** (`EvaluateSelections`): log-dict building, selection lookup, field-4 extraction, id reformatting, the integer tallies of `get_frequencies`, `extract_number` and the numeric file order, and minimum tracking in `main`.
- **`main.py`** (`Cli`): mode validation, transpiler-name derivation, the output file name and its contents, and the tuning grid.
- **`Interchange`** proves that the formats agree where one component reads what another wrote:
  - the log line written by the loop and read back by the metric readers;
  - the unsafe report read by `get_unsafe_measure`;
  - the `dump-var-types` type strings and the categoriser;
  - the selection file name and its numeric sort key.

`Text` holds the string helpers: Python's `split`/`join`/`strip`/`lower`/`int()`/`str()`, `str.lines`, `os.path.join` and so on. `int()` accepts only an optional sign followed by ASCII digits, and "## Left out" lists what Python accepts beyond that. Whitespace is Unicode White_Space for Rust's `trim_end` (`IsWhiteSpace`) and that set plus the separators 0x1C–0x1F for Python's `strip()` (`IsSpace`). `Wrappers` holds `Option` and `Result`. A raised Python exception is a `Failure` carrying the exception's name (`"ValueError"`, `"IndexError"`, …) or its message.

## Model

| member | source | states |
|---|---|---|
| Text.ParseIntOfIntToString | src/measure.py:56 | `int(str(n)) == n`: every decimal field a tool prints reads back as its number |
| Text.SplitJoin | src/measure.py:40 | splitting on a separator what was joined with it gives the fields back when none holds the separator |
| Text.ReplaceChar | src/main.py:119 | `str.replace` for one character: every occurrence replaced, nothing else changed |
| Text.ReplaceCharInverse | src/main.py:119 | replacing back undoes a replacement by a character the string did not hold |
| Text.ToLower | src/main.py:52 | `str.lower` on ASCII: upper-case letters become lower-case, everything else is kept |
| Text.Strip | src/main.py:82 | `str.strip(c)`: the result is a slice of the string that neither starts nor ends with c, and every character dropped before or after the slice is c |
| Text.Trim | src/evaluate_selections.py:74 | `str.strip()`: the result is a slice of the string that neither starts nor ends with whitespace, and every character dropped before or after the slice is whitespace, whitespace being Python's `isspace` set (Unicode White_Space and the separators 0x1C–0x1F) |
| Text.StripStart | src/main.py:82 | `lstrip(c)`: a suffix of the string that does not start with c; every character dropped is c |
| Text.StripEnd | src/main.py:82 | `rstrip(c)`: a prefix of the string that does not end with c; every character dropped is c |
| Text.ParseInt | src/measure.py:56 | `int()` on an optional sign and decimal digits; a value comes only from non-empty text; `Text.ParseIntOfIntToString` proves `int(str(n)) == n` |
| Text.Split | src/measure.py:45 | `str.split(sep)`: always at least one field; `Text.SplitJoin` proves it undoes `Join` on separator-free fields |
| Text.Join | src/llm_transpile_with_compilation_fixing.py:324-327 | `sep.join(parts)`; specified through `Text.SplitJoin`: splitting the joined text on the separator gives the parts back |
| Text.Lines | src/dump-unsafe-usage/src/main.rs:202 | `str::lines`; specified by `Text.LinesOfFields` and `Text.LinesOfJoin`: text written one line per field reads back as those fields |
| Text.JoinPath | src/evaluate_selections.py:157 | `os.path.join(dir, name)`; specified by `Text.JoinPathLast` |
| Text.JoinPathLast | src/evaluate_selections.py:157 | a relative name without '/' is the last '/'-separated field of the joined path, whatever the directory, and the path does not end in '/' |
| Text.TrimEnd | src/dump-unsafe-usage/src/main.rs:235 | `trim_end`: the result is a prefix that does not end in Unicode White_Space (NEL, no-break space and the Unicode spaces included), and every character removed is White_Space |
| Text.LinesOfFields | src/dump-unsafe-usage/src/main.rs:202 | text whose newline-separated fields have no trailing `\r` and no empty tail reads back as those fields |
| Text.LinesOfJoin | src/dump-unsafe-usage/src/main.rs:202 | `str::lines` reads back lines written with newline separators |
| Text.Ceil | src/measure.py:385 | the least integer not below x |
| Normalizer.StripAround | src/llm_transpile_with_compilation_fixing.py:54-55 | dropping a prefix of length a and a suffix of length b leaves exactly the middle of the reply when it is long enough |
| Normalizer.CleanFrom | src/llm_transpile_with_compilation_fixing.py:53-64 | the if/elif chain from the k-th convention on; specified by `Normalizer.CleanMeaning` |
| Normalizer.CheckFormatAndClean | src/llm_transpile_with_compilation_fixing.py:52-70 | check_format_and_clean; specified by `Normalizer.CleanMeaning` and the four round-trip lemmas below |
| Normalizer.FirstFence | src/llm_transpile_with_compilation_fixing.py:53-64 | the index of the first fence convention, in the order the if/elif chain tries them, that the reply matches; None exactly when no convention matches |
| Normalizer.ClosingInsideOpening | src/llm_transpile_with_compilation_fixing.py:53-64 | in a reply shorter than a fence's opening and closing together, a match would put the closing's first backtick inside the opening text, at a position where the opening has a backtick |
| Normalizer.FencesDoNotOverlap | src/llm_transpile_with_compilation_fixing.py:53-64 | whenever a fence matches, the reply is long enough that stripping the opening and the closing removes disjoint parts |
| Normalizer.CleanMeaning | src/llm_transpile_with_compilation_fixing.py:52-70 | a reply matching no fence yields exactly the sentinel; otherwise the reply is the first matching fence's opening, then the result, then its closing, so nothing else is changed |
| Normalizer.FenceOneRoundTrip | src/llm_transpile_with_compilation_fixing.py:53-55 | wrapping any payload in "```rust\n" … "```" and normalising gives the payload back |
| Normalizer.FenceTwoRoundTrip | src/llm_transpile_with_compilation_fixing.py:56-58 | wrapping any payload in "```rust\n" … "```\n" and normalising gives the payload back, even though the first fence is tried first |
| Normalizer.FenceThreeRoundTrip | src/llm_transpile_with_compilation_fixing.py:59-61 | wrapping in "```rust" … "```" round-trips if and only if the payload does not start with a newline; otherwise the first fence wins and the newline is lost |
| Normalizer.FenceFourRoundTrip | src/llm_transpile_with_compilation_fixing.py:62-64 | wrapping any payload in " ```rust\n" … "```" and normalising gives the payload back |
| Normalizer.UnfencedUnusable | src/llm_transpile_with_compilation_fixing.py:52-70 | a reply that starts with neither a backtick nor a space, or is empty, always normalises to the sentinel |
| CargoManifest.WithCrateType | src/llm_transpile_with_compilation_fixing.py:88-97 | afterwards `lib` is a table with a `crate-type`; a missing `lib` becomes `{crate-type: ["cdylib"]}`; a missing `crate-type` is added; an existing one is untouched; all other keys are unchanged; a non-table `lib` is the raised error |
| CargoManifest.UpdateIdempotent | src/llm_transpile_with_compilation_fixing.py:88-97 | applying the update twice equals applying it once |
| CargoManifest.Manifest.constructor | src/llm_transpile_with_compilation_fixing.py:90 | the manifest object holds the loaded key/value data |
| CargoManifest.Manifest.UpdateCrateType | src/llm_transpile_with_compilation_fixing.py:91-95 | the in-place update leaves exactly the data the specification function gives, and leaves the data untouched when it fails |
| Session.Oracle.Chat | src/llm_transpile_with_compilation_fixing.py:45-48 | every call records the message list sent; while replies remain, it returns the next scripted reply and consumes it; an exhausted script is the raised error and consumes nothing |
| Session.Toolchain.IsCompilable | src/llm_transpile_with_compilation_fixing.py:99-136 | records the program checked; reports success exactly when the compiler accepts it, with no diagnostic on success and the compiler's diagnostic on failure |
| Session.LlmRequest | src/llm_transpile_with_compilation_fixing.py:38-50 | the request is sent after the given history, and only the new request turn and the reply come back, not the whole conversation |
| Session.TranslateOnce | src/llm_transpile_with_compilation_fixing.py:72-86 | one translation request with an empty history; the result is the normalised reply and the two new turns |
| Session.FixCompilationErrors | src/llm_transpile_with_compilation_fixing.py:138-155 | the diagnostic is sent after the running history; a usable reply extends the history by the request and the reply, and the sentinel leaves it unchanged |
| Session.FixPubNoMangle | src/llm_transpile_with_compilation_fixing.py:157-172 | the annotation request always starts from an empty history; the returned history is the two new turns, or empty on the sentinel |
| Retry.Transpilation | src/llm_transpile_with_compilation_fixing.py:174-186 | between one and five requests, all the same one with an empty history; every reply but the last was the sentinel; the result is the payload of the first usable reply, or "" after five sentinels, and never "TryAgain" |
| Retry.RepairRound | src/llm_transpile_with_compilation_fixing.py:194-204 | between one and five fix requests, all after the same history; every reply but the last was the sentinel; a usable reply gives its payload and the extended history, and five sentinels give "" with the history unchanged |
| Retry.CheckAndFixCompilation | src/llm_transpile_with_compilation_fixing.py:188-207 | code the compiler accepts comes back unchanged with count 0 and no request; otherwise the count equals the number of fix requests and is at most 24; at most 20 compile checks are made; success means the returned code is the one checked last and it compiled with fewer than 20 fixes; failure means at least 20 fixes, a rejected last check, and a returned code that came from the last reply and was never checked |
| Retry.AnnotateAttempt | src/llm_transpile_with_compilation_fixing.py:213-224 | one annotation request in a fresh conversation; the payload is compile-checked exactly when the reply is usable, and the attempt succeeds exactly when the reply is usable and its payload compiles |
| Retry.CheckPubNoMangle | src/llm_transpile_with_compilation_fixing.py:209-229 | between one and five requests on the same input; every attempt but the last failed; the result is the accepted payload with the number of requests made, or the input unchanged with count five when none was accepted, or the input with one less than the requests when the accepted payload is empty; a changed result always compiles |
| Orchestrator.LastIndexOf | src/llm_transpile_with_compilation_fixing.py:253 | the position of the last occurrence of a character, or None when it does not occur |
| Orchestrator.Stem | src/llm_transpile_with_compilation_fixing.py:253 | `os.path.splitext(name)[0]`: the name itself, or the part before a last dot with no dot after it |
| Orchestrator.StemOfExtended | src/llm_transpile_with_compilation_fixing.py:253 | removing an extension that holds no dot from a name that is not all dots gives the base name back |
| Orchestrator.ArtifactName | src/llm_transpile_with_compilation_fixing.py:319 | `splitext(file)[0] + '.rs'`; specified by `Orchestrator.StemOfExtended` and by the artifact clauses of `Orchestrator.ProcessFile` |
| Orchestrator.RecordFields | src/llm_transpile_with_compilation_fixing.py:324-327 | the eight record fields in log order; specified by `Orchestrator.RecordLineFields` |
| Orchestrator.Render | src/llm_transpile_with_compilation_fixing.py:324-327 | the error line `file: message` with newlines made spaces, or the ';'-joined record; specified by `Orchestrator.RecordLineFields` |
| Orchestrator.RecordLineFields | src/llm_transpile_with_compilation_fixing.py:324-327 | a record line splits back on ';' into exactly its eight fields when the file name holds no ';', and field 4 is the repair count |
| Orchestrator.OutputDir.Append | src/llm_transpile_with_compilation_fixing.py:324-328 | appending a log line adds exactly that line at the end and leaves the artifacts alone |
| Orchestrator.OutputDir.Write | src/llm_transpile_with_compilation_fixing.py:320-321 | writing an artifact sets exactly that name and leaves the log alone |
| Orchestrator.PipelineRound | src/llm_transpile_with_compilation_fixing.py:273-309 | one pass of the loop body: a finished pass has compiled code that is non-empty and accepted, with fewer than 20 fixes and at most 5 annotation tries, or a compile failure after at least 20 fixes and no annotation pass; an empty output restarts after consuming at least one reply; a request that raises is the exhausted script; on a model that never answers in a fence the pass makes exactly five requests and no compile check |
| Orchestrator.RunPipeline | src/llm_transpile_with_compilation_fixing.py:272-309 | the `while True` restart loop as written: it ends only with a finished pass or with the error raised when the script runs out; on a model that never answers in a fence it fails with that error after restarting once per five replies, having checked nothing |
| Orchestrator.RunPipelineBounded | src/llm_transpile_with_compilation_fixing.py:272-309 | the restart loop with a restart budget: at most `limit` restarts, so it ends whatever the model answers; a finished pass as above, the exhausted script, or the budget error; a model that never answers in a fence ends with the budget error after exactly five requests per pass and no compile check |
| Orchestrator.StuckModelRestarts | src/llm_transpile_with_compilation_fixing.py:272-309 | as written, a model that answers 5·k times without a code fence makes the loop restart k times with no compile check, ending only because the replies run out |
| Orchestrator.TranslateFile | src/llm_transpile_with_compilation_fixing.py:263-327 | exactly one log line for the file; an error line leaves the artifacts unchanged; a record line comes with the artifact `<stem>.rs` written and no other artifact changed; a compiled record has accepted code and the three timings, and a failed one has no annotation time and at least 20 fixes |
| Orchestrator.ProcessFile | src/llm_transpile_with_compilation_fixing.py:251-328 | a file whose artifact exists is skipped with no request, check, line or write; an unopenable file ends the batch; a read error, an empty input ("Input file is empty!") and a pipeline error each give one error line and no artifact; otherwise one record line and the artifact |
| Orchestrator.RecordsKept | src/llm_transpile_with_compilation_fixing.py:251-328 | an artifact written for a recorded file is still there after the next file, whatever that file's outcome |
| Orchestrator.ProcessDirectory | src/llm_transpile_with_compilation_fixing.py:251-328 | the log grows by exactly the lines the per-file outcomes give, in order; no existing artifact changes; every recorded file has its artifact; only the last file can end the batch; a directory whose artifacts all exist changes nothing |
| UnsafeUsage.BlockCountAppend | src/dump-unsafe-usage/src/main.rs:127-190 | the count of a statement list is the sum of the counts of its parts |
| UnsafeUsage.ArmsCountAppend | src/dump-unsafe-usage/src/main.rs:154-159 | the count of match arms is the sum of the counts of its parts |
| UnsafeUsage.BlockCount | src/dump-unsafe-usage/src/main.rs:127-190 | count_statements_in_block; specified by `UnsafeUsage.BlockCountAppend` and the loop `UnsafeUsage.CountStatementsInBlock` |
| UnsafeUsage.StmtCount | src/dump-unsafe-usage/src/main.rs:131-186 | one statement's share; specified by `UnsafeUsage.CountStatement` |
| UnsafeUsage.SimpleStatementsCountOne | src/dump-unsafe-usage/src/main.rs:185 | a block of n statements matching no compound case counts n |
| UnsafeUsage.CountStatementsInBlock | src/dump-unsafe-usage/src/main.rs:127-190 | the loop's count equals the recursive count of the block |
| UnsafeUsage.CountStatement | src/dump-unsafe-usage/src/main.rs:131-186 | one statement's share of the count: a plain block adds only its contents; loop, while, for, try-block and unsafe add one plus their body; `?` adds one; `if` adds one plus the then-branch, and an else adds one plus its contents only when it is a plain block; `match` adds one plus one per arm plus the arm's block |
| UnsafeUsage.UnsafeCountsAppend | src/dump-unsafe-usage/src/main.rs:105-125 | the per-block counts of a statement list are those of its parts, in order |
| UnsafeUsage.TopUnsafe | src/dump-unsafe-usage/src/main.rs:113 | the match arm for an unsafe block without a semicolon; specified by `UnsafeUsage.NoUnsafeBlocks` |
| UnsafeUsage.UnsafeCounts | src/dump-unsafe-usage/src/main.rs:105-125 | the per-block counts of count_unsafe_statements; specified by `UnsafeUsage.UnsafeCountsAppend`, `UnsafeUsage.NoUnsafeBlocks` and `UnsafeUsage.CountUnsafeStatements` |
| UnsafeUsage.UnsafeWithinBlock | src/dump-unsafe-usage/src/main.rs:105-125 | the statements counted inside a function's top-level unsafe blocks, plus one per block, never exceed the function's total count |
| UnsafeUsage.NoUnsafeBlocks | src/dump-unsafe-usage/src/main.rs:105-125 | the list of counts is empty if and only if no top-level statement is an unsafe block without a semicolon |
| UnsafeUsage.CountUnsafeStatements | src/dump-unsafe-usage/src/main.rs:105-125 | one count per top-level unsafe block without a semicolon, in source order, and the block count equals the list's length |
| UnsafeUsage.CountTexts | src/dump-unsafe-usage/src/main.rs:90-93 | each count is printed as its decimal text, one per block |
| UnsafeUsage.OutputLine | src/dump-unsafe-usage/src/main.rs:90-94 | the report line; specified by `UnsafeUsage.OutputLineFields` |
| UnsafeUsage.OutputLineFields | src/dump-unsafe-usage/src/main.rs:90-94 | a report line splits back on ';' into the name, the block count and the counts, with a single empty field when there is no unsafe block |
| UnsafeUsage.Functions | src/dump-unsafe-usage/src/main.rs:85-86 | only function items are reported |
| UnsafeUsage.ReportLines | src/dump-unsafe-usage/src/main.rs:85-100 | one report line per function item, in source order |
| UnsafeUsage.RenderLocation | src/dump-unsafe-usage/src/main.rs:199-210 | falls back exactly when the start line is 0 or past the last line; otherwise shows the start line without trailing space; a multi-line span is underlined to the end of the start line; a one-line span is underlined exactly; there is always at least one caret |
| UnsafeUsage.FileName | src/dump-unsafe-usage/src/main.rs:212-215 | `file_name()` or `main.rs`; specified by the two lemmas below |
| UnsafeUsage.FileNameOfJoin | src/dump-unsafe-usage/src/main.rs:212-215 | the name shown for `dir/name` is the plain name, except that "." and ".." give `main.rs` |
| UnsafeUsage.FileNameOfSlashes | src/dump-unsafe-usage/src/main.rs:212-215 | an empty path or one made only of slashes shows `main.rs` |
| Text.Repeat | src/dump-unsafe-usage/src/main.rs:236-238 | n copies of one value: the right length, every element that value |
| UnsafeUsage.SnippetAligned | src/dump-unsafe-usage/src/main.rs:217-242 | the snippet has its seven lines; the code line and the caret line have their `|` in the same column, and every caret sits in the column of the code character it underlines |
| UnsafeUsage.TryMain | src/dump-unsafe-usage/src/main.rs:65-103 | anything but exactly one argument is `IncorrectUsage`; a read failure and a parse failure are reported with their cause; it succeeds exactly when the argument count is right and the read and the parse succeed, and then prints one line per function in order |
| UnsafeUsage.ErrorMessage | src/dump-unsafe-usage/src/main.rs:44-56 | the usage line; "Unable to read file: " followed by the reason; for a parse error whose line is not in the file, "Unable to parse file: " and the message; otherwise the snippet, which starts with an empty line and the heading |
| UnsafeUsage.SnippetLines | src/dump-unsafe-usage/src/main.rs:217-239 | the seven lines of the format string: empty, the heading, the arrow line, the pipe, the numbered code line, the caret line and the empty tail; `UnsafeUsage.SnippetAligned` states their alignment |
| UnsafeUsage.SnippetHeading | src/dump-unsafe-usage/src/main.rs:218-219 | lines that open with an empty line and the heading join into text starting with a newline, the heading and a newline |
| VarTypes.TypesOfLength | src/dump-var-types/src/main.rs:209-211 | one type string per tuple element, in order |
| VarTypes.TypeOf | src/dump-var-types/src/main.rs:132-235 | get_type_of_expression; specified by `VarTypes.TypeOfShape`, `VarTypes.UnaryTransparent` and the `Interchange` category lemmas |
| VarTypes.TypeOfShape | src/dump-var-types/src/main.rs:132-235 | a path gives "enum#" and its first segment, or "NotIdentified#ExprPath" with none; a unary gives its operand's type; a literal prints one "ExprLit"; a non-empty array gives "array#[T; n]" with T from the first element; a non-empty tuple gives "tuple#(" + the element types joined by ", " + ")"; a call or anything unrecognised is NotIdentified |
| VarTypes.UnaryTransparent | src/dump-var-types/src/main.rs:159-162 | any stack of unary operators is transparent: same type string and same extra lines as the innermost operand |
| VarTypes.StripUnary | src/dump-var-types/src/main.rs:159-162 | stripping unary operators leaves an expression that is not unary |
| VarTypes.ExprLitLines | src/dump-var-types/src/main.rs:145 | the literal branch's extra lines are n copies of "ExprLit" |
| VarTypes.ArgsLinesAppend | src/dump-var-types/src/main.rs:30-40 | the argument lines of a list are those of its parts, in order |
| VarTypes.BodyLinesAppend | src/dump-var-types/src/main.rs:49-126 | the local lines of a statement list are those of its parts, in order |
| VarTypes.FileLinesAppend | src/dump-var-types/src/main.rs:25-128 | the report of an item list is the reports of its parts, in order |
| VarTypes.ArgsLinesAreMembers | src/dump-var-types/src/main.rs:30-40 | every argument line starts with "Argument;" |
| VarTypes.LocalLinesAreMembers | src/dump-var-types/src/main.rs:52-108 | every line a `let` prints is an "ExprLit" or "Local;" line |
| VarTypes.BodyLinesAreMembers | src/dump-var-types/src/main.rs:49-126 | every line a body prints is an "ExprLit" or "Local;" line |
| VarTypes.FunctionSection | src/dump-var-types/src/main.rs:26-108 | a function's section opens with "Function;name" and no later line of it is a "Function;" line, so sections never run together |
| VarTypes.EmitArguments | src/dump-var-types/src/main.rs:30-40 | the loop prints exactly one "Argument;name;type" line per typed identifier argument, in order |
| VarTypes.EmitLocal | src/dump-var-types/src/main.rs:52-108 | a `let` with an initialiser prints the initialiser's type (after its "ExprLit" lines), or the annotation with an array#/tuple# prefix; any other statement prints nothing |
| VarTypes.EmitLocals | src/dump-var-types/src/main.rs:49-126 | the loop over a body prints the lines of each statement in order |
| VarTypes.EmitItem | src/dump-var-types/src/main.rs:25-127 | a function item prints its section (name, arguments, explicit return type, locals); any other item prints nothing |
| VarTypes.FileLinesPrefix | src/dump-var-types/src/main.rs:25-128 | each pass of the item loop adds exactly the lines of the next item to the report |
| VarTypes.EmitItems | src/dump-var-types/src/main.rs:25-128 | the loop over the items prints the section of each function, in order: name, arguments, the return type only when it is explicit, then locals |
| VarTypes.DumpVarTypes | src/dump-var-types/src/main.rs:6-129 | anything but exactly one argument is the usage error; read and parse failures panic with their cause; it succeeds exactly when the argument count is right and the read and the parse succeed, and then prints the whole report |
| Measure.TypeCat | src/measure.py:219-264 | a type containing "NotIdentified#" has no category, checked before any other rule; a leading `*` or `&` is a pointer |
| Measure.ReadId | src/measure.py:45-53 | a two-field id sets file and function and keeps the project; a three-field id also overrides the project; any other id leaves the names as they were |
| Measure.ReadIdOfParts | src/measure.py:45-53 | ids built from `#`-free parts are read back into those parts |
| Measure.KeyFields | src/measure.py:55 | a key `proj:file:func` splits back into its three names when none holds a ':' |
| Measure.PathStem | src/measure.py:54 | `Path(name).stem` is a prefix of the last path component |
| Measure.LastDot | src/measure.py:54 | the position of the last dot, or -1 when there is none |
| Measure.PathNameOfPlain | src/measure.py:54 | a name without '/' is its own last component |
| Measure.LastDotPastTail | src/measure.py:54 | a dot-free tail does not move the last dot |
| Measure.PathStemOfFile | src/measure.py:54 | the stem of `base.ext` is `base` |
| Measure.PathNameOfJoin | src/measure.py:187 | the last component of a path joined from a directory and a plain name is that name |
| Measure.AttemptStep | src/measure.py:44-56 | a row is read exactly when it has a field 4 that parses as an int and its id has been recognised; the key is `proj:file:stem(func)` and the value is field 4 |
| Measure.Attempts | src/measure.py:44-56 | the row loop of get_comp_attempt_measure; specified by `Measure.CompAttemptMeasure` and `Measure.FailureStops` |
| Measure.LastWins | src/measure.py:55 | dict assignment in row order; specified by `Measure.LastWinsMeaning` and `Measure.LastWinsValueAt` |
| Measure.LastWinsMeaning | src/measure.py:55 | the dict has exactly the keys read, and each key holds the field of its last row |
| Measure.LastWinsValueAt | src/measure.py:55 | a row after which no row has the same key leaves its field as that key's value |
| Measure.CompAttemptMeasure | src/measure.py:24-59 | fails exactly when a row cannot be read; otherwise gives the last-wins dict and exactly one record per log row, in order, whose attempt number is that row's field 4 read as an integer |
| Measure.FailureStops | src/measure.py:44-56 | an unreadable row fails the whole reading, whatever follows it |
| Measure.UnsafeAverage | src/measure.py:204-211 | succeeds exactly when the total and the fields 2 … total+1 exist and parse; then gives the total and the sum divided by the total, or 0 when the total is 0; a field that exists but does not parse is a ValueError |
| Measure.SumFields | src/measure.py:207-208 | the sum of the block fields; specified by `Measure.FieldSumStops` and `Interchange.SumFieldsOfCounts` |
| Measure.FieldSumStops | src/measure.py:207-208 | a field that does not parse spoils every longer sum |
| Measure.Matching | src/measure.py:199-202 | only lines whose first field is the target function are kept |
| Measure.UnsafeMeasureFile | src/measure.py:176-214 | for one report: the names are those the file's stem gives; an empty report records nothing; otherwise each line of the target function gives a record under `proj:file:func` with its total and average, and any unreadable one fails the file |
| Measure.UnsafeUnreadableStays | src/measure.py:199-214 | an unreadable line fails the whole report, whatever follows it |
| Measure.VarTypeMeasureFile | src/measure.py:285-328 | a record is made exactly when the last function named in the report is the target (or the target is empty); its value is the set of categories and the number of non-None categories, duplicates included, counted only inside the target's section, ignoring Return lines |
| Measure.SectionUnreadableStays | src/measure.py:301-323 | a malformed line inside the section fails the whole report, whatever follows it |
| Measure.SampleSize | src/measure.py:385 | `max(1, ceil(n·ratio))`: at least 1 and at least n·ratio |
| Measure.Every | src/measure.py:387 | `bin[::interval]`; specified by `Measure.EveryMeaning` |
| Measure.SelectBin | src/measure.py:384-388 | one bin's sample; specified by `Measure.SelectBinMeaning` |
| Measure.Selection | src/measure.py:379-389 | the samples of all bins; specified by `Measure.SelectFromBins` and `Measure.SelectionStops` |
| Measure.EveryMeaning | src/measure.py:387 | slicing with a step keeps ⌈n/step⌉ rows: the k-th kept row is row k·step |
| Measure.SelectBinMeaning | src/measure.py:384-388 | a bin succeeds exactly when it has at least sample-size rows; it then keeps row 0 and every interval-th row, at least sample-size of them; a shorter bin has a zero interval and raises |
| Measure.SelectFromBins | src/measure.py:379-389 | the loop gives the concatenation of every bin's sample, and it succeeds exactly when every bin is at least its sample size |
| Measure.SelectionStops | src/measure.py:382-388 | the first bin that raises decides the outcome |
| EvaluateSelections.PutNew | src/evaluate_selections.py:151-152 | adding a new key appends it to the key order and maps it to its fields; an existing key leaves the dict unchanged |
| EvaluateSelections.Stripped | src/evaluate_selections.py:139 | each line is stripped of surrounding whitespace |
| EvaluateSelections.AliveIds | src/evaluate_selections.py:143-145 | each benchmark id has ':' replaced by '#' and ".c" appended |
| EvaluateSelections.LogFromLines | src/evaluate_selections.py:147-152 | the log-dict loop; specified by the three lemmas below and the method `EvaluateSelections.BuildLogDict` |
| EvaluateSelections.LogFromLinesStep | src/evaluate_selections.py:147-152 | a line adds its id only when the id is new and alive |
| EvaluateSelections.LogFromLinesKeys | src/evaluate_selections.py:147-152 | the dict's keys are exactly the alive ids that occur in the log |
| EvaluateSelections.LogFromLinesFirst | src/evaluate_selections.py:147-152 | the first line for an alive id is the one kept |
| EvaluateSelections.BuildLogDict | src/evaluate_selections.py:147-152 | the loop builds the dict the specification function gives |
| EvaluateSelections.Dedup | src/evaluate_selections.py:21-23 | the distinct selected ids, each once |
| EvaluateSelections.SelectLogs | src/evaluate_selections.py:19-25 | get_logs_for_selected; specified by the lemmas below and the method `EvaluateSelections.GetLogsForSelected` |
| EvaluateSelections.SelectLogsSucceeds | src/evaluate_selections.py:19-25 | the lookup succeeds if and only if every selected id is in the log dict; a missing one raises |
| EvaluateSelections.SelectLogsKeys | src/evaluate_selections.py:19-25 | the result's keys are exactly the distinct selected ids in first-seen order, and each value is copied from the log dict |
| EvaluateSelections.GetLogsForSelected | src/evaluate_selections.py:19-25 | the loop gives what the specification function gives |
| EvaluateSelections.SelectLogsStops | src/evaluate_selections.py:21-23 | the first missing id decides the outcome |
| EvaluateSelections.Field4 | src/evaluate_selections.py:30-31 | one value per key; `EvaluateSelections.Field4Meaning` proves the i-th is field 4 of the i-th key's record |
| EvaluateSelections.CompAttempts | src/evaluate_selections.py:27-33 | get_comp_attempts; specified by `EvaluateSelections.Field4Meaning` and the method `EvaluateSelections.GetCompAttempts` |
| EvaluateSelections.Field4Meaning | src/evaluate_selections.py:30-31 | the i-th attempt count is field 4 of the i-th key's record |
| EvaluateSelections.GetCompAttempts | src/evaluate_selections.py:27-33 | the loop gives field 4 of each record in key order, and raises on a record without a field 4 |
| EvaluateSelections.SelectedAttemptsWithin | src/evaluate_selections.py:80-83 | the selection's attempt counts are a sub-multiset of the whole log's |
| EvaluateSelections.Reformat | src/evaluate_selections.py:78 | a selected line with fewer than three ':' fields raises |
| EvaluateSelections.ReformatOfId | src/evaluate_selections.py:78 | `p:f:fn` becomes `p#f#fn.c`, the same id `main` builds for the alive set |
| EvaluateSelections.ReformatAll | src/evaluate_selections.py:78 | every line is reformatted, or the first bad one raises |
| EvaluateSelections.NumberTexts | src/evaluate_selections.py:44 | the keys are the 21 strings "0" … "20" |
| EvaluateSelections.GetFrequencies | src/evaluate_selections.py:35-50 | an empty log divides by zero; otherwise, for each of the 21 keys, the selected value is the selection's tally of that key, and the baseline is 1.0 for a key the log lacks and otherwise the log's tally times the selection's share, rounded up |
| EvaluateSelections.ProcessFile | src/evaluate_selections.py:71-94 | process_files without the plot; specified by `EvaluateSelections.ProcessFileBounds` |
| EvaluateSelections.ProcessFileBounds | src/evaluate_selections.py:71-94 | the number selected is the file's line count; every selected tally is at most the log's tally; a key the log lacks has baseline 1.0 and selected 0 |
| EvaluateSelections.LeadingDigits | src/evaluate_selections.py:98 | the longest run of digits at the front |
| EvaluateSelections.DigitRuns | src/evaluate_selections.py:98 | every run found is a non-empty run of digits |
| EvaluateSelections.ExtractNumber | src/evaluate_selections.py:96-99 | one number per digit run |
| EvaluateSelections.DigitRunsNone | src/evaluate_selections.py:98 | a name without digits has no runs |
| EvaluateSelections.DigitRunsPrefix | src/evaluate_selections.py:98 | a maximal leading run is the first run found |
| EvaluateSelections.DigitRunsAppend | src/evaluate_selections.py:98 | the runs of two parts joined at a non-digit boundary are the runs of each part |
| EvaluateSelections.TupleLess | src/evaluate_selections.py:132 | Python's `<` on int tuples; specified by the three order lemmas below |
| EvaluateSelections.TupleLessTrans | src/evaluate_selections.py:132 | tuple order is transitive |
| EvaluateSelections.TupleLessTotal | src/evaluate_selections.py:132 | tuple order is total |
| EvaluateSelections.TupleLessIrreflexive | src/evaluate_selections.py:132 | tuple order is strict |
| EvaluateSelections.InsertByNumber | src/evaluate_selections.py:132 | one insertion step of the sort; specified by the lemmas below |
| EvaluateSelections.InsertByNumberSorted | src/evaluate_selections.py:132 | inserting into a sorted list keeps it sorted and adds exactly that file |
| EvaluateSelections.InsertByNumberStable | src/evaluate_selections.py:132 | inserting a file puts it after every file already there with an equal key: the files with any given key keep their order |
| EvaluateSelections.SortByNumber | src/evaluate_selections.py:132 | `files.sort(key=extract_number)`; specified by `EvaluateSelections.SortByNumberMeaning` and `EvaluateSelections.SortByNumberStable` |
| EvaluateSelections.SortByNumberMeaning | src/evaluate_selections.py:132 | sorting by extract_number gives a sorted permutation of the files |
| EvaluateSelections.SortByNumberStable | src/evaluate_selections.py:132 | the sort is stable: the files with any given key appear in the same order before and after sorting |
| EvaluateSelections.WithNumberAppend | src/evaluate_selections.py:132 | picking the files with one key from a concatenation picks from each part |
| EvaluateSelections.TxtFiles | src/evaluate_selections.py:131 | exactly the listed names that end in ".txt" are kept |
| EvaluateSelections.Minimum | src/evaluate_selections.py:159-165 | the running minimum; specified by `EvaluateSelections.MinimumMeaning` and `EvaluateSelections.MinimumSnoc` |
| EvaluateSelections.MinimumMeaning | src/evaluate_selections.py:135-165 | the minimum is at most every score; no file is chosen exactly when no score beats the starting maximum; otherwise the chosen file is the first one attaining the minimum |
| EvaluateSelections.MinimumSnoc | src/evaluate_selections.py:163-165 | one more score replaces the kept score and file only when strictly below the kept score; a tie keeps the earlier file |
| EvaluateSelections.ArgumentsAsWritten | src/evaluate_selections.py:119-126 | the argument check as written; `EvaluateSelections.ArgumentsAsWrittenRaises` exhibits the raise |
| EvaluateSelections.ArgumentsAsWrittenRaises | src/evaluate_selections.py:119-126 | as written, a command line with two arguments passes the guard and then raises IndexError |
| EvaluateSelections.ParseArguments | src/evaluate_selections.py:119-126 | fewer than three arguments gives the missing-argument error; otherwise the three arguments in order |
| EvaluateSelections.DirectorySources | src/evaluate_selections.py:131-157 | the i-th source is the i-th name of the numerically sorted ".txt" files, read from the directory; `EvaluateSelections.DirectorySourcesMeaning` states what that means |
| EvaluateSelections.DirectorySourcesMeaning | src/evaluate_selections.py:131-133 | the sources are ".txt" names of the listing, every ".txt" name of the listing is among them, each is read from the directory joined with its name, and they are in numeric order |
| EvaluateSelections.SortedTxtFiles | src/evaluate_selections.py:131-132 | sorting the ".txt" names keeps exactly those names and puts them in numeric order |
| EvaluateSelections.Scores | src/evaluate_selections.py:154-157 | the scores of the files in order, or the first error; specified by `EvaluateSelections.ScoresStop` and the method `EvaluateSelections.EvaluateFiles` |
| EvaluateSelections.ScoreOf | src/evaluate_selections.py:156-157 | one file processed and scored; specified through `EvaluateSelections.ProcessFileBounds` |
| EvaluateSelections.EvaluateFiles | src/evaluate_selections.py:154-165 | the loop gives the least score over the files with its first file, or the first error |
| EvaluateSelections.ScoresStop | src/evaluate_selections.py:154-157 | the first failing file decides the outcome |
| EvaluateSelections.SingleFileAsWrittenFails | src/evaluate_selections.py:128-129 | as written, a single selection file is never scored: the call raises TypeError |
| EvaluateSelections.EvaluationAsWritten | src/evaluate_selections.py:116-171 | main as written; `EvaluateSelections.SingleFileAsWrittenFails` and `EvaluateSelections.ArgumentsAsWrittenRaises` exhibit its failures |
| EvaluateSelections.SingleFileScored | src/evaluate_selections.py:128-129 | the corrected main scores a single selection file against the log dict |
| EvaluateSelections.Evaluation | src/evaluate_selections.py:116-171 | the corrected main; specified by `EvaluateSelections.SingleFileScored` and the method `EvaluateSelections.Run` |
| EvaluateSelections.Run | src/evaluate_selections.py:116-171 | the whole main gives what the specification function gives |
| Cli.Defaults | src/main.py:21-41 | with nothing on the command line there is no mode but there is an output path |
| Cli.ParseArgs | src/main.py:47-66 | accepted exactly when a mode is given, lower-cases to get, select or tune, and has that mode's options; the command is named by the lower-cased mode; every rejection is one of the four messages |
| Cli.ParseArgsErrors | src/main.py:47-66 | each message is given exactly for its reason: no mode, get without its three directories, select or tune without an output path, any other mode |
| Cli.ParseArgsIgnoresCase | src/main.py:52 | two modes with the same lower-case form are judged the same |
| Cli.DefaultsSelect | src/main.py:39-62 | with only a select or tune mode given, the default output path makes the command valid |
| Cli.TranspilerName | src/main.py:81-89 | a name exactly when the directory, stripped of '/', starts with "rust_" and ends with "_sf_withfixing"; the name rebuilt with prefix and suffix gives the directory back |
| Cli.StripLeading | src/main.py:82 | slashes added at the front are stripped |
| Cli.StripTrailing | src/main.py:82 | slashes added at the end are stripped |
| Cli.TranspilerNameOf | src/main.py:81-89 | `rust_<name>_sf_withfixing` with any slashes around it gives back the name |
| Cli.RustDirsProj | src/main.py:81-89 | a directory without a transpiler name leaves the name unbound, which raises UnboundLocalError; otherwise the name and the joined project directory |
| Cli.OutFilename | src/main.py:119 | the file name ends in ".txt"; when the ratio text holds no '#' or '_', the name splits on '#' into "selected_funcs", the partitions, the ratio text with '_' for '.', and the bin count with ".txt", and each field reads back as its value |
| Cli.OutFilenameExtension | src/main.py:119 | no character before the final ".txt" is a dot: the ratio's point has become '_' |
| Cli.PartsFields | src/main.py:119 | the four '#'-fields of the name are the prefix, the partitions, the ratio text with '_' for '.' and the bin count with ".txt", and the numbers and the ratio text read back |
| Cli.NameSplit | src/main.py:119 | a name joined with '#' from fields without '#' splits back into exactly those fields |
| Cli.SelectionTextLines | src/main.py:121-123 | splitting the written text on newlines gives the ids back, then one empty string |
| Cli.SelectionText | src/main.py:121-123 | the selection file's text; specified by `Cli.SelectionTextLines` and the method `Cli.WriteSelection` |
| Cli.WriteSelection | src/main.py:121-123 | the loop writes each id followed by a newline |
| Cli.SelectFuncs | src/main.py:99-123 | succeeds exactly when every bin holds at least its sample size; then writes the sampled ids, one per line, to the output path joined with the derived file name |
| Cli.TuneGrid | src/main.py:133-136 | the grid has 2000 points, in the order the nested loops visit them; `Cli.TuneFollowsGrid` ties it to the files a tune run writes |
| Cli.TuneGridCovers | src/main.py:134-135 | every partition count 1 … 20 is paired with every ratio 0.002 … 0.2 |
| Cli.TuneGridBounds | src/main.py:134-135 | every point has partitions in 1 … 20 and a ratio in 0.002 … 0.2 |
| Cli.SelectAt | src/main.py:135 | one select_funcs call at partition count n and ratio x·0.002: it fails exactly with that point's selection error, and otherwise writes that point's file |
| Cli.TunedUpToSnoc | src/main.py:133-135 | appending the file of the point the loops reach next keeps the files written so far in grid order |
| Cli.RunTune | src/main.py:132-135 | runs select_funcs at every grid point in nested-loop order; the files written are those of the points before the first raise, one per point in order; a raise ends the run with that point's error; a run without a raise writes all 2000 files |
| Cli.GridPointOf | src/main.py:133-134 | the k-th grid point is the one the loops reach at partition count k / 100 + 1 and ratio step k % 100 + 1 |
| Cli.TuneFollowsGrid | src/main.py:133-135 | the k-th file a tune run writes is the path and text select_funcs writes at the k-th grid point |
| Interchange.RecordAttempt | src/measure.py:44-56 | a record line written by the loop is read by get_comp_attempt_measure exactly when its file name is a recognised id, and the value read is the repair count |
| Interchange.RecordAttemptKey | src/llm_transpile_with_compilation_fixing.py:324-327 | the line for `p#f#fn.c` is read under key `p:f:fn` with the repair count, and evaluate_selections' reformatting of that key gives the file name back |
| Interchange.SumFieldsOfCounts | src/measure.py:207-208 | the sum of printed counts read back is the sum of the counts |
| Interchange.UnsafeLineReading | src/measure.py:199-214 | a dump-unsafe-usage line read by get_unsafe_measure gives back the block count and the average of the per-block counts (0 with no block) |
| Interchange.UnsafeFunctionReading | src/dump-unsafe-usage/src/main.rs:89-95 | the line the tool prints for a function reads back as that function's block count and average |
| Interchange.UnidentifiedUncategorised | src/dump-var-types/src/main.rs:142 | every NotIdentified type string the tool prints has no category |
| Interchange.ArrayPrefixCategory | src/dump-var-types/src/main.rs:67 | an "array#" type the tool prints is categorised as an array unless it ends in c_long or c_ulong |
| Interchange.TuplePrefixCategory | src/dump-var-types/src/main.rs:75 | a "tuple#" type the tool prints is categorised as a tuple unless it ends in c_long or c_ulong |
| Interchange.EnumPrefixCategory | src/dump-var-types/src/main.rs:140 | the "enum#" type the tool prints for a path is categorised as an enum unless it ends in c_long or c_ulong or holds the unidentified marker |
| Interchange.StructPrefixCategory | src/dump-var-types/src/main.rs:226 | the "struct#" type the tool prints for a struct literal with named fields is categorised as a struct under the same conditions |
| Interchange.PlainTypeCat | src/measure.py:219-264 | a type string starting with a character no name or prefix of get_type_cat starts with is uncategorised, except the exact "bool" and the two vector spellings |
| Interchange.IntLitCategory | src/dump-var-types/src/main.rs:147 | an integer literal's type "int" is an integer |
| Interchange.FloatLitCategory | src/dump-var-types/src/main.rs:148 | a float literal's type "float" is a float |
| Interchange.StrLitCategory | src/dump-var-types/src/main.rs:149 | a string literal's type "string" is a string |
| Interchange.CharLitCategory | src/dump-var-types/src/main.rs:150 | a character literal's type "char" is a char |
| Interchange.BoolLitCategory | src/dump-var-types/src/main.rs:151 | a boolean literal's type "bool" is a bool |
| Interchange.ByteLitCategory | src/dump-var-types/src/main.rs:152 | a byte literal's type "u8" is an integer |
| Interchange.ByteStrLitCategory | src/dump-var-types/src/main.rs:153 | a byte-string literal's type "Vec<u8>" is a vector |
| Interchange.VerbatimLitUncategorised | src/dump-var-types/src/main.rs:154 | a verbatim literal's type "Verbatim Literal" has no category |
| Interchange.ExtractNumberOfRuns | src/evaluate_selections.py:96-99 | extract_number of a name is the values of its digit runs |
| Interchange.OutFilenameSortKey | src/main.py:119 | the sort key of a selection file is its partition count, the numbers of its ratio text, then its bin count, so the files evaluate_selections reads are ordered by partitions first |

## Left out

- The `ollama.chat` network call is a scripted `Oracle`. The cargo project, the temporary directory, `chdir` and `rmtree` inside `is_compilable` are an uninterpreted acceptance predicate and diagnostic.
- `toml.load` and `toml.dump` file I/O: the manifest is a map of keys to `Toml` values.
- Wall-clock timings are a `Timings` parameter of each file's processing. They are not measured.
- The directory listings in `main` and in the measures, file opening and writing, Docker and subprocess calls, `IPython.embed` and the logging setup in `log.py`. Listings and file contents are parameters.
- `get_MI_for_C`, `get_MI_for_Rust`, `get_metrics`, `PCA_analysis` and `partition`: these are pandas/scikit-learn numerics. `SelectFuncs` takes the bins as a parameter.
- `main.py`'s `get_metrics` loop over project directories and its DataFrame writing. Its per-project name derivation is modelled (`Cli.RustDirsProj`).
- The float ratio in `get_frequencies`, `np.ceil`, `relative_diff`, `draw_histogram` and `draw_diff_plot`. The tallies are modelled, and the difference score is a `diffOf` parameter.
- `str(float)` and `round(x * 0.002, 3)`: the ratio's text is a `ratioText` parameter, and the tuning grid uses exact reals.
- `evaluate_selections_cross_llm.py`: plotting plus a duplicate of the log-dict loop that is modelled.
- `syn` parsing and token-stream printing: the syntax trees are small datatypes, and type text is an uninterpreted string.
- The ANSI colouring in `render_location`.
- `optparse` itself. The options arrive already parsed, as an `Options` value.
- CSV quoting: records are split on the delimiter.
- Text.ParseInt: Python's `int()` also accepts surrounding whitespace (`int(" 3")`, `int("3\n")`), underscores between digits (`int("1_0")`) and non-ASCII decimal digits; the model rejects these, so `Measure.AttemptStep` and `Measure.UnsafeAverage` fail on such a field where Python reads it. The tools that write the fields never print these forms.
- UnsafeUsage.RenderLocation: Rust's `code_line.len()` (src/dump-unsafe-usage/src/main.rs:207-210) is a byte length, while the model measures the line in characters; on a line with non-ASCII characters the caret span of a multi-line error differs.
- Measure.PathName: pathlib drops `.` components, so `Path("a/.").name == "a"` and `Path(".").name == ""`, while the model returns "." for both.
- UnsafeUsage.FileName: Rust's `Path::file_name` also skips a trailing `.` component (`"x/."` gives `x`); the model shows `main.rs`. A trailing `..` gives `main.rs` in both.
- Orchestrator.TranslateFile: it runs the restart loop as written, without a restart budget, so on a model that never answers in a fence it ends only when the scripted replies run out.
- Measure.VarTypeMeasureFile: its contract does not name the exception of a failing file. The method reports UnboundLocalError for a file name never recognised, even where Python would first raise IndexError on an empty line.
- EvaluateSelections.ExtractNumber: Python's `\d` in `re.findall(r'\d+', …)` and `int()` also accept non-ASCII decimal digits (`"f٣.txt"` has key `(3,)` in Python); the model counts only ASCII digits and gives that name key `()`, so `EvaluateSelections.SortByNumber` orders such names differently. The selection files are named by `Cli.OutFilename` from ASCII digits only.
- Session.TranslateOnce: the `if not response: return False` branches of `transpile_with_chatgpt_web`, `fix_compilation_errors` and `fix_pub_no_mangle` (src/llm_transpile_with_compilation_fixing.py:77-78, 143-144, 161-162) are not modelled. In Python their `False` makes the caller's tuple unpacking raise TypeError. The model's `Oracle` always returns a reply or fails, so these branches have no counterpart; the same holds for `Session.FixCompilationErrors` and `Session.FixPubNoMangle`.
- Cli.SelectFuncs: a `metricfile` of `None`, which makes `metricfile + ".pkl"` raise TypeError in Python, is not modelled, because the pickle read is left out.
- Orchestrator.ProcessDirectory: the loop over projects in `main` and the append-mode reopening of the log per project are not modelled; one directory is processed against one output directory.
- Measure.TypeCat: its contract states the NotIdentified and pointer rules. For the strings dump-var-types prints, `Interchange` states the category of the array, tuple, enum and struct prefixes, of each of the eight literal types, and of unidentified types. The other rules (the integer, float and char name lists, `libc::timespec`, `HashMap` and `Option`) are not stated by any lemma.

## Findings

| source | as written | input that shows it | evidently intended | confidence | as-written member | corrected member |
|---|---|---|---|---|---|---|
| src/evaluate_selections.py:119-126 | the guard rejects fewer than three argv entries, then reads `args[3]` | `evaluate_selections.py merged_transpilation.log selected_func_lists/` (three entries) passes the guard and raises IndexError | require four entries: the script and its three arguments | not executed | EvaluateSelections.ArgumentsAsWrittenRaises | EvaluateSelections.ParseArguments |
| src/evaluate_selections.py:128-129 | a single selection file is passed to `process_files` with two of its three arguments, and with the log's file name in place of the log dict | any existing non-directory selection path | score that one file against the log dict, as the directory branch does | not executed | EvaluateSelections.SingleFileAsWrittenFails | EvaluateSelections.SingleFileScored |
| src/llm_transpile_with_compilation_fixing.py:272-309 | `while True` starts the pipeline over whenever translation leaves an empty output, with no bound on the number of restarts | a model whose every reply lacks a code fence (e.g. empty replies): each pass makes five requests, gets the "TryAgain" sentinel each time and restarts, forever | give the file up after a bounded number of restarts, as the other phases give up after five or twenty tries | not executed | Orchestrator.StuckModelRestarts | Orchestrator.RunPipelineBounded |
