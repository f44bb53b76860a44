# Layered JavaScript optimizer: a verified model of its controller

`optimize.js` is a Node command-line script. It reads a JavaScript file and passes
the text through up to three external tools in a fixed order: Babel (transpile),
Terser (minify) and esbuild (bundle). It then writes the result to an output file.
The tools do all of the transformation work. The script's own logic is three small
pieces, and this project models and proves all three:

- **The argument scanner** (`parseCLIArgs`), in `cli_args.dfy`, module `CliArgs`.
  It is a method with a `while` loop that mirrors the `forEach`/`switch` scan token
  by token. It is proved equal to `ParsedOptions`, a reference definition stated by
  occurrence:
  - each stage flag takes the token after its **last** occurrence, and is true only
    if that token is exactly `"true"`;
  - `--output` takes the token after its last occurrence, which is `undefined` when
    the flag is the final token;
  - the input file is the **first** token that is neither a flag name nor empty;
  - parsing fails when there is no such token.

  JavaScript's `null`, `undefined` and string values are modelled as `JsString`, and
  truthiness as `Truthy`.
- **The output file name** (`main`, line 110), in `output_name.dfy`, module
  `OutputName`. These are pure functions: the last `/`-segment of the input, one
  trailing `.js` removed, and `.bundle.min.js` appended. The explicit `--output`
  value is used only when it is truthy.
- **The stage controller** (`runLayeredOptimization`), in `pipeline.dfy`, module
  `Pipeline`. It is a method that reassigns one `code` buffer through the three
  gated stages. It is proved equal to `Run`, a reference definition that folds the
  planned stages (`Plan`, `ApplyStages`).
  - The outside world is an `Env` value: the readable files, which paths are
    writable, `path.dirname`, and the three tools. Each of these is an arbitrary
    total function, and a tool returns `None` when it throws.
  - A run produces a `Report`: the list of tool requests it made, with their
    arguments, and its `Outcome`, which is either the one file it wrote
    (`Written(path, text)`) or the failure that was caught and logged (`Aborted`).
- **`main`**, in `optimize.dfy`, module `Optimize`, composes the three pieces and
  gives the exit code.

`wrappers.dfy` holds the `Option` and `Result` datatypes.

Three behaviours of the code are easy to misread:

- A token used as a flag's value is **not** consumed. It goes through the switch
  again, so `--output o.js in.js` reads and overwrites `o.js`.
- A failure to read the input file happens inside the `try`. It is caught and logged
  like any stage failure; it does not propagate.
- A failed run still exits with code 0. Only the missing-input usage error exits
  with 1.

## Model

| member | source | states |
|---|---|---|
| `CliArgs.LastIndexBefore` | optimize.js:30-43 | the index returned holds the flag and no later index (below `n`) does; `None` means the flag does not occur; this is the "last occurrence wins" rule of the repeated switch |
| `CliArgs.FirstInputFrom` | optimize.js:44-47 | the index returned is an input candidate (not a flag name, not empty) and no earlier one is; `None` means there is no candidate |
| `CliArgs.ParseCLIArgs` | optimize.js:20-57 | the token-by-token scan, with `null` and `true` defaults, each flag reading `args[index + 1]`, and the default branch overwriting a falsy input file, returns exactly `ParsedOptions(args)`: last occurrence per flag, first candidate as input, failure when there is none |
| `CliArgs.DefaultsWithoutFlags` | optimize.js:22-28 | with no flag token, all three stages are on and `output` is null; parsing then fails iff every token is empty |
| `CliArgs.FailsIffNoInputCandidate` | optimize.js:51-54 | parsing fails (exit 1) iff every token is one of the four flag names or the empty string |
| `CliArgs.InputIsFirstCandidate` | optimize.js:44-47 | the first token that is neither a flag name nor empty is the input file, and parsing succeeds |
| `CliArgs.LaterBoolFlagWins` | optimize.js:32-40 | appending `flag v` to any arguments makes that stage flag exactly `v == "true"`, whatever came before |
| `CliArgs.LaterOutputWins` | optimize.js:41-43 | appending `--output v` makes the output `v`, or `undefined` when `v` is itself `--output` (its last occurrence is then final) |
| `CliArgs.FlagInFinalPosition` | optimize.js:33-42 | a flag in the final position reads `undefined`: a stage flag becomes false and `--output` becomes undefined |
| `CliArgs.FlagValueAlsoTakenAsInput` | optimize.js:30-48 | a flag's value token is scanned again, so `flag v ...` with `v` a candidate has input file `v` |
| `CliArgs.OutputValueBecomesInput` | optimize.js:41-47 | `--output o.js in.js` parses to input `o.js`, output `o.js`, all stages on |
| `CliArgs.EmptyTokenIsOverwritten` | optimize.js:45-53 | an empty token stored as the input file is replaced by the next ordinary token; an empty token alone fails |
| `OutputName.Basename` | optimize.js:110 | the result is the longest `/`-free suffix of the path |
| `OutputName.StripJsExtension` | optimize.js:110 | the result is a prefix of the name; adding `.js` back gives the name when a `.js` was removed (name longer than `.js`); otherwise the name is unchanged |
| `OutputName.DefaultOutputName` | optimize.js:110 | the default name contains no `/` (it lands in the working directory) and ends in `.bundle.min.js` |
| `OutputName.BasenameOfLastSegment` | optimize.js:110 | the base name of `dir + name` is `name` when `dir` is empty or ends in `/` and `name` has no `/` |
| `OutputName.StripAddedJsExtension` | optimize.js:110 | stripping undoes adding `.js` to a non-empty stem |
| `OutputName.DefaultNameOfJsFile` | optimize.js:110 | input `dir/stem.js` gives default output `stem.bundle.min.js` |
| `OutputName.DefaultNameOfOtherFile` | optimize.js:110 | an input base name not ending in `.js` is kept whole before `.bundle.min.js` |
| `OutputName.OutputFile` | optimize.js:110 | a truthy `--output` value is the output file as given; otherwise the name has no `/` and ends in `.bundle.min.js` |
| `OutputName.ExplicitOutputWins` | optimize.js:110 | a truthy `--output` value is the output file, as given |
| `OutputName.FalsyOutputFallsBack` | optimize.js:110 | a null, undefined or empty `--output` falls back to the default name |
| `Pipeline.Plan` | optimize.js:66-97 | the stages attempted are exactly the enabled ones, at most three, in strictly increasing order transpile < minify < bundle |
| `Pipeline.CallFor` | optimize.js:68-94 | the request a stage makes belongs to that stage and carries the current code; Babel gets the preset-env preset; esbuild gets bundling on, writing off, the input's directory as resolve directory, and minification iff Terser is enabled |
| `Pipeline.Invoke` | optimize.js:68-95 | Babel and Terser yield what the tool yields (`.code`); esbuild succeeds iff the build succeeds with at least one output file, and then yields the first file's text (`outputFiles[0].text` throws on an empty list) |
| `Pipeline.RunLayeredOptimization` | optimize.js:59-105 | reading the file and then the three gated reassignments of `code`, stopping at the first failure, followed by the write, give exactly the reference run `Run` (requests made and outcome) |
| `Pipeline.ApplyStagesFacts` | optimize.js:66-97 | running a plan requests its stages in order, each on the previous tool's output, stops right after the first failing request, and succeeds iff every planned request succeeded, with the last output |
| `Pipeline.RequestsFollowPlan` | optimize.js:66-97 | the requests made are the planned stages' requests, in plan order, never more than planned |
| `Pipeline.RequestsAreChained` | optimize.js:62-95 | the first request gets the initial code and each later one the output of the request before it |
| `Pipeline.StagesSucceedIffEveryRequestDoes` | optimize.js:66-104 | the stages succeed iff every planned request succeeded, ending with the last output; otherwise the last request made is the one that failed, and it is the failure reported |
| `Pipeline.IdentityWhenAllStagesOff` | optimize.js:62-100 | with all three stages off, no tool is asked and the text written is the text read |
| `Pipeline.StagesInOrder` | optimize.js:66-97 | every tool requested belongs to an enabled stage, and the requests come in the order transpile, minify, bundle, each at most once |
| `Pipeline.ToolArguments` | optimize.js:68-94 | Babel gets the preset-env preset; esbuild gets bundling on, writing off, the input's directory, and minification iff Terser is enabled |
| `Pipeline.BufferIsChained` | optimize.js:62-100 | the first tool gets the text read, each later tool gets the previous tool's output, and the file written holds the last output (or the text read when no stage ran) |
| `Pipeline.WrittenIffEverythingSucceeds` | optimize.js:59-105 | the output file is written, at the output path, iff the read succeeded, every enabled stage was requested and succeeded, and the path is writable |
| `Pipeline.FailureStopsTheRun` | optimize.js:60-104 | a read failure asks no tool; a stage failure is the last request made and the failure reported |
| `Optimize.RunScript` | optimize.js:107-113 | parsing, choosing the output file and running the pipeline give exactly `Script(args, env)` |
| `Optimize.ExitCode` | optimize.js:51-54 | the exit code is non-zero only for the usage error, and then it is 1; a run that aborts in the pipeline exits with 0 because the catch only logs |
| `Optimize.ExitCodeOneOnlyForMissingInput` | optimize.js:51-54 | exit code 1 iff every token is a flag name or empty |
| `Optimize.OutputValueReadAndOverwritten` | optimize.js:107-112 | `--output o.js in.js` runs the pipeline with `o.js` as both the file read and the file written |
| `Optimize.PlainInvocation` | optimize.js:107-112 | a single argument `dir/stem.js` runs every stage, with no output given, and targets `stem.bundle.min.js` |

## Left out

- Babel, Terser and esbuild themselves (optimize.js:68-70, 78, 86-94). They are foreign libraries; each is an arbitrary function in `Env` that may fail. A Babel result with no code counts as a failure, because reading `.code` from it throws. An esbuild result with no output files also counts as a failure, because `outputFiles[0].text` throws.
- A Terser result whose `code` is `undefined` (without throwing) is not modelled. The tool either fails or returns text.
- File reading and writing (optimize.js:62, 100). These are I/O. The file system is a map of readable files and a predicate for writable paths. The write is the `Written` outcome that a run returns, not a change to that map. UTF-8 decoding is not modelled.
- `path.dirname` is opaque: it is a function in `Env`.
- `OutputName.Basename` implements only "the last `/`-separated segment". Node's `path.basename` also strips trailing slashes, and returns `""` when the whole path is exactly `.js`. Neither is modelled.
- Console output and the ANSI `colors` table (optimize.js:10-18 and every `console.log`/`console.error` call). They are cosmetic; the logged error is the `Aborted` failure.
- `async`/`await`, and the call in `main` that is not awaited (optimize.js:112). Execution is sequential, so each stage is modelled as a completed call.
- `process.argv.slice(2)` and `process.exit` (optimize.js:21, 53). The arguments are the already-sliced sequence of strings. The exit is the `UsageFailed` result with `ExitCode` 1.
