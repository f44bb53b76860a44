/**
  The entry point of optimize.js (`main`): parse the arguments, choose the
  output file, run the pipeline. A usage error ends the process with exit
  code 1; a pipeline failure is only logged, so the process still exits with 0.
*/
module Optimize {
  import opened Wrappers
  import opened CliArgs
  import OutputName
  import Pipeline

  /** How one invocation of the script ends. */
  datatype ScriptResult =
    | UsageFailed
    | Ran(options: Options, outputFile: string, report: Pipeline.Report)

  /** The process exit code: 1 only for the usage error. */
  function ExitCode(r: ScriptResult): (code: int)
    ensures code != 0 <==> r.UsageFailed?
    ensures r.UsageFailed? ==> code == 1
  {
    if r.UsageFailed? then 1 else 0
  }

  /** What an invocation with arguments `args` does in environment `env`. */
  function Script(args: seq<string>, env: Pipeline.Env): ScriptResult {
    match ParsedOptions(args)
    case Failure(_) => UsageFailed
    case Success(options) =>
      var outputFile := OutputName.OutputFile(options);
      Ran(options, outputFile, Pipeline.Run(options.inputFile, outputFile, options, env))
  }

  /** `main`, step by step. */
  method RunScript(args: seq<string>, env: Pipeline.Env) returns (r: ScriptResult)
    ensures r == Script(args, env)
  {
    var parsed := ParseCLIArgs(args);
    if parsed.Failure? {
      return UsageFailed;
    }
    var options := parsed.value;
    var outputFile := OutputName.OutputFile(options);
    var report := Pipeline.RunLayeredOptimization(options.inputFile, outputFile, options, env);
    r := Ran(options, outputFile, report);
  }

  /**
    The process exits with 1 exactly when no token names an input file.
  */
  lemma ExitCodeOneOnlyForMissingInput(args: seq<string>, env: Pipeline.Env)
    ensures ExitCode(Script(args, env)) == 1 <==>
      forall i :: 0 <= i < |args| ==> IsFlag(args[i]) || args[i] == ""
  {
    FailsIffNoInputCandidate(args);
  }

  /**
    `--output o.js in.js` reads `o.js` (the flag's value is also the first
    ordinary token) and, when every stage succeeds, writes the result back over
    `o.js`; `in.js` is never read.
  */
  lemma OutputValueReadAndOverwritten(env: Pipeline.Env)
    ensures var options := Options("o.js", Str("o.js"), true, true, true);
      Script(["--output", "o.js", "in.js"], env) ==
        Ran(options, "o.js", Pipeline.Run("o.js", "o.js", options, env))
  {
    OutputValueBecomesInput();
  }

  /** A name ending in ".js" is never one of the flag names, so it can be the input. */
  lemma JsFileIsInputCandidate(name: string)
    requires OutputName.EndsWith(name, OutputName.JsExtension)
    ensures IsInputCandidate(name)
  {
    assert name[|name| - 1] == OutputName.JsExtension[2] == 's';
    assert BabelFlag[|BabelFlag| - 1] != 's' && TerserFlag[|TerserFlag| - 1] != 's';
    assert EsbuildFlag[|EsbuildFlag| - 1] != 's' && OutputFlag[|OutputFlag| - 1] != 's';
  }

  /**
    A plain `dir/stem.js` argument runs every stage and, when all succeed,
    writes `stem.bundle.min.js` in the working directory.
  */
  lemma PlainInvocation(dir: string, stem: string, env: Pipeline.Env)
    requires dir == [] || dir[|dir| - 1] == '/'
    requires '/' !in stem && stem != []
    ensures var input := dir + stem + OutputName.JsExtension;
      && Script([input], env).Ran?
      && Script([input], env).outputFile == stem + OutputName.BundleSuffix
      && Script([input], env).options == Options(input, Null, true, true, true)
  {
    var input := dir + stem + OutputName.JsExtension;
    var options := Options(input, Null, true, true, true);
    OutputName.EndsWithAddedJsExtension(dir + stem);
    SingleTokenParses(input);
    assert OutputName.OutputFile(options) == stem + OutputName.BundleSuffix by {
      OutputName.DefaultNameOfJsFile(dir, stem);
    }
  }

  /** A single argument naming a ".js" file parses to that input with every default. */
  lemma SingleTokenParses(input: string)
    requires OutputName.EndsWith(input, OutputName.JsExtension)
    ensures ParsedOptions([input]) == Success(Options(input, Null, true, true, true))
  {
    JsFileIsInputCandidate(input);
    InputIsFirstCandidate([input], 0);
  }
}
