/**
  The stage sequencing of `runLayeredOptimization` in optimize.js.

  One `code` buffer is read from the input file and passed through the
  transpiler (Babel), the minifier (Terser) and the bundler (esbuild), each only
  when its flag is set, in that order; the result is written to the output file.
  Every failure (read, any stage, write) is caught once and only logged, so the
  file is written only when everything before the write succeeded.

  The file system, `path.dirname` and the three tools are not part of this
  model: they are the fields of an `Env`, each an arbitrary total function.
*/
module Pipeline {
  import opened Wrappers
  import CliArgs

  /** The preset list Babel is always called with. */
  const BabelPreset: string := "@babel/preset-env"

  datatype Stage = Transpile | Minify | Bundle

  /** The options object handed to esbuild's `build`. */
  datatype BuildOptions = BuildOptions(
    contents: string,
    resolveDir: string,
    bundle: bool,
    minify: bool,
    write: bool)

  /** One request to a collaborator, with the arguments it received. */
  datatype Call =
    | BabelCall(code: string, presets: seq<string>)
    | TerserCall(code: string)
    | EsbuildCall(build: BuildOptions)

  /**
    The environment: readable files with their text, which paths can be
    written, `path.dirname`, and the three tools. A tool yields `None` when it
    throws (or, for Babel, returns no code); esbuild yields the texts of its
    output files.
  */
  datatype Env = Env(
    files: map<string, string>,
    writable: string -> bool,
    dirname: string -> string,
    babel: (string, seq<string>) -> Option<string>,
    terser: string -> Option<string>,
    esbuild: BuildOptions -> Option<seq<string>>)

  /** What aborted a run; the catch block logs it and writes nothing. */
  datatype Failure = ReadFailed | StageFailed(stage: Stage) | WriteFailed

  /** How a run ends: the one file written, or the failure that was logged. */
  datatype Outcome = Written(path: string, text: string) | Aborted(failure: Failure)

  /** A run as the outside world sees it: the tool requests made, and the outcome. */
  datatype Report = Report(calls: seq<Call>, outcome: Outcome)

  /** A partial run: the tool requests made so far and the current code, or the failure. */
  datatype Trace = Trace(calls: seq<Call>, result: Result<string, Failure>)

  function Rank(s: Stage): nat {
    match s
    case Transpile => 0
    case Minify => 1
    case Bundle => 2
  }

  function StageOf(c: Call): Stage {
    match c
    case BabelCall(_, _) => Transpile
    case TerserCall(_) => Minify
    case EsbuildCall(_) => Bundle
  }

  /** The code a request hands to its tool. */
  function InputOf(c: Call): string {
    match c
    case BabelCall(code, _) => code
    case TerserCall(code) => code
    case EsbuildCall(b) => b.contents
  }

  /** Whether the options enable a stage. */
  function Enabled(options: CliArgs.Options, s: Stage): bool {
    match s
    case Transpile => options.babel
    case Minify => options.terser
    case Bundle => options.esbuild
  }

  /** The stages a run attempts: the enabled ones, in the fixed order. */
  function Plan(options: CliArgs.Options): (p: seq<Stage>)
    ensures |p| <= 3
    ensures forall s :: s in p <==> Enabled(options, s)
    ensures forall i, j :: 0 <= i < j < |p| ==> Rank(p[i]) < Rank(p[j])
  {
    (if options.babel then [Transpile] else [])
    + (if options.terser then [Minify] else [])
    + (if options.esbuild then [Bundle] else [])
  }

  /**
    The request a stage makes on the current code. The bundler gets the code
    as its entry, resolved from the input file's directory, with bundling on,
    writing off, and its own minification on exactly when Terser is enabled.
  */
  function CallFor(s: Stage, code: string, inputFile: string, options: CliArgs.Options, env: Env): (c: Call)
    ensures StageOf(c) == s && InputOf(c) == code
    ensures c.BabelCall? ==> c.presets == [BabelPreset]
    ensures c.EsbuildCall? ==>
      c.build.minify == options.terser && c.build.bundle && !c.build.write
      && c.build.resolveDir == env.dirname(inputFile)
  {
    match s
    case Transpile => BabelCall(code, [BabelPreset])
    case Minify => TerserCall(code)
    case Bundle => EsbuildCall(BuildOptions(code, env.dirname(inputFile), true, options.terser, false))
  }

  /**
    The code a request produces, or `None` when the tool fails. For esbuild it
    is the text of the first output file; reading it from an empty list throws.
  */
  function Invoke(c: Call, env: Env): (r: Option<string>)
    ensures c.BabelCall? ==> r == env.babel(c.code, c.presets)
    ensures c.TerserCall? ==> r == env.terser(c.code)
    ensures c.EsbuildCall? ==>
      (r.Some? <==> env.esbuild(c.build).Some? && |env.esbuild(c.build).value| > 0)
    ensures c.EsbuildCall? && r.Some? ==> r.value == env.esbuild(c.build).value[0]
  {
    match c
    case BabelCall(code, presets) => env.babel(code, presets)
    case TerserCall(code) => env.terser(code)
    case EsbuildCall(b) =>
      match env.esbuild(b)
      case None => None
      case Some(outputFiles) => if |outputFiles| == 0 then None else Some(outputFiles[0])
  }

  /** Runs the stages of `plan` in turn on `code`, stopping at the first failure. */
  function ApplyStages(plan: seq<Stage>, code: string, inputFile: string, options: CliArgs.Options, env: Env): Trace
    decreases |plan|
  {
    if plan == [] then Trace([], Success(code))
    else
      var call := CallFor(plan[0], code, inputFile, options, env);
      match Invoke(call, env)
      case None => Trace([call], Failure(StageFailed(plan[0])))
      case Some(next) =>
        var rest := ApplyStages(plan[1..], next, inputFile, options, env);
        Trace([call] + rest.calls, rest.result)
  }

  /** The whole run: read, the planned stages, then the write. */
  function Run(inputFile: string, outputFile: string, options: CliArgs.Options, env: Env): Report {
    if inputFile !in env.files then Report([], Aborted(ReadFailed))
    else
      var t := ApplyStages(Plan(options), env.files[inputFile], inputFile, options, env);
      match t.result
      case Failure(f) => Report(t.calls, Aborted(f))
      case Success(code) =>
        if env.writable(outputFile) then Report(t.calls, Written(outputFile, code))
        else Report(t.calls, Aborted(WriteFailed))
  }

  /**
    What has been done so far is consistent with the reference run: the whole
    plan on the source yields the requests made so far followed by what the
    stages still to do yield on the current code.
  */
  ghost predicate Resumes(plan: seq<Stage>, source: string, calls: seq<Call>, todo: seq<Stage>, code: string,
                          inputFile: string, options: CliArgs.Options, env: Env)
  {
    var rest := ApplyStages(todo, code, inputFile, options, env);
    ApplyStages(plan, source, inputFile, options, env) == Trace(calls + rest.calls, rest.result)
  }

  /** A stage that succeeds moves its request into the past and its output into the buffer. */
  lemma ResumeAfterSuccess(plan: seq<Stage>, source: string, calls: seq<Call>, todo: seq<Stage>, code: string,
                           inputFile: string, options: CliArgs.Options, env: Env, next: string)
    requires Resumes(plan, source, calls, todo, code, inputFile, options, env)
    requires todo != [] && Invoke(CallFor(todo[0], code, inputFile, options, env), env) == Some(next)
    ensures Resumes(plan, source, calls + [CallFor(todo[0], code, inputFile, options, env)], todo[1..], next,
                    inputFile, options, env)
  {
  }

  /** A stage that fails ends the reference run with its request last. */
  lemma StopAfterFailure(plan: seq<Stage>, source: string, calls: seq<Call>, todo: seq<Stage>, code: string,
                         inputFile: string, options: CliArgs.Options, env: Env)
    requires Resumes(plan, source, calls, todo, code, inputFile, options, env)
    requires todo != [] && Invoke(CallFor(todo[0], code, inputFile, options, env), env).None?
    ensures ApplyStages(plan, source, inputFile, options, env) ==
      Trace(calls + [CallFor(todo[0], code, inputFile, options, env)], Failure(StageFailed(todo[0])))
  {
  }

  /** With nothing left to do, the reference run has succeeded with the buffer. */
  lemma FinishedPlan(plan: seq<Stage>, source: string, calls: seq<Call>, code: string,
                     inputFile: string, options: CliArgs.Options, env: Env)
    requires Resumes(plan, source, calls, [], code, inputFile, options, env)
    ensures ApplyStages(plan, source, inputFile, options, env) == Trace(calls, Success(code))
  {
  }

  /** `runLayeredOptimization`: the buffer is reassigned stage by stage. */
  method RunLayeredOptimization(inputFile: string, outputFile: string, options: CliArgs.Options, env: Env)
    returns (report: Report)
    ensures report == Run(inputFile, outputFile, options, env)
  {
    if inputFile !in env.files {
      return Report([], Aborted(ReadFailed));
    }
    var code := env.files[inputFile];
    var calls: seq<Call> := [];
    ghost var source, plan := code, Plan(options);
    ghost var todo := plan;
    assert Resumes(plan, source, calls, todo, code, inputFile, options, env);

    if options.babel {
      var call := BabelCall(code, [BabelPreset]);
      assert todo[0] == Transpile && call == CallFor(todo[0], code, inputFile, options, env);
      var babelOutput := env.babel(code, [BabelPreset]);
      if babelOutput.None? {
        StopAfterFailure(plan, source, calls, todo, code, inputFile, options, env);
        return Report(calls + [call], Aborted(StageFailed(Transpile)));
      }
      ResumeAfterSuccess(plan, source, calls, todo, code, inputFile, options, env, babelOutput.value);
      calls := calls + [call];
      code := babelOutput.value;
      todo := todo[1..];
    }
    assert todo == (if options.terser then [Minify] else []) + (if options.esbuild then [Bundle] else []);

    if options.terser {
      var call := TerserCall(code);
      assert todo[0] == Minify && call == CallFor(todo[0], code, inputFile, options, env);
      var terserOutput := env.terser(code);
      if terserOutput.None? {
        StopAfterFailure(plan, source, calls, todo, code, inputFile, options, env);
        return Report(calls + [call], Aborted(StageFailed(Minify)));
      }
      ResumeAfterSuccess(plan, source, calls, todo, code, inputFile, options, env, terserOutput.value);
      calls := calls + [call];
      code := terserOutput.value;
      todo := todo[1..];
    }
    assert todo == (if options.esbuild then [Bundle] else []);

    if options.esbuild {
      var build := BuildOptions(code, env.dirname(inputFile), true, options.terser, false);
      var call := EsbuildCall(build);
      assert todo[0] == Bundle && call == CallFor(todo[0], code, inputFile, options, env);
      var esbuildResult := env.esbuild(build);
      if esbuildResult.None? || |esbuildResult.value| == 0 {
        StopAfterFailure(plan, source, calls, todo, code, inputFile, options, env);
        return Report(calls + [call], Aborted(StageFailed(Bundle)));
      }
      ResumeAfterSuccess(plan, source, calls, todo, code, inputFile, options, env, esbuildResult.value[0]);
      calls := calls + [call];
      code := esbuildResult.value[0];
      todo := todo[1..];
    }
    FinishedPlan(plan, source, calls, code, inputFile, options, env);

    if !env.writable(outputFile) {
      return Report(calls, Aborted(WriteFailed));
    }
    report := Report(calls, Written(outputFile, code));
  }

  /**
    What a run of the stages of `plan` does: it requests the planned stages in
    order, each request built by `CallFor` for its stage, each on the code the
    previous one produced; it stops right after the first request that fails,
    and it succeeds exactly when every planned request succeeded, with the code
    the last one produced.
  */
  lemma {:induction false} ApplyStagesFacts(plan: seq<Stage>, code: string, inputFile: string,
                                             options: CliArgs.Options, env: Env)
    ensures var t := ApplyStages(plan, code, inputFile, options, env);
      && |t.calls| <= |plan|
      && (forall i :: 0 <= i < |t.calls| ==> StageOf(t.calls[i]) == plan[i])
      && (forall i :: 0 <= i < |t.calls| ==>
            t.calls[i] == CallFor(plan[i], InputOf(t.calls[i]), inputFile, options, env))
      && (|t.calls| > 0 ==> InputOf(t.calls[0]) == code)
      && (forall i :: 0 < i < |t.calls| ==> Invoke(t.calls[i - 1], env) == Some(InputOf(t.calls[i])))
      && (t.result.Success? <==>
            |t.calls| == |plan| && forall i :: 0 <= i < |t.calls| ==> Invoke(t.calls[i], env).Some?)
      && (t.result.Success? ==>
            t.result.value == if t.calls == [] then code else Invoke(t.calls[|t.calls| - 1], env).value)
      && (t.result.Failure? ==>
            |t.calls| > 0
            && Invoke(t.calls[|t.calls| - 1], env).None?
            && t.result.error == StageFailed(StageOf(t.calls[|t.calls| - 1])))
  {
    RequestsFollowPlan(plan, code, inputFile, options, env);
    RequestsAreChained(plan, code, inputFile, options, env);
    StagesSucceedIffEveryRequestDoes(plan, code, inputFile, options, env);
  }

  /** The requests are the planned stages' requests, in plan order. */
  lemma {:induction false} RequestsFollowPlan(plan: seq<Stage>, code: string, inputFile: string,
                                               options: CliArgs.Options, env: Env)
    ensures var t := ApplyStages(plan, code, inputFile, options, env);
      && |t.calls| <= |plan|
      && (forall i :: 0 <= i < |t.calls| ==> StageOf(t.calls[i]) == plan[i])
      && (forall i :: 0 <= i < |t.calls| ==>
            t.calls[i] == CallFor(plan[i], InputOf(t.calls[i]), inputFile, options, env))
  {
    if plan != [] {
      var call := CallFor(plan[0], code, inputFile, options, env);
      match Invoke(call, env)
      case None =>
      case Some(next) =>
        RequestsFollowPlan(plan[1..], next, inputFile, options, env);
        var rest := ApplyStages(plan[1..], next, inputFile, options, env);
        var calls := [call] + rest.calls;
        assert forall i :: 0 < i < |calls| ==> calls[i] == rest.calls[i - 1] && plan[i] == plan[1..][i - 1];
    }
  }

  /** The first request gets the initial code, each later one the output of the one before. */
  lemma {:induction false} RequestsAreChained(plan: seq<Stage>, code: string, inputFile: string,
                                               options: CliArgs.Options, env: Env)
    ensures var t := ApplyStages(plan, code, inputFile, options, env);
      && (|t.calls| > 0 ==> InputOf(t.calls[0]) == code)
      && (forall i :: 0 < i < |t.calls| ==> Invoke(t.calls[i - 1], env) == Some(InputOf(t.calls[i])))
  {
    if plan != [] {
      var call := CallFor(plan[0], code, inputFile, options, env);
      match Invoke(call, env)
      case None =>
      case Some(next) =>
        RequestsAreChained(plan[1..], next, inputFile, options, env);
        var rest := ApplyStages(plan[1..], next, inputFile, options, env);
        var calls := [call] + rest.calls;
        assert forall i :: 0 < i < |calls| ==> calls[i] == rest.calls[i - 1];
    }
  }

  /**
    The stages succeed exactly when every planned request succeeded, with the
    last output; otherwise the last request made is the one that failed.
  */
  lemma {:induction false} StagesSucceedIffEveryRequestDoes(plan: seq<Stage>, code: string, inputFile: string,
                                                             options: CliArgs.Options, env: Env)
    ensures var t := ApplyStages(plan, code, inputFile, options, env);
      && (t.result.Success? <==>
            |t.calls| == |plan| && forall i :: 0 <= i < |t.calls| ==> Invoke(t.calls[i], env).Some?)
      && (t.result.Success? ==>
            t.result.value == if t.calls == [] then code else Invoke(t.calls[|t.calls| - 1], env).value)
      && (t.result.Failure? ==>
            |t.calls| > 0
            && Invoke(t.calls[|t.calls| - 1], env).None?
            && t.result.error == StageFailed(StageOf(t.calls[|t.calls| - 1])))
  {
    if plan != [] {
      var call := CallFor(plan[0], code, inputFile, options, env);
      match Invoke(call, env)
      case None =>
        var t := ApplyStages(plan, code, inputFile, options, env);
        assert t.calls == [call] && Invoke(t.calls[0], env).None?;
      case Some(next) =>
        StagesSucceedIffEveryRequestDoes(plan[1..], next, inputFile, options, env);
        var rest := ApplyStages(plan[1..], next, inputFile, options, env);
        var calls := [call] + rest.calls;
        assert forall i :: 0 < i < |calls| ==> calls[i] == rest.calls[i - 1];
        if rest.calls != [] {
          assert calls[|calls| - 1] == rest.calls[|rest.calls| - 1];
        }
    }
  }

  /** With every stage disabled the text written is the text read, untouched by any tool. */
  lemma IdentityWhenAllStagesOff(inputFile: string, outputFile: string, options: CliArgs.Options, env: Env)
    requires !options.babel && !options.terser && !options.esbuild
    requires inputFile in env.files && env.writable(outputFile)
    ensures Run(inputFile, outputFile, options, env) == Report([], Written(outputFile, env.files[inputFile]))
  {
  }

  /**
    The tools are asked in the fixed order transpile, minify, bundle, each at
    most once and only when its flag is set.
  */
  lemma StagesInOrder(inputFile: string, outputFile: string, options: CliArgs.Options, env: Env)
    ensures var calls := Run(inputFile, outputFile, options, env).calls;
      && (forall i :: 0 <= i < |calls| ==> Enabled(options, StageOf(calls[i])))
      && (forall i, j :: 0 <= i < j < |calls| ==> Rank(StageOf(calls[i])) < Rank(StageOf(calls[j])))
  {
    if inputFile in env.files {
      ApplyStagesFacts(Plan(options), env.files[inputFile], inputFile, options, env);
    }
  }

  /**
    Babel always gets the preset-env preset; esbuild gets the current code as
    its entry, resolved from the input file's directory, with bundling on,
    writing off and its own minification on exactly when Terser is enabled.
  */
  lemma ToolArguments(inputFile: string, outputFile: string, options: CliArgs.Options, env: Env)
    ensures var calls := Run(inputFile, outputFile, options, env).calls;
      && (forall i :: 0 <= i < |calls| && calls[i].BabelCall? ==> calls[i].presets == [BabelPreset])
      && (forall i :: 0 <= i < |calls| && calls[i].EsbuildCall? ==>
            calls[i].build.minify == options.terser
            && calls[i].build.bundle && !calls[i].build.write
            && calls[i].build.resolveDir == env.dirname(inputFile))
  {
    if inputFile in env.files {
      var plan := Plan(options);
      ApplyStagesFacts(plan, env.files[inputFile], inputFile, options, env);
    }
  }

  /**
    Each tool works on the text read or on what the tool before it produced,
    and a written file holds what the last tool produced (the text read when no
    stage ran).
  */
  lemma BufferIsChained(inputFile: string, outputFile: string, options: CliArgs.Options, env: Env)
    ensures var r := Run(inputFile, outputFile, options, env);
      && (|r.calls| > 0 ==> inputFile in env.files && InputOf(r.calls[0]) == env.files[inputFile])
      && (forall i :: 0 < i < |r.calls| ==> Invoke(r.calls[i - 1], env) == Some(InputOf(r.calls[i])))
      && (r.outcome.Written? ==>
            inputFile in env.files
            && (r.calls == [] ==> r.outcome.text == env.files[inputFile])
            && (r.calls != [] ==> Invoke(r.calls[|r.calls| - 1], env) == Some(r.outcome.text)))
  {
    if inputFile in env.files {
      ApplyStagesFacts(Plan(options), env.files[inputFile], inputFile, options, env);
    }
  }

  /**
    The output file is written, at the output path, exactly when the input
    was read, every enabled stage was requested and succeeded, and the path is
    writable; otherwise the run aborts and writes nothing.
  */
  lemma WrittenIffEverythingSucceeds(inputFile: string, outputFile: string, options: CliArgs.Options, env: Env)
    ensures var r := Run(inputFile, outputFile, options, env);
      && (r.outcome.Written? <==>
            inputFile in env.files
            && |r.calls| == |Plan(options)|
            && (forall i :: 0 <= i < |r.calls| ==> Invoke(r.calls[i], env).Some?)
            && env.writable(outputFile))
      && (r.outcome.Written? ==> r.outcome.path == outputFile)
  {
    if inputFile in env.files {
      ApplyStagesFacts(Plan(options), env.files[inputFile], inputFile, options, env);
    }
  }

  /**
    A failing stage ends the run: it is the last tool asked, and it is the
    failure the run reports. A read failure asks no tool at all.
  */
  lemma FailureStopsTheRun(inputFile: string, outputFile: string, options: CliArgs.Options, env: Env)
    ensures var r := Run(inputFile, outputFile, options, env);
      && (r.outcome == Aborted(ReadFailed) <==> inputFile !in env.files)
      && (r.outcome == Aborted(ReadFailed) ==> r.calls == [])
      && (r.outcome.Aborted? && r.outcome.failure.StageFailed? ==>
            |r.calls| > 0
            && StageOf(r.calls[|r.calls| - 1]) == r.outcome.failure.stage
            && Invoke(r.calls[|r.calls| - 1], env).None?)
  {
    if inputFile in env.files {
      ApplyStagesFacts(Plan(options), env.files[inputFile], inputFile, options, env);
    }
  }
}
