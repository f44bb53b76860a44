/**
  The command-line scanner of optimize.js (`parseCLIArgs`).

  The scanner walks the argument list once. Every token goes through the same
  switch, including a token that was already read as the value of the flag before
  it. A recognised flag reads the token after it (JavaScript `undefined` past the
  end); any other token becomes the input file while the input file is still
  falsy (null or the empty string).
*/
module CliArgs {
  import opened Wrappers

  /** A JavaScript value that is a string or one of the two empty values. */
  datatype JsString = Null | Undefined | Str(s: string)

  /** JavaScript truthiness of such a value: only a non-empty string is truthy. */
  predicate Truthy(v: JsString) {
    v.Str? && v.s != ""
  }

  const BabelFlag: string := "--babel"
  const TerserFlag: string := "--terser"
  const EsbuildFlag: string := "--esbuild"
  const OutputFlag: string := "--output"

  /** The four tokens the switch recognises. */
  predicate IsFlag(t: string) {
    t == BabelFlag || t == TerserFlag || t == EsbuildFlag || t == OutputFlag
  }

  /** A token the scan keeps as the input file: not a flag name, and truthy. */
  predicate IsInputCandidate(t: string) {
    !IsFlag(t) && t != ""
  }

  /** The parsed invocation options (the `options` record once it is returned). */
  datatype Options = Options(
    inputFile: string,
    output: JsString,
    babel: bool,
    terser: bool,
    esbuild: bool)

  /** The one way parsing fails: no input file was named (exit code 1). */
  datatype UsageError = MissingInputFile

  /** `args[i]` as JavaScript reads it: `undefined` past the end of the array. */
  function Lookup(args: seq<string>, i: nat): JsString {
    if i < |args| then Str(args[i]) else Undefined
  }

  /** The position of the last occurrence of `flag` among the first `n` tokens. */
  function LastIndexBefore(args: seq<string>, flag: string, n: nat): (r: Option<nat>)
    requires n <= |args|
    ensures r.Some? ==> r.value < n && args[r.value] == flag
    ensures r.Some? ==> forall j :: r.value < j < n ==> args[j] != flag
    ensures r.None? ==> forall j :: 0 <= j < n ==> args[j] != flag
  {
    if n == 0 then None
    else if args[n - 1] == flag then Some(n - 1)
    else LastIndexBefore(args, flag, n - 1)
  }

  /**
    The value of a boolean stage flag once the first `n` tokens are scanned:
    true when the flag has not occurred yet, otherwise whether the token after
    its last occurrence is exactly "true".
  */
  function FlagAfter(args: seq<string>, flag: string, n: nat): bool
    requires n <= |args|
  {
    match LastIndexBefore(args, flag, n)
    case None => true
    case Some(i) => Lookup(args, i + 1) == Str("true")
  }

  /**
    The `output` field once the first `n` tokens are scanned: null when
    `--output` has not occurred yet, otherwise the token after its last
    occurrence (undefined when there is none).
  */
  function OutputAfter(args: seq<string>, n: nat): JsString
    requires n <= |args|
  {
    match LastIndexBefore(args, OutputFlag, n)
    case None => Null
    case Some(i) => Lookup(args, i + 1)
  }

  /** The position of the first input candidate at or after position `k`. */
  function FirstInputFrom(args: seq<string>, k: nat): (r: Option<nat>)
    requires k <= |args|
    decreases |args| - k
    ensures r.Some? ==> k <= r.value < |args| && IsInputCandidate(args[r.value])
    ensures r.Some? ==> forall j :: k <= j < r.value ==> !IsInputCandidate(args[j])
    ensures r.None? ==> forall j :: k <= j < |args| ==> !IsInputCandidate(args[j])
  {
    if k == |args| then None
    else if IsInputCandidate(args[k]) then Some(k)
    else FirstInputFrom(args, k + 1)
  }

  /**
    What parsing yields, stated by occurrence rather than by the scan: the first
    input candidate is the input file, each flag takes the value after its last
    occurrence, and parsing fails when there is no input candidate.
  */
  function ParsedOptions(args: seq<string>): Result<Options, UsageError> {
    match FirstInputFrom(args, 0)
    case None => Failure(MissingInputFile)
    case Some(i) =>
      Success(Options(
        args[i],
        OutputAfter(args, |args|),
        FlagAfter(args, BabelFlag, |args|),
        FlagAfter(args, TerserFlag, |args|),
        FlagAfter(args, EsbuildFlag, |args|)))
  }

  /** One more token changes a stage flag only when that token is the flag. */
  lemma FlagStep(args: seq<string>, flag: string, n: nat)
    requires n < |args|
    ensures FlagAfter(args, flag, n + 1) ==
      if args[n] == flag then Lookup(args, n + 1) == Str("true") else FlagAfter(args, flag, n)
  {
  }

  /** One more token changes `output` only when that token is `--output`. */
  lemma OutputStep(args: seq<string>, n: nat)
    requires n < |args|
    ensures OutputAfter(args, n + 1) ==
      if args[n] == OutputFlag then Lookup(args, n + 1) else OutputAfter(args, n)
  {
  }

  /** The scan itself, one token at a time, as `parseCLIArgs` performs it. */
  method ParseCLIArgs(args: seq<string>) returns (r: Result<Options, UsageError>)
    ensures r == ParsedOptions(args)
  {
    var inputFile: JsString := Null;
    var output: JsString := Null;
    var babel, terser, esbuild := true, true, true;
    ghost var first := FirstInputFrom(args, 0);
    var index := 0;
    while index < |args|
      invariant index <= |args|
      invariant babel == FlagAfter(args, BabelFlag, index)
      invariant terser == FlagAfter(args, TerserFlag, index)
      invariant esbuild == FlagAfter(args, EsbuildFlag, index)
      invariant output == OutputAfter(args, index)
      invariant Truthy(inputFile) <==> first.Some? && first.value < index
      invariant Truthy(inputFile) ==> inputFile == Str(args[first.value])
    {
      var arg := args[index];
      FlagStep(args, BabelFlag, index);
      FlagStep(args, TerserFlag, index);
      FlagStep(args, EsbuildFlag, index);
      OutputStep(args, index);
      if arg == BabelFlag {
        babel := Lookup(args, index + 1) == Str("true");
      } else if arg == TerserFlag {
        terser := Lookup(args, index + 1) == Str("true");
      } else if arg == EsbuildFlag {
        esbuild := Lookup(args, index + 1) == Str("true");
      } else if arg == OutputFlag {
        output := Lookup(args, index + 1);
      } else if !Truthy(inputFile) {
        inputFile := Str(arg);
      }
      index := index + 1;
    }
    if !Truthy(inputFile) {
      return Failure(MissingInputFile);
    }
    r := Success(Options(inputFile.s, output, babel, terser, esbuild));
  }

  /** With no flag token at all, every stage is enabled and `output` stays null. */
  lemma DefaultsWithoutFlags(args: seq<string>)
    requires forall i :: 0 <= i < |args| ==> !IsFlag(args[i])
    ensures ParsedOptions(args).Failure? <==> forall i :: 0 <= i < |args| ==> args[i] == ""
    ensures ParsedOptions(args).Success? ==>
      var o := ParsedOptions(args).value;
      o.babel && o.terser && o.esbuild && o.output == Null
  {
  }

  /** Parsing fails exactly when every token is a flag name or the empty string. */
  lemma FailsIffNoInputCandidate(args: seq<string>)
    ensures ParsedOptions(args).Failure? <==>
      forall i :: 0 <= i < |args| ==> IsFlag(args[i]) || args[i] == ""
  {
  }

  /** The input file is the first token that is neither a flag name nor empty. */
  lemma InputIsFirstCandidate(args: seq<string>, i: nat)
    requires i < |args| && IsInputCandidate(args[i])
    requires forall j :: 0 <= j < i ==> !IsInputCandidate(args[j])
    ensures ParsedOptions(args).Success?
    ensures ParsedOptions(args).value.inputFile == args[i]
  {
  }

  /**
    A boolean flag repeated at the end wins, and its value is true exactly when
    the token after it is "true", whatever came before.
  */
  lemma {:induction false} LaterBoolFlagWins(args: seq<string>, flag: string, v: string)
    requires flag == BabelFlag || flag == TerserFlag || flag == EsbuildFlag
    ensures FlagAfter(args + [flag, v], flag, |args| + 2) == (v == "true")
  {
    var a := args + [flag, v];
    assert a[|args|] == flag && a[|args| + 1] == v;
    if v == flag {
      assert LastIndexBefore(a, flag, |a|) == Some(|args| + 1);
    } else {
      assert LastIndexBefore(a, flag, |a|) == Some(|args|);
    }
  }

  /**
    A later `--output` wins and takes the token after it; when that token is
    `--output` itself, the last occurrence is the final token and reads undefined.
  */
  lemma {:induction false} LaterOutputWins(args: seq<string>, v: string)
    ensures OutputAfter(args + [OutputFlag, v], |args| + 2) ==
      if v == OutputFlag then Undefined else Str(v)
  {
    var a := args + [OutputFlag, v];
    assert a[|args|] == OutputFlag && a[|args| + 1] == v;
    if v == OutputFlag {
      assert LastIndexBefore(a, OutputFlag, |a|) == Some(|args| + 1);
    } else {
      assert LastIndexBefore(a, OutputFlag, |a|) == Some(|args|);
    }
  }

  /** A flag in the final position reads undefined: false for a stage flag. */
  lemma FlagInFinalPosition(args: seq<string>, flag: string)
    requires |args| > 0 && args[|args| - 1] == flag
    ensures flag != OutputFlag ==> !FlagAfter(args, flag, |args|)
    ensures flag == OutputFlag ==> OutputAfter(args, |args|) == Undefined
  {
  }

  /**
    The token after a flag is scanned again as an ordinary token, so it becomes
    the input file when it comes first.
  */
  lemma FlagValueAlsoTakenAsInput(flag: string, v: string, rest: seq<string>)
    requires IsFlag(flag) && IsInputCandidate(v)
    ensures ParsedOptions([flag, v] + rest).Success?
    ensures ParsedOptions([flag, v] + rest).value.inputFile == v
  {
    InputIsFirstCandidate([flag, v] + rest, 1);
  }

  /** `--output o.js in.js` reads and names `o.js` for both input and output. */
  lemma OutputValueBecomesInput()
    ensures ParsedOptions(["--output", "o.js", "in.js"]) ==
      Success(Options("o.js", Str("o.js"), true, true, true))
  {
  }

  /**
    An empty token is stored as the input file but does not stop a later token
    from replacing it; on its own it makes parsing fail.
  */
  lemma EmptyTokenIsOverwritten()
    ensures ParsedOptions(["", "a.js"]) == Success(Options("a.js", Null, true, true, true))
    ensures ParsedOptions([""]) == Failure(MissingInputFile)
  {
  }
}
