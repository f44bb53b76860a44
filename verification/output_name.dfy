/**
  The output file name chosen in `main` of optimize.js: the explicit `--output`
  value when it is truthy, otherwise the input's base name without a trailing
  ".js", followed by ".bundle.min.js".
*/
module OutputName {
  import opened CliArgs

  const JsExtension: string := ".js"
  const BundleSuffix: string := ".bundle.min.js"

  predicate EndsWith(s: string, suffix: string) {
    |suffix| <= |s| && s[|s| - |suffix|..] == suffix
  }

  /** The last '/'-separated segment of a path: its longest suffix free of '/'. */
  function Basename(path: string): (r: string)
    ensures '/' !in r
    ensures |r| <= |path| && r == path[|path| - |r|..]
    ensures |r| < |path| ==> path[|path| - |r| - 1] == '/'
  {
    if path == [] || path[|path| - 1] == '/' then []
    else Basename(path[..|path| - 1]) + [path[|path| - 1]]
  }

  /**
    A base name with one trailing ".js" removed, when the name is longer than
    ".js"; otherwise the name unchanged.
  */
  function StripJsExtension(name: string): (r: string)
    ensures r <= name
    ensures EndsWith(name, JsExtension) && |name| > |JsExtension| ==> r + JsExtension == name
    ensures !(EndsWith(name, JsExtension) && |name| > |JsExtension|) ==> r == name
  {
    if EndsWith(name, JsExtension) && |name| > |JsExtension| then name[..|name| - |JsExtension|]
    else name
  }

  /**
    The name used when no truthy `--output` was given. It never contains '/',
    so the bundle lands in the working directory whatever directory the input
    came from.
  */
  function DefaultOutputName(inputFile: string): (r: string)
    ensures '/' !in r
    ensures EndsWith(r, BundleSuffix)
  {
    var stem := StripJsExtension(Basename(inputFile));
    NoSlashInPrefix(stem, Basename(inputFile));
    WithBundleSuffix(stem);
    stem + BundleSuffix
  }

  /** Appending the bundle suffix to a slash-free stem keeps it slash-free. */
  lemma WithBundleSuffix(stem: string)
    requires '/' !in stem
    ensures '/' !in stem + BundleSuffix
    ensures EndsWith(stem + BundleSuffix, BundleSuffix)
  {
    forall i | 0 <= i < |BundleSuffix| ensures BundleSuffix[i] != '/' {
    }
    var r := stem + BundleSuffix;
    assert r[|r| - |BundleSuffix|..] == BundleSuffix;
  }

  /** A prefix of a slash-free string is slash-free. */
  lemma NoSlashInPrefix(p: string, s: string)
    requires p <= s && '/' !in s
    ensures '/' !in p
  {
  }

  /** The output file `main` passes on: `options.output || <default name>`. */
  function OutputFile(options: Options): (r: string)
    ensures Truthy(options.output) ==> r == options.output.s
    ensures !Truthy(options.output) ==> '/' !in r && EndsWith(r, BundleSuffix)
  {
    if Truthy(options.output) then options.output.s else DefaultOutputName(options.inputFile)
  }

  /** The base name of `dir + name` is `name` when `dir` ends a directory. */
  lemma {:induction false} BasenameOfLastSegment(dir: string, name: string)
    requires dir == [] || dir[|dir| - 1] == '/'
    requires '/' !in name
    ensures Basename(dir + name) == name
  {
    if name == [] {
      assert dir + name == dir;
    } else {
      var init := name[..|name| - 1];
      assert (dir + name)[..|dir + name| - 1] == dir + init;
      BasenameOfLastSegment(dir, init);
      assert init + [name[|name| - 1]] == name;
    }
  }

  /**
    The default name for `dir/stem.js` is `stem.bundle.min.js`: the ".js" that
    was added is the one removed.
  */
  lemma DefaultNameOfJsFile(dir: string, stem: string)
    requires dir == [] || dir[|dir| - 1] == '/'
    requires '/' !in stem && stem != []
    ensures DefaultOutputName(dir + stem + JsExtension) == stem + BundleSuffix
  {
    var name := stem + JsExtension;
    assert '/' !in JsExtension;
    assert dir + stem + JsExtension == dir + name;
    BasenameOfLastSegment(dir, name);
    StripAddedJsExtension(stem);
  }

  /** A name with ".js" appended ends in ".js". */
  lemma EndsWithAddedJsExtension(s: string)
    ensures EndsWith(s + JsExtension, JsExtension)
  {
    var name := s + JsExtension;
    assert name[|name| - |JsExtension|..] == JsExtension;
  }

  /** Removing the extension undoes adding it, for a non-empty stem. */
  lemma StripAddedJsExtension(stem: string)
    requires stem != []
    ensures StripJsExtension(stem + JsExtension) == stem
  {
    var name := stem + JsExtension;
    assert name[|name| - |JsExtension|..] == JsExtension;
    assert name[..|name| - |JsExtension|] == stem;
  }

  /** A base name that does not end in ".js" is kept whole. */
  lemma DefaultNameOfOtherFile(dir: string, name: string)
    requires dir == [] || dir[|dir| - 1] == '/'
    requires '/' !in name && !EndsWith(name, JsExtension)
    ensures DefaultOutputName(dir + name) == name + BundleSuffix
  {
    BasenameOfLastSegment(dir, name);
  }

  /** A truthy `--output` value is used exactly as given. */
  lemma ExplicitOutputWins(options: Options)
    requires Truthy(options.output)
    ensures OutputFile(options) == options.output.s
  {
  }

  /**
    An empty, undefined or missing `--output` falls back to the default name,
    which always ends in ".bundle.min.js" and differs from any empty value.
  */
  lemma FalsyOutputFallsBack(options: Options)
    requires !Truthy(options.output)
    ensures OutputFile(options) == DefaultOutputName(options.inputFile)
    ensures EndsWith(OutputFile(options), BundleSuffix)
  {
  }
}
