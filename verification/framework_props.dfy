/** Properties of the framework and UI-library resolvers: memoisation,
    precedence, fall-through, case-insensitivity, the cache invariant, and
    the lookup tables. */
module FrameworkProps {
  import opened Wrappers
  import opened Text
  import opened CommandLine
  import opened FrameworkSelection

  // ---------------------------------------------------------------------------
  // Names and parsing

  /** Parsing inverts naming, so every framework is reachable by its name. */
  lemma FrameworkNameRoundTrip(f: Framework)
    ensures ParseFramework(Name(f)) == Some(f)
    ensures Name(f) in FrameworkNames
    ensures IsLowerCase(Name(f)) && Lower(Name(f)) == Name(f)
  {
    LowerOfLowerCase(Name(f));
  }

  lemma UiLibraryNameRoundTrip(l: UiLibrary)
    ensures ParseUiLibrary(LibraryName(l)) == Some(l)
    ensures LibraryName(l) in UiLibraryNames
    ensures IsLowerCase(LibraryName(l)) && Lower(LibraryName(l)) == LibraryName(l)
  {
    LowerOfLowerCase(LibraryName(l));
  }

  /** Every recognised spelling names exactly one framework. */
  lemma FrameworkNamesExact(s: string)
    ensures s in FrameworkNames <==> exists f :: Name(f) == s
  {
    if s in FrameworkNames {
      assert Name(ParseFramework(s).value) == s;
    }
  }

  // ---------------------------------------------------------------------------
  // getFramework

  /** A second call returns the first call's value from the cache, whatever
      the arguments and the environment are by then. */
  lemma GetFrameworkMemoised(c: Cache, args: seq<string>, env: map<string, string>,
                             args': seq<string>, env': map<string, string>)
    ensures var r := GetFramework(c, args, env);
      GetFramework(r.cache, args', env') == Resolved(r.cache, r.value, FromCache, [])
  {
  }

  /** Flag precedence: the first `--framework`/`-f` followed by a spelling of
      `f` selects `f`, with no warning, whatever FRAMEWORK says and whatever
      comes later on the command line. */
  lemma FlagWins(c: Cache, pre: seq<string>, flag: string, v: string, rest: seq<string>,
                 env: map<string, string>, f: Framework)
    requires c.fw.None?
    requires flag in FrameworkFlags
    requires forall j :: 0 <= j < |pre| ==> pre[j] !in FrameworkFlags
    requires Lower(v) == Name(f)
    ensures GetFramework(c, pre + [flag, v] + rest, env) == Resolved(c.(fw := Some(f)), f, FromFlag, [])
  {
    FlagValueAfterPrefix(pre, flag, v, rest, FrameworkFlags);
    LowerEmpty(v);
    FrameworkNameRoundTrip(f);
  }

  /** The outcome when no usable flag value decides: FRAMEWORK if it names
      a framework, otherwise react. */
  function Fallback(env: map<string, string>): Framework {
    if FrameworkEnvVar in env && Lower(env[FrameworkEnvVar]) in FrameworkNames
    then ParseFramework(Lower(env[FrameworkEnvVar])).value
    else DefaultFramework
  }

  /** Fall-through: an unrecognised non-empty flag value logs one warning
      naming it and resolution continues with FRAMEWORK, then react. */
  lemma RejectedFlagFallsThrough(c: Cache, pre: seq<string>, flag: string, v: string, rest: seq<string>,
                                 env: map<string, string>)
    requires c.fw.None?
    requires flag in FrameworkFlags
    requires forall j :: 0 <= j < |pre| ==> pre[j] !in FrameworkFlags
    requires v != "" && Lower(v) !in FrameworkNames
    ensures var r := GetFramework(c, pre + [flag, v] + rest, env);
      && r.value == Fallback(env)
      && r.warnings == [InvalidFramework(Lower(v))]
  {
    FlagValueAfterPrefix(pre, flag, v, rest, FrameworkFlags);
  }

  /** A flag that is last, or followed by an empty string, is skipped without
      a warning: the outcome is as if there were no arguments at all. */
  lemma UnusableFlagIgnored(c: Cache, args: seq<string>, env: map<string, string>)
    requires !Present(FrameworkArg(args))
    ensures GetFramework(c, args, env) == GetFramework(c, [], env)
    ensures GetFramework(c, args, env).warnings == []
  {
  }

  /** With no usable flag and no usable FRAMEWORK the result is react. */
  lemma DefaultIsReact(c: Cache, args: seq<string>, env: map<string, string>)
    requires c.fw.None?
    requires !Present(FrameworkArg(args)) || Lower(FrameworkArg(args).value) !in FrameworkNames
    requires FrameworkEnvVar !in env || Lower(env[FrameworkEnvVar]) !in FrameworkNames
    ensures GetFramework(c, args, env).value == React
    ensures GetFramework(c, args, env).source == FromDefault
  {
  }

  /** Case-insensitivity of the flag value: two values that lower-case alike
      resolve identically, warnings included. */
  lemma FlagCaseInsensitive(c: Cache, pre: seq<string>, flag: string, v1: string, v2: string,
                            rest: seq<string>, env: map<string, string>)
    requires flag in FrameworkFlags
    requires forall j :: 0 <= j < |pre| ==> pre[j] !in FrameworkFlags
    requires Lower(v1) == Lower(v2)
    ensures GetFramework(c, pre + [flag, v1] + rest, env) == GetFramework(c, pre + [flag, v2] + rest, env)
  {
    FlagValueAfterPrefix(pre, flag, v1, rest, FrameworkFlags);
    FlagValueAfterPrefix(pre, flag, v2, rest, FrameworkFlags);
    LowerEmpty(v1);
    LowerEmpty(v2);
  }

  /** Case-insensitivity of FRAMEWORK. */
  lemma EnvCaseInsensitive(c: Cache, args: seq<string>, env: map<string, string>, v1: string, v2: string)
    requires Lower(v1) == Lower(v2)
    ensures GetFramework(c, args, env[FrameworkEnvVar := v1]) == GetFramework(c, args, env[FrameworkEnvVar := v2])
  {
  }

  /** Only the two documented inputs matter: other variables are ignored. */
  lemma OtherVariablesIgnored(c: Cache, args: seq<string>, env: map<string, string>, k: string, v: string)
    requires k != FrameworkEnvVar
    ensures GetFramework(c, args, env[k := v]) == GetFramework(c, args, env)
  {
  }

  // ---------------------------------------------------------------------------
  // getUiLibrary

  /** A second call returns the first call's value from the cache. */
  lemma GetUiLibraryMemoised(c: Cache, args: seq<string>, env: map<string, string>,
                             args': seq<string>, env': map<string, string>)
    ensures var r := GetUiLibrary(c, args, env);
      GetUiLibrary(r.cache, args', env') == Resolved(r.cache, r.value, FromCache, [])
  {
  }

  /** Resolving the UI library also fixes the framework: the framework a
      later `getFramework` returns is the one the UI library was chosen for. */
  lemma UiLibraryFixesFramework(args: seq<string>, env: map<string, string>,
                                args': seq<string>, env': map<string, string>)
    ensures var r := GetUiLibrary(Fresh, args, env);
      GetFramework(r.cache, args', env').value == GetFramework(Fresh, args, env).value
  {
  }

  /** Case-insensitivity of UI_LIBRARY: two values that lower-case alike
      resolve identically, warnings included. */
  lemma UiLibraryEnvCaseInsensitive(c: Cache, args: seq<string>, env: map<string, string>, v1: string, v2: string)
    requires Lower(v1) == Lower(v2)
    ensures GetUiLibrary(c, args, env[UiLibraryEnvVar := v1]) == GetUiLibrary(c, args, env[UiLibraryEnvVar := v2])
  {
    OtherVariablesIgnored(c, args, env, UiLibraryEnvVar, v1);
    OtherVariablesIgnored(c, args, env, UiLibraryEnvVar, v2);
    assert UiLibraryEnv(env[UiLibraryEnvVar := v1]) == UiLibraryEnv(env[UiLibraryEnvVar := v2]);
  }

  /** A framework other than react always gets radix, whatever was asked for. */
  lemma NonReactForcesRadix(c: Cache, args: seq<string>, env: map<string, string>)
    requires c.lib.None?
    requires GetFramework(c, args, env).value != React
    ensures GetUiLibrary(c, args, env).value == Radix
  {
  }

  /** For any framework but react, a non-empty `--ui-library` value, valid
      or not, is ignored with one warning naming it. */
  lemma UiLibraryFlagIgnored(c: Cache, pre: seq<string>, v: string, rest: seq<string>,
                             env: map<string, string>)
    requires c.lib.None?
    requires forall j :: 0 <= j < |pre| ==> pre[j] !in UiLibraryFlags
    requires v != ""
    requires GetFramework(c, pre + ["--ui-library", v] + rest, env).value != React
    ensures var args := pre + ["--ui-library", v] + rest;
      var fr := GetFramework(c, args, env);
      && GetUiLibrary(c, args, env).value == Radix
      && GetUiLibrary(c, args, env).warnings == fr.warnings + [UiLibraryIgnored(Lower(v), fr.value)]
  {
    FlagValueAfterPrefix(pre, "--ui-library", v, rest, UiLibraryFlags);
    LowerEmpty(v);
  }

  /** For react, a recognised `--ui-library` value wins over UI_LIBRARY. */
  lemma UiLibraryFlagWins(c: Cache, pre: seq<string>, v: string, rest: seq<string>,
                          env: map<string, string>, l: UiLibrary)
    requires c.lib.None? && c.fw == Some(React)
    requires forall j :: 0 <= j < |pre| ==> pre[j] !in UiLibraryFlags
    requires Lower(v) == LibraryName(l)
    ensures GetUiLibrary(c, pre + ["--ui-library", v] + rest, env) == Resolved(c.(lib := Some(l)), l, FromFlag, [])
  {
    FlagValueAfterPrefix(pre, "--ui-library", v, rest, UiLibraryFlags);
    UiLibraryNameRoundTrip(l);
  }

  // ---------------------------------------------------------------------------
  // The cache invariant

  /** The caches reachable from `Fresh`: a UI library is only cached after
      the framework, and Base UI only for react. */
  predicate Coherent(c: Cache) {
    && (c.lib.Some? ==> c.fw.Some?)
    && (c.lib == Some(Base) ==> c.fw == Some(React))
  }

  lemma GetFrameworkKeepsCoherent(c: Cache, args: seq<string>, env: map<string, string>)
    requires Coherent(c)
    ensures Coherent(GetFramework(c, args, env).cache)
  {
  }

  lemma GetUiLibraryKeepsCoherent(c: Cache, args: seq<string>, env: map<string, string>)
    requires Coherent(c)
    ensures Coherent(GetUiLibrary(c, args, env).cache)
  {
  }

  /** One call into the resolver layer, with the arguments and environment
      the process has at that moment. */
  datatype Request =
    | AskFramework(args: seq<string>, env: map<string, string>)
    | AskUiLibrary(args: seq<string>, env: map<string, string>)
    | AskBackend(args: seq<string>, env: map<string, string>)
    | AskInfo(args: seq<string>, env: map<string, string>)

  function Step(c: Cache, q: Request): Cache {
    match q
    case AskFramework(a, e) => GetFramework(c, a, e).cache
    case AskUiLibrary(a, e) => GetUiLibrary(c, a, e).cache
    case AskBackend(a, e) => GetAxiosImplementation(c, a, e).cache
    case AskInfo(a, e) => GetFrameworkInfo(c, a, e).cache
  }

  /** The cache after a run of calls. */
  function Replay(c: Cache, qs: seq<Request>): Cache
    decreases |qs|
  {
    if |qs| == 0 then c else Replay(Step(c, qs[0]), qs[1..])
  }

  /** Every run of calls from a coherent cache ends in a coherent cache. */
  lemma {:induction false} ReplayKeepsCoherent(c: Cache, qs: seq<Request>)
    requires Coherent(c)
    ensures Coherent(Replay(c, qs))
    decreases |qs|
  {
    if |qs| > 0 {
      var q := qs[0];
      match q {
        case AskUiLibrary(a, e) => GetUiLibraryKeepsCoherent(c, a, e);
        case _ =>
      }
      ReplayKeepsCoherent(Step(c, q), qs[1..]);
    }
  }

  /** Once set, neither cache cell changes again, whatever the calls and
      whatever their arguments. */
  lemma {:induction false} ReplayFreezesCache(c: Cache, qs: seq<Request>)
    ensures c.fw.Some? ==> Replay(c, qs).fw == c.fw
    ensures c.lib.Some? ==> Replay(c, qs).lib == c.lib
    decreases |qs|
  {
    if |qs| > 0 {
      ReplayFreezesCache(Step(c, qs[0]), qs[1..]);
    }
  }

  /** From a coherent cache, the first call of any kind resolves the
      framework, and the value it caches is the one every later call sees. */
  lemma FirstCallSetsFramework(c: Cache, qs: seq<Request>)
    requires Coherent(c) && |qs| > 0
    ensures Step(c, qs[0]).fw.Some?
    ensures Replay(c, qs).fw == Step(c, qs[0]).fw
  {
    ReplayFreezesCache(Step(c, qs[0]), qs[1..]);
  }

  /** The process-lifetime promise: the first `getFramework` answer is the
      answer for the rest of the run, through any later calls with any
      arguments and environment. */
  lemma FirstAnswerIsFinal(args: seq<string>, env: map<string, string>, qs: seq<Request>,
                           args': seq<string>, env': map<string, string>)
    ensures var first := GetFramework(Fresh, args, env);
      GetFramework(Replay(first.cache, qs), args', env').value == first.value
  {
    var first := GetFramework(Fresh, args, env);
    ReplayFreezesCache(first.cache, qs);
  }

  // ---------------------------------------------------------------------------
  // getAxiosImplementation and getFrameworkInfo

  /** The client tag and the framework it serves determine each other. */
  lemma BackendRoundTrip(f: Framework, b: Backend)
    ensures ServedFramework(BackendFor(f)) == f
    ensures BackendFor(ServedFramework(b)) == b
  {
  }

  /** The client depends on the framework only, never on the UI library. */
  lemma BackendIgnoresUiLibrary(c: Cache, lib: Option<UiLibrary>, args: seq<string>, env: map<string, string>)
    ensures GetAxiosImplementation(c.(lib := lib), args, env).backend == GetAxiosImplementation(c, args, env).backend
  {
  }

  /** react and react-native share `.tsx`; svelte and vue use their own
      extensions. */
  lemma ExtensionTable(f: Framework)
    ensures InfoFor(f).current == f
    ensures InfoFor(f).fileExtension == ".tsx" <==> f == React || f == ReactNative
    ensures f == Svelte <==> InfoFor(f).fileExtension == ".svelte"
    ensures f == Vue <==> InfoFor(f).fileExtension == ".vue"
  {
    match f
    case React =>
    case Svelte =>
    case Vue =>
    case ReactNative =>
  }

  /** Each framework has its own repository. */
  lemma RepositoryTable(f: Framework, g: Framework)
    ensures RepositoryOwner(InfoFor(f).repository) == Some(f)
    ensures InfoFor(f).repository == InfoFor(g).repository ==> f == g
  {
    match f
    case React =>
    case Svelte =>
    case Vue =>
    case ReactNative =>
  }

  // ---------------------------------------------------------------------------
  // Worked cases

  /** `REACT`, `React` and `react` resolve alike. */
  lemma CaseVariantsExample()
    ensures GetFramework(Fresh, ["--framework", "REACT"], map[]).value == React
    ensures GetFramework(Fresh, ["--framework", "React"], map[]).value == React
    ensures GetFramework(Fresh, ["--framework", "react"], map[]).value == React
  {
    FlagWins(Fresh, [], "--framework", "REACT", [], map[], React);
    FlagWins(Fresh, [], "--framework", "React", [], map[], React);
    FlagWins(Fresh, [], "--framework", "react", [], map[], React);
  }

  lemma FlagOverEnvExample()
    ensures GetFramework(Fresh, ["-f", "Svelte"], map["FRAMEWORK" := "vue"]).value == Svelte
  {
    FlagWins(Fresh, [], "-f", "Svelte", [], map["FRAMEWORK" := "vue"], Svelte);
  }

  lemma NothingGivenExample()
    ensures GetFramework(Fresh, [], map[]) == Resolved(Cache(Some(React), None), React, FromDefault, [])
  {
  }

  /** `--framework cobol` warns and still resolves. */
  lemma UnknownFlagExample()
    ensures GetFramework(Fresh, ["--framework", "cobol"], map[]).value == React
    ensures GetFramework(Fresh, ["--framework", "cobol"], map[]).warnings == [InvalidFramework("cobol")]
    ensures GetFramework(Fresh, ["--framework", "cobol"], map["FRAMEWORK" := "VUE"]).value == Vue
  {
    assert Lower("cobol") == "cobol";
    RejectedFlagFallsThrough(Fresh, [], "--framework", "cobol", [], map[]);
    RejectedFlagFallsThrough(Fresh, [], "--framework", "cobol", [], map["FRAMEWORK" := "VUE"]);
    assert Lower("VUE") == "vue";
  }

  /** `--ui-library base` is ignored, with a warning, for vue. */
  lemma IgnoredUiLibraryExample()
    ensures GetUiLibrary(Fresh, ["-f", "vue", "--ui-library", "base"], map[]).value == Radix
    ensures GetUiLibrary(Fresh, ["-f", "vue", "--ui-library", "base"], map[]).warnings == [UiLibraryIgnored("base", Vue)]
  {
    var args := ["-f", "vue", "--ui-library", "base"];
    var pre := ["-f", "vue"];
    assert pre + ["--ui-library", "base"] + [] == args;
    assert [] + ["-f", "vue"] + ["--ui-library", "base"] == args;
    LowerOfLowerCase("vue");
    LowerOfLowerCase("base");
    FlagWins(Fresh, [], "-f", "vue", ["--ui-library", "base"], map[], Vue);
    UiLibraryFlagIgnored(Fresh, pre, "base", [], map[]);
  }

  lemma BaseUiExample()
    ensures GetUiLibrary(Fresh, ["--ui-library", "Base"], map[]).value == Base
  {
    FlagValueAfterPrefix([], "--ui-library", "Base", [], UiLibraryFlags);
    assert Lower("Base") == "base";
    assert FrameworkArg(["--ui-library", "Base"]) == None;
  }
}
