/** Framework and UI-library selection (src/utils/framework.ts).

    The process-wide caches `cachedFramework` and `cachedUiLibrary` become an
    explicit `Cache` value threaded through every resolver; `process.argv.slice(2)`
    and `process.env` become the inputs `args` and `env`; log lines become the
    `Source` of a resolved value and a list of `Warning`s. */
module FrameworkSelection {
  import opened Wrappers
  import opened Text
  import opened CommandLine

  datatype Framework = React | Svelte | Vue | ReactNative

  /** React-only choice of component primitives: Radix UI or Base UI. */
  datatype UiLibrary = Radix | Base

  const DefaultFramework: Framework := React
  const DefaultUiLibrary: UiLibrary := Radix

  const FrameworkFlags: set<string> := {"--framework", "-f"}
  const UiLibraryFlags: set<string> := {"--ui-library"}
  const FrameworkEnvVar: string := "FRAMEWORK"
  const UiLibraryEnvVar: string := "UI_LIBRARY"

  /** The canonical spellings the source compares against. */
  const FrameworkNames: set<string> := {"react", "svelte", "vue", "react-native"}
  const UiLibraryNames: set<string> := {"radix", "base"}

  function Name(f: Framework): string {
    match f
    case React => "react"
    case Svelte => "svelte"
    case Vue => "vue"
    case ReactNative => "react-native"
  }

  function LibraryName(l: UiLibrary): string {
    match l
    case Radix => "radix"
    case Base => "base"
  }

  /** The `framework === "react" || ...` test on an already lower-cased value. */
  function ParseFramework(s: string): (r: Option<Framework>)
    ensures r.Some? <==> s in FrameworkNames
    ensures r.Some? ==> Name(r.value) == s
  {
    if s == "react" then Some(React)
    else if s == "svelte" then Some(Svelte)
    else if s == "vue" then Some(Vue)
    else if s == "react-native" then Some(ReactNative)
    else None
  }

  /** The `argLib === "radix" || argLib === "base"` test. */
  function ParseUiLibrary(s: string): (r: Option<UiLibrary>)
    ensures r.Some? <==> s in UiLibraryNames
    ensures r.Some? ==> LibraryName(r.value) == s
  {
    if s == "radix" then Some(Radix)
    else if s == "base" then Some(Base)
    else None
  }

  /** The memo cells `cachedFramework` and `cachedUiLibrary`; `None` is `null`. */
  datatype Cache = Cache(fw: Option<Framework>, lib: Option<UiLibrary>)

  /** The state at process start: nothing resolved yet. */
  const Fresh: Cache := Cache(None, None)

  /** Where a resolved value came from, as the informational log line says;
      `Forced` is the UI library imposed on a framework other than React. */
  datatype Source = FromCache | FromFlag | FromEnv | FromDefault | Forced

  /** The warnings the resolvers log, carrying the rejected (lower-cased) value. */
  datatype Warning =
    | InvalidFramework(value: string)
    | InvalidUiLibrary(value: string)
    | UiLibraryIgnored(value: string, framework: Framework)

  /** A resolver's outcome: the updated cache, the value, its source and the
      warnings logged on the way. */
  datatype Resolved<T> = Resolved(cache: Cache, value: T, source: Source, warnings: seq<Warning>)

  /** JavaScript truthiness of a `string | undefined`. */
  predicate Present(o: Option<string>) {
    o.Some? && o.value != ""
  }

  /** `args[frameworkIndex + 1]` for the first `--framework` or `-f`. */
  function FrameworkArg(args: seq<string>): Option<string> {
    FlagValue(args, FrameworkFlags)
  }

  /** A non-empty framework flag value that is not one of the four names:
      the case that logs a warning and falls through. */
  predicate RejectedFrameworkArg(args: seq<string>) {
    Present(FrameworkArg(args)) && Lower(FrameworkArg(args).value) !in FrameworkNames
  }

  /** `getFramework`. */
  function GetFramework(c: Cache, args: seq<string>, env: map<string, string>): (r: Resolved<Framework>)
    // memoised: a cached framework is returned whatever `args` and `env` say
    ensures c.fw.Some? ==> r == Resolved(c, c.fw.value, FromCache, [])
    // every path caches the value it returns, and the UI-library cell is untouched
    ensures r.cache == c.(fw := Some(r.value))
    ensures c.fw.None? ==> r.source in {FromFlag, FromEnv, FromDefault}
    // first tier: a non-empty flag value naming a framework, in any case
    ensures c.fw.None? ==>
      (r.source == FromFlag <==> Present(FrameworkArg(args)) && Lower(FrameworkArg(args).value) in FrameworkNames)
    ensures r.source == FromFlag ==>
      FrameworkArg(args).Some? && Name(r.value) == Lower(FrameworkArg(args).value)
    // second tier: the FRAMEWORK variable, in any case
    ensures c.fw.None? && r.source != FromFlag ==>
      (r.source == FromEnv <==> FrameworkEnvVar in env && Lower(env[FrameworkEnvVar]) in FrameworkNames)
    ensures r.source == FromEnv ==>
      FrameworkEnvVar in env && Name(r.value) == Lower(env[FrameworkEnvVar])
    // last tier: react
    ensures r.source == FromDefault ==> r.value == DefaultFramework
    // a warning exactly for a rejected flag value; the environment never warns
    ensures r.warnings == if c.fw.None? && RejectedFrameworkArg(args)
                          then [InvalidFramework(Lower(FrameworkArg(args).value))] else []
  {
    if c.fw.Some? then Resolved(c, c.fw.value, FromCache, [])
    else
      var arg := FrameworkArg(args);
      var fromFlag := if Present(arg) then ParseFramework(Lower(arg.value)) else None;
      if fromFlag.Some? then
        Resolved(c.(fw := fromFlag), fromFlag.value, FromFlag, [])
      else
        var warnings := if Present(arg) then [InvalidFramework(Lower(arg.value))] else [];
        var fromEnv := if FrameworkEnvVar in env then ParseFramework(Lower(env[FrameworkEnvVar])) else None;
        if fromEnv.Some? then
          Resolved(c.(fw := fromEnv), fromEnv.value, FromEnv, warnings)
        else
          Resolved(c.(fw := Some(DefaultFramework)), DefaultFramework, FromDefault, warnings)
  }

  /** `argLib`: the lower-cased value after the first `--ui-library`. */
  function UiLibraryArg(args: seq<string>): (r: Option<string>)
    ensures r.Some? <==> exists i :: FirstOccurrence(args, UiLibraryFlags, i) && i + 1 < |args|
    ensures forall i :: FirstOccurrence(args, UiLibraryFlags, i) && i + 1 < |args| ==> r == Some(Lower(args[i + 1]))
  {
    match FlagValue(args, UiLibraryFlags)
    case None => None
    case Some(v) => Some(Lower(v))
  }

  /** `envLib`: the lower-cased UI_LIBRARY variable. */
  function UiLibraryEnv(env: map<string, string>): Option<string> {
    if UiLibraryEnvVar in env then Some(Lower(env[UiLibraryEnvVar])) else None
  }

  /** `requestedLib = argLib || envLib`. */
  function RequestedUiLibrary(args: seq<string>, env: map<string, string>): Option<string> {
    if Present(UiLibraryArg(args)) then UiLibraryArg(args) else UiLibraryEnv(env)
  }

  /** `getUiLibrary`. */
  function GetUiLibrary(c: Cache, args: seq<string>, env: map<string, string>): (r: Resolved<UiLibrary>)
    // memoised, without even consulting the framework
    ensures c.lib.Some? ==> r == Resolved(c, c.lib.value, FromCache, [])
    // every path caches the value it returns
    ensures r.cache.lib == Some(r.value)
    // the framework is resolved (and cached) first, with its warnings logged first
    ensures c.lib.None? ==>
      var fr := GetFramework(c, args, env);
      && r.cache.fw == fr.cache.fw
      && |fr.warnings| <= |r.warnings|
      && r.warnings[..|fr.warnings|] == fr.warnings
    // any framework but react: radix, with a warning iff a value was asked for
    ensures c.lib.None? && GetFramework(c, args, env).value != React ==>
      var fr := GetFramework(c, args, env);
      && r.value == Radix
      && r.source == Forced
      && (r.warnings == fr.warnings <==> !Present(UiLibraryArg(args)) && !Present(UiLibraryEnv(env)))
    ensures c.lib.None? && GetFramework(c, args, env).value != React
            && (Present(UiLibraryArg(args)) || Present(UiLibraryEnv(env))) ==>
      var fr := GetFramework(c, args, env);
      r.warnings == fr.warnings + [UiLibraryIgnored(
        if Present(UiLibraryArg(args)) then UiLibraryArg(args).value else UiLibraryEnv(env).value,
        fr.value)]
    // react, first tier: a recognised --ui-library value
    ensures c.lib.None? && GetFramework(c, args, env).value == React ==>
      (r.source == FromFlag <==> UiLibraryArg(args).Some? && UiLibraryArg(args).value in UiLibraryNames)
    ensures r.source == FromFlag ==>
      UiLibraryArg(args).Some? && LibraryName(r.value) == UiLibraryArg(args).value
    // react, second tier: a recognised UI_LIBRARY value
    ensures c.lib.None? && GetFramework(c, args, env).value == React && r.source != FromFlag ==>
      (r.source == FromEnv <==> UiLibraryEnv(env).Some? && UiLibraryEnv(env).value in UiLibraryNames)
    ensures r.source == FromEnv ==>
      UiLibraryEnv(env).Some? && LibraryName(r.value) == UiLibraryEnv(env).value
    ensures r.source == FromDefault ==> r.value == DefaultUiLibrary
    // react: a warning exactly for a rejected non-empty flag value
    ensures c.lib.None? && GetFramework(c, args, env).value == React ==>
      var fr := GetFramework(c, args, env);
      && r.source in {FromFlag, FromEnv, FromDefault}
      && r.warnings == fr.warnings
                       + if Present(UiLibraryArg(args)) && UiLibraryArg(args).value !in UiLibraryNames
                         then [InvalidUiLibrary(UiLibraryArg(args).value)] else []
  {
    if c.lib.Some? then Resolved(c, c.lib.value, FromCache, [])
    else
      var fr := GetFramework(c, args, env);
      var c1 := fr.cache;
      var argLib := UiLibraryArg(args);
      var envLib := UiLibraryEnv(env);
      var requested := RequestedUiLibrary(args, env);
      if fr.value != React then
        var ignored := if Present(requested) then [UiLibraryIgnored(requested.value, fr.value)] else [];
        Resolved(c1.(lib := Some(DefaultUiLibrary)), DefaultUiLibrary, Forced, fr.warnings + ignored)
      else
        var fromFlag := if argLib.Some? then ParseUiLibrary(argLib.value) else None;
        if fromFlag.Some? then
          Resolved(c1.(lib := fromFlag), fromFlag.value, FromFlag, fr.warnings)
        else
          var warnings := fr.warnings + if Present(argLib) then [InvalidUiLibrary(argLib.value)] else [];
          var fromEnv := if envLib.Some? then ParseUiLibrary(envLib.value) else None;
          if fromEnv.Some? then
            Resolved(c1.(lib := fromEnv), fromEnv.value, FromEnv, warnings)
          else
            Resolved(c1.(lib := Some(DefaultUiLibrary)), DefaultUiLibrary, FromDefault, warnings)
  }

  /** The four client modules `getAxiosImplementation` can import. */
  datatype Backend = ReactAxios | SvelteAxios | VueAxios | ReactNativeAxios

  /** The tag dispatch of `getAxiosImplementation`: svelte, vue and
      react-native have their own clients, anything else gets React's. */
  function BackendFor(f: Framework): Backend {
    if f == Svelte then SvelteAxios
    else if f == Vue then VueAxios
    else if f == ReactNative then ReactNativeAxios
    else ReactAxios
  }

  /** The framework whose registry a client talks to. */
  function ServedFramework(b: Backend): Framework {
    match b
    case ReactAxios => React
    case SvelteAxios => Svelte
    case VueAxios => Vue
    case ReactNativeAxios => ReactNative
  }

  datatype Selected = Selected(cache: Cache, backend: Backend)

  /** `getAxiosImplementation` up to the dynamic import: resolves the
      framework and picks the client serving it. */
  function GetAxiosImplementation(c: Cache, args: seq<string>, env: map<string, string>): (r: Selected)
    ensures r.cache == GetFramework(c, args, env).cache
    ensures ServedFramework(r.backend) == GetFramework(c, args, env).value
  {
    var fr := GetFramework(c, args, env);
    Selected(fr.cache, BackendFor(fr.value))
  }

  /** The object `getFrameworkInfo` returns. */
  datatype FrameworkInfo = FrameworkInfo(current: Framework, repository: string, fileExtension: string, description: string)

  function InfoFor(f: Framework): FrameworkInfo {
    FrameworkInfo(
      f,
      if f == Svelte then "huntabyte/shadcn-svelte"
      else if f == Vue then "unovue/shadcn-vue"
      else if f == ReactNative then "founded-labs/react-native-reusables"
      else "shadcn-ui/ui",
      if f == Svelte then ".svelte"
      else if f == Vue then ".vue"
      else if f == ReactNative then ".tsx"
      else ".tsx",
      if f == Svelte then "Svelte components from shadcn-svelte"
      else if f == Vue then "Vue components from shadcn-vue"
      else if f == ReactNative then "React Native components from react-native-reusables"
      else "React components from shadcn/ui v4")
  }

  /** The framework whose components live in a repository, if any. */
  function RepositoryOwner(repository: string): Option<Framework> {
    if repository == "shadcn-ui/ui" then Some(React)
    else if repository == "huntabyte/shadcn-svelte" then Some(Svelte)
    else if repository == "unovue/shadcn-vue" then Some(Vue)
    else if repository == "founded-labs/react-native-reusables" then Some(ReactNative)
    else None
  }

  datatype Described = Described(cache: Cache, info: FrameworkInfo)

  /** `getFrameworkInfo`: the lookup table applied to the resolved framework. */
  function GetFrameworkInfo(c: Cache, args: seq<string>, env: map<string, string>): (r: Described)
    ensures r.cache == GetFramework(c, args, env).cache
    ensures r.info.current == GetFramework(c, args, env).value
    ensures RepositoryOwner(r.info.repository) == Some(r.info.current)
  {
    var fr := GetFramework(c, args, env);
    Described(fr.cache, InfoFor(fr.value))
  }
}
