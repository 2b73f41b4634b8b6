# shadcn/ui MCP server: framework selection and resource dispatch, in Dafny

This project models the configuration-resolution and dispatch layer of the
shadcn/ui Model Context Protocol server:

- **Framework resolver** (`getFramework`, `getUiLibrary`): picks one of
  `react | svelte | vue | react-native` from the `--framework`/`-f` argument,
  then the `FRAMEWORK` variable, then `react`; and, for React only, one of
  `radix | base` from `--ui-library`, then `UI_LIBRARY`, then `radix`. Both are
  memoised for the life of the process.
- **Client dispatch and help info** (`getAxiosImplementation`,
  `getFrameworkInfo`): the framework tag selects one of four registry clients
  and one row of a repository / file-extension / description table.
- **Default path selector** (`getDefaultPath`): the first of `BLOCKS`,
  `CURRENT_REGISTRY_PATH`, `NEW_YORK_V4_PATH` present in a client's `paths`.
- **Resource catalog and `get_components` handler**: two resource descriptors,
  the URI-to-handler map, and a handler that sorts the client's component list
  or turns any failure into an error object, never throwing (assuming
  `String(error)` and `logError` return normally).

The process-wide caches are an explicit `Cache(fw, lib)` value that every
resolver takes and returns. `process.argv.slice(2)` and `process.env` are the
inputs `args: seq<string>` and `env: map<string, string>`. Each log line
becomes the `Source` of a resolved value plus a list of `Warning`s. The
backend call is a function `fetch: Backend -> Result<seq<string>, ErrorValue>`
from the chosen client to its outcome.

Modules: `Wrappers` (Option, Result), `Text` (ASCII lower-casing, string
order), `Sorting` (the component-list sort), `CommandLine` (flag lookup),
`FrameworkSelection` (src/utils/framework.ts), `FrameworkProps` (its
properties), `Paths` (src/utils/paths.ts), `Resources`
(src/resources/index.ts).

## Notes on the code's behaviour

- For react, an unrecognised `UI_LIBRARY` value falls back to `radix`
  silently, and an unrecognised `FRAMEWORK` value falls back to `react`
  silently. Only a rejected command-line value warns.
- Under any framework other than react, a requested UI library is ignored.
  Any non-empty `--ui-library` or `UI_LIBRARY` value warns that it is ignored,
  whether it names a library or not.
- After a rejected `--framework` value, the warning says the default will be
  used, but resolution still consults `FRAMEWORK`. The model keeps the
  fall-through and drops the wording.
- The catalog declares `text/plain` for `get_components`, but the handler
  always answers `application/json`. This mismatch is kept and stated in
  `Resources.ComponentsContentTypeMismatch`.

## Model

| member | source | states |
|---|---|---|
| `CommandLine.FindFirst` | src/utils/framework.ts:38-40 | the index found is the first argument equal to one of the flag names; none is found exactly when no argument is a flag name |
| `CommandLine.FlagValue` | src/utils/framework.ts:42 | a value exists exactly when the first flag is not the last argument, and then it is the argument right after that first flag |
| `CommandLine.FlagValueAfterPrefix` | src/utils/framework.ts:38-43 | only the first flag counts: with no flag before it, the value read is the one right after it, whatever follows |
| `FrameworkSelection.ParseFramework` | src/utils/framework.ts:44-49 | a lower-cased value is accepted exactly when it is one of the four framework names, and then names the framework it spells |
| `FrameworkSelection.ParseUiLibrary` | src/utils/framework.ts:97 | a lower-cased value is accepted exactly when it is `radix` or `base` |
| `FrameworkSelection.GetFramework` | src/utils/framework.ts:33-77 | a cached value is returned unchanged and every path caches what it returns; a usable flag value wins, then FRAMEWORK, then react, all case-insensitively; it warns exactly for a rejected non-empty flag value |
| `FrameworkSelection.UiLibraryArg` | src/utils/framework.ts:84-85 | a value exists exactly when some `--ui-library` is followed by another argument, and then it is the lower-cased argument right after the first `--ui-library` |
| `FrameworkSelection.GetUiLibrary` | src/utils/framework.ts:79-114 | memoised; resolves and caches the framework first; any framework but react gets radix, with a warning iff a non-empty value was requested; for react a recognised flag wins, a rejected non-empty one warns, then UI_LIBRARY, then radix |
| `FrameworkSelection.GetAxiosImplementation` | src/utils/framework.ts:120-136 | resolves the framework through the cache and picks the client that serves exactly that framework |
| `FrameworkSelection.GetFrameworkInfo` | src/utils/framework.ts:142-172 | the info describes the resolved framework, and its repository identifies that framework |
| `FrameworkProps.FrameworkNameRoundTrip` | src/utils/framework.ts:16 | every framework is recognised by its own name, and that name is already lower-case |
| `FrameworkProps.UiLibraryNameRoundTrip` | src/utils/framework.ts:19 | every UI library is recognised by its own name, and that name is already lower-case |
| `FrameworkProps.FrameworkNamesExact` | src/utils/framework.ts:44-49 | a spelling is accepted exactly when it is the name of some framework |
| `FrameworkProps.GetFrameworkMemoised` | src/utils/framework.ts:34 | a second call returns the first call's value from the cache with no warnings, whatever the arguments and environment are by then |
| `FrameworkProps.FlagWins` | src/utils/framework.ts:37-52 | the first `--framework`/`-f` followed by any case variant of a name selects that framework, caches it and warns nothing, whatever FRAMEWORK or later arguments say |
| `FrameworkProps.RejectedFlagFallsThrough` | src/utils/framework.ts:42-76 | an unrecognised non-empty flag value logs one warning naming it, and the result is FRAMEWORK's framework if valid, else react |
| `FrameworkProps.UnusableFlagIgnored` | src/utils/framework.ts:42 | a flag with nothing after it, or with an empty value, is skipped silently, exactly as if no arguments were given |
| `FrameworkProps.DefaultIsReact` | src/utils/framework.ts:73-76 | with no usable flag and no usable FRAMEWORK the result is react, from the default |
| `FrameworkProps.FlagCaseInsensitive` | src/utils/framework.ts:43 | two flag values that lower-case alike give identical outcomes, warnings included |
| `FrameworkProps.EnvCaseInsensitive` | src/utils/framework.ts:61 | two FRAMEWORK values that lower-case alike give identical outcomes |
| `FrameworkProps.OtherVariablesIgnored` | src/utils/framework.ts:61 | environment variables other than FRAMEWORK do not affect the framework |
| `FrameworkProps.GetUiLibraryMemoised` | src/utils/framework.ts:80 | a second call returns the first call's UI library from the cache, whatever the inputs are by then |
| `FrameworkProps.UiLibraryFixesFramework` | src/utils/framework.ts:82 | after the UI library is resolved, later framework calls return the framework it was resolved for |
| `FrameworkProps.UiLibraryEnvCaseInsensitive` | src/utils/framework.ts:86 | two UI_LIBRARY values that lower-case alike give identical UI-library outcomes, warnings and cache included |
| `FrameworkProps.NonReactForcesRadix` | src/utils/framework.ts:89-95 | for any framework but react the UI library is radix |
| `FrameworkProps.UiLibraryFlagIgnored` | src/utils/framework.ts:84-95 | for any framework but react, a non-empty `--ui-library` value, valid or not, gives radix and one warning naming the lower-cased value after the framework's own warnings |
| `FrameworkProps.UiLibraryFlagWins` | src/utils/framework.ts:97-100 | for react, the first `--ui-library` followed by any case variant of a library name selects it with no warning, whatever UI_LIBRARY says |
| `FrameworkProps.GetFrameworkKeepsCoherent` | src/utils/framework.ts:33-77 | framework resolution keeps the cache invariant: a UI library is cached only with a framework, and base only with react |
| `FrameworkProps.GetUiLibraryKeepsCoherent` | src/utils/framework.ts:79-114 | UI-library resolution keeps the same cache invariant |
| `FrameworkProps.ReplayKeepsCoherent` | src/utils/framework.ts:26-27 | any run of resolver calls from a coherent cache ends in a coherent cache |
| `FrameworkProps.ReplayFreezesCache` | src/utils/framework.ts:26-27 | once a cache cell is set, no run of calls with any inputs changes it |
| `FrameworkProps.FirstCallSetsFramework` | src/utils/framework.ts:79-82 | from a coherent cache the first call of any kind caches a framework, and that framework is the one cached after any further calls |
| `FrameworkProps.FirstAnswerIsFinal` | src/utils/framework.ts:33-34 | the first framework resolved in a process is the answer to every later call, after any calls with any inputs |
| `FrameworkProps.BackendRoundTrip` | src/utils/framework.ts:123-135 | the client chosen and the framework it serves determine each other |
| `FrameworkProps.BackendIgnoresUiLibrary` | src/utils/framework.ts:120-136 | the client chosen does not depend on the cached UI library |
| `FrameworkProps.ExtensionTable` | src/utils/framework.ts:155-162 | `.tsx` is the extension of exactly react and react-native, `.svelte` of exactly svelte, `.vue` of exactly vue |
| `FrameworkProps.RepositoryTable` | src/utils/framework.ts:145-154 | each framework has its own repository, and the repository identifies the framework |
| `FrameworkProps.CaseVariantsExample` | src/utils/framework.ts:43 | `REACT`, `React` and `react` all resolve to react |
| `FrameworkProps.FlagOverEnvExample` | src/utils/framework.ts:37-52 | `-f Svelte` beats `FRAMEWORK=vue` |
| `FrameworkProps.NothingGivenExample` | src/utils/framework.ts:73-76 | no arguments and no environment give react from the default, cached, with no warning |
| `FrameworkProps.UnknownFlagExample` | src/utils/framework.ts:53-58 | `--framework cobol` warns about `cobol` and gives react, or vue when `FRAMEWORK=VUE` |
| `FrameworkProps.IgnoredUiLibraryExample` | src/utils/framework.ts:89-95 | `-f vue --ui-library base` gives radix and one warning that base is ignored for vue |
| `FrameworkProps.BaseUiExample` | src/utils/framework.ts:97-100 | `--ui-library Base` gives base for the default framework |
| `Paths.GetDefaultPath` | src/utils/paths.ts:6-11 | BLOCKS wins if present, then CURRENT_REGISTRY_PATH, then NEW_YORK_V4_PATH; absent exactly when none of them is a key; a result is always the value at a known key |
| `Paths.DefaultPathIsFirstPresent` | src/utils/paths.ts:6-11 | the selector equals the first-present rule over the priority list |
| `Paths.FirstPresentDependsOnKeysOnly` | src/utils/paths.ts:7-9 | maps that agree on the listed keys select the same path |
| `Paths.UnknownKeysIrrelevant` | src/utils/paths.ts:6-11 | adding, changing or removing any other key leaves the result unchanged |
| `Paths.PathExamples` | src/utils/paths.ts:7-10 | BLOCKS beats NEW_YORK_V4_PATH, and an empty map gives no path |
| `Sorting.SortNames` | src/resources/index.ts:41 | the sorted list is in ascending string order and is a permutation of the input |
| `Sorting.SortedPermutationUnique` | src/resources/index.ts:41 | two sorted lists holding the same names are equal, so the sort result is unique |
| `Sorting.SortIdempotent` | src/resources/index.ts:41 | sorting a sorted list changes nothing |
| `Resources.CatalogMatchesHandlers` | src/resources/index.ts:16-63 | the catalog has two entries with distinct URIs, its URIs are exactly the keys of the handler map |
| `Resources.UrisFollowNames` | src/resources/index.ts:16-29 | each catalogued URI is `resource:` followed by the entry's name |
| `Resources.GetComponentsList` | src/resources/index.ts:35-54 | resolves the framework through the cache; on success the payload is a sorted permutation of the selected client's list; on any failure it is the fixed error text with the error's message; always `application/json` |
| `Resources.LookupHandler` | src/resources/index.ts:60-63 | among the object's own keys, a handler is found exactly for the URIs the catalog lists; `resource:get_components` maps to the component-list handler and `resource:get_theme_metadata` to the theme-metadata handler |
| `Resources.Dispatch` | src/resources/index.ts:60-63 | every catalogued URI yields an envelope and no other own key does; `get_components` is answered by the component-list handler and `get_theme_metadata` by the theme-metadata handler |
| `Resources.ComponentsContentTypeMismatch` | src/resources/index.ts:16-54 | the catalog declares `text/plain` for `get_components` while its handler answers `application/json` |
| `Resources.ComponentsListIsTheSortedList` | src/resources/index.ts:41 | on success the handler's list equals any sorted permutation of the backend's list |
| `Resources.SortedListExample` | src/resources/index.ts:38-42 | a backend answering `["button","alert"]` gives `["alert","button"]` as JSON |
| `Resources.TimeoutExample` | src/resources/index.ts:44-52 | a backend rejecting with an Error whose message is `timeout` gives the error object with message `timeout` as JSON |

## Left out

- Reading `process.argv` and `process.env`: they are the inputs `args` and `env`.
- The logger and the wording of log lines: a resolution reports its `Source` and a list of `Warning` values. The `logError` call in the handler is not modelled.
- The dynamic `import()` of the four client modules and `getAvailableComponents()`: foreign asynchronous calls. Only the tag dispatch is modelled, and the call's outcome is the `fetch` input.
- `handleGetThemeMetadata`: its source is not part of this model. It exists in the handler map, and `Dispatch` takes its outcome as the input `theme`.
- `validateFrameworkSelection`: it logs what `getFramework`, `getFrameworkInfo` and, for react, `getUiLibrary` return. Its only effect on the caches comes from those calls, which `FrameworkProps.Replay` covers as `AskFramework`, `AskInfo` and `AskUiLibrary`.
- `Resources.LookupHandler`: the map holds only the own keys of the `resourceHandlers` object. Names a plain object also answers through `Object.prototype` (`constructor`, `toString`, `__proto__`, ...) are outside the model, should the transport look them up.
- JSON text from `JSON.stringify(..., null, 2)`: the payload is the `Payload` value that would be serialised.
- `Text.Lower`: folds only ASCII `A`-`Z`, not full Unicode `toLowerCase`. Every name the resolvers accept is plain ASCII lower-case.
- `Sorting.SortNames`: compares strings by Dafny character (Unicode scalar value), not by UTF-16 code unit. The two orders differ only between astral characters and characters U+E000 to U+FFFF.
- `String(error)` for a non-Error rejection: the model takes its result as given in `OtherThrown`.
- `Resources.GetComponentsList`: returns a new sorted sequence. The code's `components.sort()` sorts the backend's array in place, so other holders of that array also see it reordered; the model has no shared arrays.
- `Resources.GetComponentsList`: assumes the catch block returns. In the code, `String(error)` throws for a rejection value with no string conversion (such as `Object.create(null)`), and `logError` may throw; the handler then rejects.
- Concurrent first calls: the code is sequential, so there is no race to model.
