/** The resource catalog, the URI-to-handler map and the `get_components`
    handler (src/resources/index.ts). A handler's `{content, contentType}`
    result is an `Envelope` whose content is a payload value rather than
    JSON text. */
module Resources {
  import opened Wrappers
  import opened Text
  import opened Sorting
  import opened FrameworkSelection

  datatype ResourceDescriptor = ResourceDescriptor(name: string, description: string, uri: string, contentType: string)

  const ComponentsUri: string := "resource:get_components"
  const ThemeMetadataUri: string := "resource:get_theme_metadata"
  const JsonType: string := "application/json"
  const PlainTextType: string := "text/plain"

  /** The exported `resources` array. */
  const Catalog: seq<ResourceDescriptor> := [
    ResourceDescriptor(
      "get_components",
      "List of available shadcn/ui components that can be used in the project",
      ComponentsUri,
      PlainTextType),
    ResourceDescriptor(
      "get_theme_metadata",
      "Returns metadata about the currently configured theme",
      ThemeMetadataUri,
      JsonType)
  ]

  /** The two handler functions; `handleGetThemeMetadata` is not part of this
      model beyond its place in the map. */
  datatype Handler = ComponentsListHandler | ThemeMetadataHandler

  /** The exported `resourceHandlers` object. */
  const ResourceHandlers: map<string, Handler> := map[
    ComponentsUri := ComponentsListHandler,
    ThemeMetadataUri := ThemeMetadataHandler
  ]

  function CatalogUris(catalog: seq<ResourceDescriptor>): set<string> {
    set d | d in catalog :: d.uri
  }

  predicate DistinctUris(catalog: seq<ResourceDescriptor>) {
    forall i, j :: 0 <= i < j < |catalog| ==> catalog[i].uri != catalog[j].uri
  }

  /** The URIs of a two-entry catalog. */
  lemma UrisOfPair(a: ResourceDescriptor, b: ResourceDescriptor)
    ensures CatalogUris([a, b]) == {a.uri, b.uri}
  {
    assert a in [a, b] && b in [a, b];
  }

  /** The catalog has two entries with distinct URIs, and those URIs are
      exactly the keys of the handler map: every advertised resource has a
      handler and every handler is advertised. */
  lemma CatalogMatchesHandlers()
    ensures |Catalog| == 2
    ensures DistinctUris(Catalog)
    ensures CatalogUris(Catalog) == ResourceHandlers.Keys
  {
    UrisOfPair(Catalog[0], Catalog[1]);
    assert ComponentsUri[13] != ThemeMetadataUri[13];
  }

  /** Each catalogued URI is `resource:` followed by the entry's name. */
  lemma UrisFollowNames()
    ensures forall i :: 0 <= i < |Catalog| ==> Catalog[i].uri == "resource:" + Catalog[i].name
  {
  }

  /** What a backend call can reject with: an `Error` object, or any other
      value, represented by its `String(...)` form. */
  datatype ErrorValue = ErrorObject(message: string) | OtherThrown(stringForm: string)

  /** `error instanceof Error ? error.message : String(error)`. */
  function ErrorMessage(e: ErrorValue): string {
    match e
    case ErrorObject(m) => m
    case OtherThrown(s) => s
  }

  const FetchFailed: string := "Failed to fetch components list"

  /** The JSON value a handler serialises: the name list, or the error object. */
  datatype Payload = ComponentNames(names: seq<string>) | FetchError(error: string, message: string)

  datatype Envelope = Envelope(content: Payload, contentType: string)

  /** A handler's envelope together with the resolver cache after it ran. */
  datatype Served = Served(cache: Cache, envelope: Envelope)

  /** `getComponentsList`. `fetch` stands for importing the selected client
      and awaiting its `getAvailableComponents()`; a `Failure` is whatever
      either step threw. */
  function GetComponentsList(c: Cache, args: seq<string>, env: map<string, string>,
                             fetch: Backend -> Result<seq<string>, ErrorValue>): (r: Served)
    // the framework is resolved through the memo, as `getAxiosImplementation` does
    ensures r.cache == GetFramework(c, args, env).cache
    // never throws: success and failure alike give a JSON envelope
    ensures r.envelope.contentType == JsonType
    ensures var b := BackendFor(GetFramework(c, args, env).value);
      match fetch(b)
      case Success(names) =>
        // the backend's list, sorted
        && r.envelope.content.ComponentNames?
        && Sorted(r.envelope.content.names)
        && multiset(r.envelope.content.names) == multiset(names)
      case Failure(e) =>
        r.envelope.content == FetchError(FetchFailed, ErrorMessage(e))
  {
    var selected := GetAxiosImplementation(c, args, env);
    match fetch(selected.backend)
    case Success(names) => Served(selected.cache, Envelope(ComponentNames(SortNames(names)), JsonType))
    case Failure(e) => Served(selected.cache, Envelope(FetchError(FetchFailed, ErrorMessage(e)), JsonType))
  }

  /** The handler registered for a URI, `None` for one the map lacks. */
  function LookupHandler(uri: string): (r: Option<Handler>)
    ensures r.Some? <==> uri in CatalogUris(Catalog)
    ensures uri == ComponentsUri ==> r == Some(ComponentsListHandler)
    ensures uri == ThemeMetadataUri ==> r == Some(ThemeMetadataHandler)
  {
    CatalogMatchesHandlers();
    if uri in ResourceHandlers then Some(ResourceHandlers[uri]) else None
  }

  /** Serving a resource request: look the URI up and run its handler.
      `theme` is the outcome of the theme-metadata handler, which this model
      takes as given. An unknown URI yields `None`, left to the transport. */
  function Dispatch(uri: string, c: Cache, args: seq<string>, env: map<string, string>,
                    fetch: Backend -> Result<seq<string>, ErrorValue>, theme: Served): (r: Option<Served>)
    // every advertised resource yields an envelope; nothing else does
    ensures r.Some? <==> uri in CatalogUris(Catalog)
    ensures uri == ComponentsUri ==> r == Some(GetComponentsList(c, args, env, fetch))
    ensures uri == ThemeMetadataUri ==> r == Some(theme)
  {
    match LookupHandler(uri)
    case None => None
    case Some(ComponentsListHandler) => Some(GetComponentsList(c, args, env, fetch))
    case Some(ThemeMetadataHandler) => Some(theme)
  }

  /** The catalog declares `text/plain` for `get_components`, while its
      handler always answers `application/json`. */
  lemma ComponentsContentTypeMismatch(c: Cache, args: seq<string>, env: map<string, string>,
                                      fetch: Backend -> Result<seq<string>, ErrorValue>)
    ensures Catalog[0].uri == ComponentsUri && Catalog[0].contentType == PlainTextType
    ensures GetComponentsList(c, args, env, fetch).envelope.contentType == JsonType
    ensures PlainTextType != JsonType
  {
  }

  /** The successful list is the unique sorted arrangement of the backend's
      names, so it equals any other sorted permutation of them. */
  lemma ComponentsListIsTheSortedList(c: Cache, args: seq<string>, env: map<string, string>,
                                      fetch: Backend -> Result<seq<string>, ErrorValue>, expected: seq<string>)
    requires fetch(BackendFor(GetFramework(c, args, env).value)).Success?
    requires Sorted(expected)
    requires multiset(expected) == multiset(fetch(BackendFor(GetFramework(c, args, env).value)).value)
    ensures GetComponentsList(c, args, env, fetch).envelope.content == ComponentNames(expected)
  {
    var names := fetch(BackendFor(GetFramework(c, args, env).value)).value;
    SortedPermutationUnique(SortNames(names), expected);
  }

  /** A backend answering `["button", "alert"]` gives `["alert", "button"]`. */
  lemma SortedListExample(c: Cache, args: seq<string>, env: map<string, string>)
    ensures GetComponentsList(c, args, env, _ => Success(["button", "alert"])).envelope
         == Envelope(ComponentNames(["alert", "button"]), JsonType)
  {
    var fetch: Backend -> Result<seq<string>, ErrorValue> := _ => Success(["button", "alert"]);
    assert Below("alert", "button");
    assert multiset(["alert", "button"]) == multiset(["button", "alert"]);
    ComponentsListIsTheSortedList(c, args, env, fetch, ["alert", "button"]);
  }

  /** A backend rejecting with `Error("timeout")` gives the error object. */
  lemma TimeoutExample(c: Cache, args: seq<string>, env: map<string, string>)
    ensures GetComponentsList(c, args, env, _ => Failure(ErrorObject("timeout"))).envelope
         == Envelope(FetchError("Failed to fetch components list", "timeout"), JsonType)
  {
  }
}
