/** The REST service layer of `lib/api/services.js`. The HTTP client it calls
    is outside the model: a request is described by an `HttpCall` value, and
    what the client delivers (the response's data, or the message of the
    error it threw) is a `Transport` parameter. */
module ApiServices {
  import opened Wrappers
  import opened JsObject

  /** The resources the services address. */
  datatype Resource =
    | Settings | Menu | Sections | Kpis | Companies | Board | Gov | Esg
    | News | Posts | Legal | Contact | Search

  /** `API_ENDPOINTS` as configured. It has no entry for the KPI resource,
      although `kpisService` reads one: that lookup is `undefined`. */
  function ConfiguredEndpoint(r: Resource): Option<string> {
    match r
    case Settings => Some("/settings/")
    case Menu => Some("/menu/")
    case Sections => Some("/sections/")
    case Kpis => None
    case Companies => Some("/companies/")
    case Board => Some("/board/")
    case Gov => Some("/governance/")
    case Esg => Some("/esg/")
    case News => Some("/news/")
    case Posts => Some("/blogs/")
    case Legal => Some("/legal/")
    case Contact => Some("/contact/")
    case Search => Some("/search/")
  }

  /** The path of each resource under the API base URL: the configured one,
      and "/kpis/" for the KPI resource that the configuration lacks. */
  function Endpoint(r: Resource): (e: string)
    ensures r != Kpis ==> ConfiguredEndpoint(r) == Some(e)
    ensures |e| >= 2 && e[0] == '/' && e[|e| - 1] == '/'
  {
    ConfiguredEndpoint(r).GetOr("/kpis/")
  }

  /** Different resources have different endpoints. */
  lemma EndpointInjective(r: Resource, s: Resource)
    requires Endpoint(r) == Endpoint(s)
    ensures r == s
  {
  }

  // ---------------------------------------------------------------------
  // apiService: one request, with its error wrapped

  datatype Verb = GET | POST | PUT | DELETE

  /** What the client delivered: the response's `data`, or the message of the
      error it threw. */
  datatype Transport<T> = Delivered(data: T) | Failed(message: string)

  /** The sentence each verb's error message opens with. */
  function FailurePrefix(v: Verb): string {
    match v
    case GET => "Failed to fetch data from "
    case POST => "Failed to post data to "
    case PUT => "Failed to update data at "
    case DELETE => "Failed to delete data at "
  }

  /** The message of the error `apiService` throws in place of the client's. */
  function FailureMessage(v: Verb, endpoint: string, message: string): string {
    FailurePrefix(v) + endpoint + ": " + message
  }

  /** `apiService.get/post/put/delete`: the response's data, or an error that
      names the operation and the endpoint and keeps the original message. */
  function Call<T>(v: Verb, endpoint: string, outcome: Transport<T>): (r: Result<T, string>)
    ensures r.Success? <==> outcome.Delivered?
    ensures r.Success? ==> r.value == outcome.data
    ensures r.Failure? ==> FailureMessage(v, endpoint, outcome.message) == r.error
  {
    match outcome
    case Delivered(data) => Success(data)
    case Failed(message) => Failure(FailureMessage(v, endpoint, message))
  }

  /** Recovers the original message from a wrapped one, when it has the shape
      `FailureMessage(v, endpoint, _)`. */
  function OriginalMessage(v: Verb, endpoint: string, wrapped: string): (r: Option<string>)
    ensures r.Some? ==> wrapped == FailureMessage(v, endpoint, r.value)
  {
    var head := FailurePrefix(v) + endpoint + ": ";
    if head <= wrapped then
      assert wrapped == head + wrapped[|head|..];
      Some(wrapped[|head|..])
    else None
  }

  /** Wrapping loses nothing: the original message can be read back. */
  lemma OriginalMessageRoundTrip(v: Verb, endpoint: string, message: string)
    ensures OriginalMessage(v, endpoint, FailureMessage(v, endpoint, message)) == Some(message)
  {
    var head := FailurePrefix(v) + endpoint + ": ";
    assert FailureMessage(v, endpoint, message) == head + message;
  }

  /** The four verbs' messages differ at their eleventh character, so the
      message tells which operation failed. */
  lemma FailureNamesVerb(v: Verb, w: Verb, endpoint: string, m: string, n: string)
    requires FailureMessage(v, endpoint, m) == FailureMessage(w, endpoint, n)
    ensures v == w
  {
    assert FailureMessage(v, endpoint, m)[10] == FailurePrefix(v)[10];
    assert FailureMessage(w, endpoint, n)[10] == FailurePrefix(w)[10];
  }

  // ---------------------------------------------------------------------
  // The resource services: the request each one sends

  /** A request: verb, path, query parameters and body. */
  datatype HttpCall = HttpCall(verb: Verb, path: string, params: Object<string>, body: Object<string>)

  const NoProperties: Object<string> := Object([])

  /** The `lang = "en"` default parameter (`None` is an omitted argument). */
  function Lang(lang: Option<string>): (l: string)
    ensures lang.None? ==> l == "en"
    ensures lang.Some? ==> l == lang.value
  {
    lang.GetOr("en")
  }

  /** The `{ lang }` query of the read services. */
  function LangParams(lang: Option<string>): (p: Object<string>)
    ensures Valid(p)
    ensures Keys(p) == ["lang"]
    ensures Get(p, "lang") == Some(Lang(lang))
  {
    Object([("lang", Lang(lang))])
  }

  /** `<service>.getAll(lang)`. */
  function GetAllCall(r: Resource, lang: Option<string>): (c: HttpCall)
    requires r != Search
    ensures c.verb == GET && c.path == Endpoint(r)
    ensures Get(c.params, "lang") == Some(Lang(lang))
  {
    HttpCall(GET, Endpoint(r), LangParams(lang), NoProperties)
  }

  /** The services that have a `getById`. */
  predicate HasGetById(r: Resource) {
    r !in {Settings, Search}
  }

  /** The path `getById` asks for: the endpoint, the id and a slash. */
  function ByIdPath(r: Resource, id: string): string {
    Endpoint(r) + id + "/"
  }

  /** `<service>.getById(id, lang)`. */
  function GetByIdCall(r: Resource, id: string, lang: Option<string>): (c: HttpCall)
    requires HasGetById(r)
    ensures c.verb == GET && c.path == ByIdPath(r, id)
    ensures Get(c.params, "lang") == Some(Lang(lang))
  {
    HttpCall(GET, ByIdPath(r, id), LangParams(lang), NoProperties)
  }

  /** A template string shows a missing value as "undefined". */
  function Interpolated(e: Option<string>): string {
    e.GetOr("undefined")
  }

  /** The path `getById` asks for as the services compute it from the
      configuration. */
  function ByIdPathAsWritten(r: Resource, id: string): (p: string)
    ensures r != Kpis ==> p == ByIdPath(r, id)
    ensures r == Kpis ==> p == "undefined" + id + "/"
  {
    Interpolated(ConfiguredEndpoint(r)) + id + "/"
  }

  /** `kpisService.getById(id)` asks for "undefined<id>/", which is not under
      any endpoint; every other service asks for its endpoint's path. */
  lemma KpisByIdPathAsWritten(id: string)
    ensures ByIdPathAsWritten(Kpis, id) == "undefined" + id + "/"
    ensures ByIdPathAsWritten(Kpis, id)[0] != '/'
    ensures forall r :: r != Kpis ==> ByIdPathAsWritten(r, id) == ByIdPath(r, id)
  {
  }

  /** Reads the id back from a path `e + id + "/"`. */
  function IdUnder(e: string, path: string): (id: Option<string>)
    ensures id.Some? ==> path == e + id.value + "/"
  {
    if e <= path && |path| >= |e| + 1 && path[|path| - 1] == '/' then
      var id := path[|e|..|path| - 1];
      assert path == e + id + "/";
      Some(id)
    else None
  }

  lemma IdUnderRoundTrip(e: string, id: string)
    ensures IdUnder(e, e + id + "/") == Some(id)
  {
    var path := e + id + "/";
    assert path[..|e|] == e;
    assert path[|e|..|path| - 1] == id;
  }

  /** Reads the id back from a `getById` path. */
  function IdOf(r: Resource, path: string): (id: Option<string>)
    ensures id.Some? ==> path == ByIdPath(r, id.value)
  {
    IdUnder(Endpoint(r), path)
  }

  /** A `getById` path names its id unambiguously. */
  lemma ByIdPathRoundTrip(r: Resource, id: string)
    ensures IdOf(r, ByIdPath(r, id)) == Some(id)
  {
    IdUnderRoundTrip(Endpoint(r), id);
  }

  /** The path `settingsService.getByKey` asks for. */
  function ByKeyPath(key: string): string {
    Endpoint(Settings) + "?key=" + key
  }

  /** `settingsService.getByKey(key, lang)`. */
  function GetByKeyCall(key: string, lang: Option<string>): (c: HttpCall)
    ensures c.verb == GET && c.path == ByKeyPath(key)
    ensures Get(c.params, "lang") == Some(Lang(lang))
  {
    HttpCall(GET, ByKeyPath(key), LangParams(lang), NoProperties)
  }

  /** Reads the key back from a `getByKey` path. */
  function KeyOf(path: string): (key: Option<string>)
    ensures key.Some? ==> path == ByKeyPath(key.value)
  {
    var head := Endpoint(Settings) + "?key=";
    if head <= path then
      assert path == head + path[|head|..];
      Some(path[|head|..])
    else None
  }

  lemma ByKeyPathRoundTrip(key: string)
    ensures KeyOf(ByKeyPath(key)) == Some(key)
  {
    var head := Endpoint(Settings) + "?key=";
    assert ByKeyPath(key) == head + key;
  }

  /** `contactService.submit(data, lang)`: posts `{...data, lang}`. */
  function SubmitCall(data: Object<string>, lang: Option<string>): (c: HttpCall)
    requires Valid(data)
    ensures c.verb == POST && c.path == Endpoint(Contact)
    ensures Valid(c.body)
  {
    HttpCall(POST, Endpoint(Contact), NoProperties, Assign(data, LangParams(lang)))
  }

  /** The submitted body carries the call's language, whatever `lang` field
      the data had, and every other field of the data unchanged. */
  lemma SubmitBody(data: Object<string>, lang: Option<string>, k: string)
    requires Valid(data)
    ensures Get(SubmitCall(data, lang).body, "lang") == Some(Lang(lang))
    ensures k != "lang" ==> Get(SubmitCall(data, lang).body, k) == Get(data, k)
  {
    AssignGet(data, LangParams(lang), "lang");
    AssignGet(data, LangParams(lang), k);
  }

  /** `searchService.search(query, params)`: `{q: query, ...params}`. */
  function SearchCall(query: string, params: Object<string>): (c: HttpCall)
    requires Valid(params)
    ensures c.verb == GET && c.path == Endpoint(Search)
    ensures Valid(c.params)
  {
    HttpCall(GET, Endpoint(Search), Assign(Object([("q", query)]), params), NoProperties)
  }

  /** The search query is `params.q` when that is given, `query` otherwise;
      every other parameter is passed through. */
  lemma SearchParams(query: string, params: Object<string>, k: string)
    requires Valid(params)
    ensures Get(SearchCall(query, params).params, "q")
         == if Get(params, "q").Some? then Get(params, "q") else Some(query)
    ensures k != "q" ==> Get(SearchCall(query, params).params, k) == Get(params, k)
  {
    AssignGet(Object([("q", query)]), params, "q");
    AssignGet(Object([("q", query)]), params, k);
  }

  // ---------------------------------------------------------------------
  // settingsService.getAsObject

  /** `settings[key] = value` for each result in turn, on a fresh object. */
  method SettingsObject<V>(results: seq<(string, V)>) returns (settings: Object<V>)
    ensures Valid(settings)
    ensures settings == SetAll(Object([]), results)
  {
    settings := Object([]);
    for i := 0 to |results|
      invariant Valid(settings)
      invariant settings == SetAll(Object([]), results[..i])
    {
      SetAllStep(Object([]), results, i);
      settings := Set(settings, results[i].0, results[i].1);
    }
    assert results[..|results|] == results;
  }

  lemma SetAllStep<V>(o: Object<V>, props: seq<(string, V)>, i: nat)
    requires Valid(o) && i < |props|
    ensures SetAll(o, props[..i + 1]) == Set(SetAll(o, props[..i]), props[i].0, props[i].1)
  {
    assert props[..i + 1][..i] == props[..i];
  }

  /** Each key maps to the value of its last result; a key without results
      is absent. */
  lemma SettingsObjectGet<V>(results: seq<(string, V)>, k: string)
    ensures Get(SetAll(Object([]), results), k) == LastValue(results, k)
    ensures Get(SetAll(Object([]), results), k).None? <==> k !in Keys(Object(results))
  {
    SetAllGet(Object([]), results, k);
    LastValueAbsent(results, k);
  }

  /** The error `response.results.forEach` throws when the delivered data
      has no `results` field, in V8's wording. */
  const MissingResults := "TypeError: " + "Cannot read properties of undefined (reading 'forEach')"

  /** That error is never mistaken for a wrapped client error. */
  lemma MissingResultsNotWrapped(v: Verb, endpoint: string, message: string)
    ensures FailureMessage(v, endpoint, message) != MissingResults
  {
    assert FailureMessage(v, endpoint, message)[0] == 'F';
    assert MissingResults[0] == 'T';
  }

  /** `settingsService.getAsObject(lang)`: fetches the settings and folds
      their `results` into one object. The delivered data is `None` when it
      has no `results`. A failed fetch is a wrapped error, and missing
      `results` is the error `forEach` on `undefined` throws. */
  method GetAsObject<V>(outcome: Transport<Option<seq<(string, V)>>>) returns (r: Result<Object<V>, string>)
    ensures outcome.Failed? ==> r == Failure(FailureMessage(GET, Endpoint(Settings), outcome.message))
    ensures outcome == Delivered(None) ==> r == Failure(MissingResults)
    ensures outcome.Delivered? && outcome.data.Some? ==> r.Success? && Valid(r.value)
    ensures outcome.Delivered? && outcome.data.Some? ==>
              forall k :: Get(r.value, k) == LastValue(outcome.data.value, k)
  {
    var response := Call(GET, Endpoint(Settings), outcome);
    if response.Failure? {
      return Failure(response.error);
    }
    if response.value.None? {
      return Failure(MissingResults);
    }
    var results := response.value.value;
    var settings := SettingsObject(results);
    forall k ensures Get(settings, k) == LastValue(results, k) {
      SettingsObjectGet(results, k);
    }
    return Success(settings);
  }
}
