/** The translation routes: /translate (authenticated, metered in usage_stats),
    /detect (authenticated, not metered), /languages (open) and the two cache
    routes (authenticated with any valid key). */
module TranslationRoutes {
  import opened Wrappers
  import opened Http
  import opened UsageLog
  import opened TranslationCache
  import opened ApiKeyRegistry
  import opened Auth

  const TranslateEndpoint: string := "/translate"
  /** The usage label when the request carries no key info (the admin bypass)
      or the key's name is empty. */
  const UnknownCaller: string := "unknown"
  const DefaultSource: string := "auto"

  /** The fields of the /translate JSON body. */
  datatype TranslateBody = TranslateBody(q: Option<string>, source: Option<string>, target: Option<string>,
                                         format: Option<string>, alternatives: Option<nat>)

  /** The label of the usage row: `req.apiKey?.name || 'unknown'`. */
  function UsageLabel(auth: AuthOutcome): (caller: string)
    requires auth.Proceed?
    ensures caller != ""
    ensures caller == UnknownCaller || (auth.apiKey.Some? && caller == auth.apiKey.value.name)
    ensures auth.apiKey.None? ==> caller == UnknownCaller
    ensures auth.apiKey.Some? && auth.apiKey.value.name != "" ==> caller == auth.apiKey.value.name
  {
    if auth.apiKey.Some? && auth.apiKey.value.name != "" then auth.apiKey.value.name else UnknownCaller
  }

  /** What one /translate request does once authentication has decided: the
      response, the new cache table and the usage row it appends, if any. */
  datatype TranslateStep = TranslateStep(response: Response<Translation>, cacheRows: seq<CacheRow>,
                                         logged: Option<UsageRow>)

  function TranslateRoute(auth: AuthOutcome, config: CacheConfig, hash: string -> string, cacheRows: seq<CacheRow>,
                          body: TranslateBody, upstream: UpstreamRequest -> UpstreamReply,
                          now: nat, responseTime: nat): (step: TranslateStep)
    requires WellFormedCache(cacheRows)
    ensures WellFormedCache(step.cacheRows)
    ensures auth.Reject? ==> step.response == Fail(auth.error)
    ensures auth.Proceed? ==> (step.response == Fail(MissingParameter) <==> !Truthy(body.q) || !Truthy(body.target))
    ensures step.logged.Some? <==> auth.Proceed? && Truthy(body.q) && Truthy(body.target)
    ensures step.logged.None? ==> step.cacheRows == cacheRows
    ensures step.logged.Some? ==>
      && step.logged.value == UsageRow(UsageLabel(auth), TranslateEndpoint, now, responseTime, step.response.Respond?)
      && (step.response.Respond? || step.response == Fail(TranslationFailed))
    ensures step.response.Respond? ==> step.response.status == 200
  {
    if auth.Reject? then TranslateStep(Fail(auth.error), cacheRows, None)
    else if !Truthy(body.q) || !Truthy(body.target) then TranslateStep(Fail(MissingParameter), cacheRows, None)
    else
      var run := RunTranslate(config, hash, cacheRows, body.q.value, OrElse(body.source, DefaultSource),
                              body.target.value, TranslateOptions(body.format, body.alternatives), upstream, now);
      var response := match run.outcome
        case Ok(t) => Respond(200, t)
        case Err(_) => Fail(TranslationFailed);
      TranslateStep(response, run.rows,
                    Some(UsageRow(UsageLabel(auth), TranslateEndpoint, now, responseTime, response.Respond?)))
  }

  /** An answered /translate carries exactly what translate returned for the
      body's text, `source || 'auto'` and target. */
  lemma TranslateRouteRunsService(auth: AuthOutcome, config: CacheConfig, hash: string -> string,
                                  cacheRows: seq<CacheRow>, body: TranslateBody,
                                  upstream: UpstreamRequest -> UpstreamReply, now: nat, responseTime: nat)
    requires WellFormedCache(cacheRows)
    requires auth.Proceed? && Truthy(body.q) && Truthy(body.target)
    ensures var step := TranslateRoute(auth, config, hash, cacheRows, body, upstream, now, responseTime);
      var run := RunTranslate(config, hash, cacheRows, body.q.value, OrElse(body.source, DefaultSource),
                              body.target.value, TranslateOptions(body.format, body.alternatives), upstream, now);
      && step.cacheRows == run.rows
      && (step.response.Respond? <==> run.outcome.Ok?)
      && (run.outcome.Ok? ==> step.response.payload == run.outcome.value)
  {
  }

  /** Usage rows of /translate are labelled with the key's name, and a key's
      statistics select rows by its token: a translation made with a key whose
      name differs from its token never shows in that key's statistics. */
  lemma TranslationNotInKeyStats(auth: AuthOutcome, config: CacheConfig, hash: string -> string,
                                 cacheRows: seq<CacheRow>, body: TranslateBody,
                                 upstream: UpstreamRequest -> UpstreamReply, now: nat, responseTime: nat,
                                 keys: seq<ApiKeyRow>, usage: seq<UsageRow>, id: nat)
    requires WellFormedCache(cacheRows)
    requires GetApiKey(keys, id).Some?
    requires var row := GetApiKey(keys, id).value; row.name != row.key && row.key != UnknownCaller
    requires auth.Proceed? && auth.apiKey.Some? && auth.apiKey.value.name == GetApiKey(keys, id).value.name
    requires TranslateRoute(auth, config, hash, cacheRows, body, upstream, now, responseTime).logged.Some?
    ensures var u := TranslateRoute(auth, config, hash, cacheRows, body, upstream, now, responseTime).logged.value;
      GetKeyStats(keys, usage + [u], id) == GetKeyStats(keys, usage, id)
  {
    var u := TranslateRoute(auth, config, hash, cacheRows, body, upstream, now, responseTime).logged.value;
    AppendOtherLabelKeepsStats(usage, u, GetApiKey(keys, id).value.key);
  }

  /** POST /translate with its authenticateApiKey middleware. */
  method HandleTranslate(service: TranslationService, registry: ApiKeyService, usage: UsageTable,
                         master: Option<string>, creds: Credentials, body: TranslateBody,
                         upstream: UpstreamRequest -> UpstreamReply, now: nat, responseTime: nat)
    returns (response: Response<Translation>)
    requires service.Valid() && registry.Valid()
    modifies service, registry, usage
    ensures service.Valid() && registry.Valid()
    ensures registry.rows == RowsAfterAuthentication(old(registry.rows), master, creds, now)
    ensures registry.nextId == old(registry.nextId)
    ensures var step := TranslateRoute(Authentication(old(registry.rows), master, creds), service.config,
                                       service.hash, old(service.rows), body, upstream, now, responseTime);
      && response == step.response
      && service.rows == step.cacheRows
      && usage.rows == old(usage.rows) + (if step.logged.Some? then [step.logged.value] else [])
  {
    var auth := AuthenticateApiKey(registry, master, creds, now);
    if auth.Reject? {
      return Fail(auth.error);
    }
    if !Truthy(body.q) || !Truthy(body.target) {
      return Fail(MissingParameter);
    }
    var result := service.Translate(body.q.value, OrElse(body.source, DefaultSource), body.target.value,
                                    TranslateOptions(body.format, body.alternatives), upstream, now);
    if result.Ok? {
      response := Respond(200, result.value);
    } else {
      response := Fail(TranslationFailed);
    }
    usage.Record(UsageLabel(auth), TranslateEndpoint, now, responseTime, response.Respond?);
  }

  /** POST /detect: authenticated and validated like /translate, but it writes
      no usage row (the method is given no usage table) and touches no cache.
      The engine's detect call is `detector`: None when it fails. */
  method HandleDetect<D>(registry: ApiKeyService, master: Option<string>, creds: Credentials,
                         q: Option<string>, detector: string -> Option<D>, now: nat)
    returns (response: Response<D>)
    requires registry.Valid()
    modifies registry
    ensures registry.Valid()
    ensures registry.rows == RowsAfterAuthentication(old(registry.rows), master, creds, now)
    ensures registry.nextId == old(registry.nextId)
    ensures match Authentication(old(registry.rows), master, creds)
      case Reject(e) => response == Fail(e)
      case Proceed(_, _) =>
        if !Truthy(q) then response == Fail(MissingParameter)
        else if detector(q.value).None? then response == Fail(DetectionFailed)
        else response == Respond(200, detector(q.value).value)
  {
    var auth := AuthenticateApiKey(registry, master, creds, now);
    if auth.Reject? {
      return Fail(auth.error);
    }
    if !Truthy(q) {
      return Fail(MissingParameter);
    }
    var detected := detector(q.value);
    if detected.None? {
      response := Fail(DetectionFailed);
    } else {
      response := Respond(200, detected.value);
    }
  }

  /** GET /languages: open to everyone; it passes the engine's list through.
      `fetched` is the engine's answer, None when the call fails. */
  function HandleLanguages<L>(fetched: Option<L>): (response: Response<L>)
    ensures response.Respond? <==> fetched.Some?
    ensures response.Respond? ==> response == Respond(200, fetched.value)
    ensures response.Fail? ==> response.error == ServerError
  {
    match fetched
    case Some(languages) => Respond(200, languages)
    case None => Fail(ServerError)
  }

  /** GET /cache/stats: any valid key (or the admin) reads the statistics;
      the cache is not changed. */
  method HandleCacheStats(service: TranslationService, registry: ApiKeyService, master: Option<string>,
                          creds: Credentials, now: nat)
    returns (response: Response<CacheStats>)
    requires registry.Valid()
    modifies registry
    ensures registry.Valid()
    ensures registry.rows == RowsAfterAuthentication(old(registry.rows), master, creds, now)
    ensures registry.nextId == old(registry.nextId)
    ensures match Authentication(old(registry.rows), master, creds)
      case Reject(e) => response == Fail(e)
      case Proceed(_, _) => response == Respond(200, GetCacheStats(service.rows))
  {
    var auth := AuthenticateApiKey(registry, master, creds, now);
    if auth.Reject? {
      return Fail(auth.error);
    }
    response := Respond(200, GetCacheStats(service.rows));
  }

  /** DELETE /cache/clean: any valid key (or the admin) purges the expired
      rows; the answer reports how many were deleted. */
  method HandleCacheClean(service: TranslationService, registry: ApiKeyService, master: Option<string>,
                          creds: Credentials, now: nat)
    returns (response: Response<nat>)
    requires service.Valid() && registry.Valid()
    modifies service, registry
    ensures service.Valid() && registry.Valid()
    ensures registry.rows == RowsAfterAuthentication(old(registry.rows), master, creds, now)
    ensures registry.nextId == old(registry.nextId)
    ensures match Authentication(old(registry.rows), master, creds)
      case Reject(e) => response == Fail(e) && service.rows == old(service.rows)
      case Proceed(_, _) =>
        && service.rows == Purged(old(service.rows), service.config.ttl, now)
        && response == Respond(200, ExpiredCount(old(service.rows), service.config.ttl, now))
  {
    var auth := AuthenticateApiKey(registry, master, creds, now);
    if auth.Reject? {
      return Fail(auth.error);
    }
    var deleted := service.CleanExpiredCache(now);
    response := Respond(200, deleted);
  }
}
