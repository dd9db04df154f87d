/** The translation cache: the translation_cache table with its lazy-expiry
    read, its upsert and its purge, and the service's translate flow around the
    upstream translation engine. */
module TranslationCache {
  import opened Wrappers

  const DefaultCacheTTL: nat := 3600

  /** The service's settings: caching on or off, the entry lifetime in seconds,
      and the key forwarded to the upstream engine ("" for none). */
  datatype CacheConfig = CacheConfig(enabled: bool, ttl: nat, upstreamApiKey: string)

  /** CACHE_ENABLED must be exactly "true"; CACHE_TTL_SECONDS goes through
      `parseInt(..) || 3600` (`ttlSeconds` is the parsed number, None for a
      missing or unparsable value); LIBRETRANSLATE_API_KEY defaults to "". */
  function ConfigFromEnv(cacheEnabled: Option<string>, ttlSeconds: Option<nat>,
                         upstreamApiKey: Option<string>): (c: CacheConfig)
    ensures c.enabled <==> cacheEnabled == Some("true")
    ensures c.ttl > 0
    ensures ttlSeconds.Some? && ttlSeconds.value > 0 ==> c.ttl == ttlSeconds.value
    ensures ttlSeconds.None? || ttlSeconds == Some(0) ==> c.ttl == DefaultCacheTTL
    ensures upstreamApiKey.Some? ==> c.upstreamApiKey == upstreamApiKey.value
    ensures upstreamApiKey.None? ==> c.upstreamApiKey == ""
  {
    CacheConfig(cacheEnabled == Some("true"),
                if ttlSeconds.Some? && ttlSeconds.value > 0 then ttlSeconds.value else DefaultCacheTTL,
                if upstreamApiKey.Some? then upstreamApiKey.value else "")
  }

  /** The table's unique index (text_hash, source_lang, target_lang). */
  datatype CacheKey = CacheKey(textHash: string, sourceLang: string, targetLang: string)

  /** One translation_cache row. */
  datatype CacheRow = CacheRow(key: CacheKey, originalText: string, translatedText: string,
                               createdAt: nat, accessCount: nat)

  /** The read's freshness test: created_at + ttl > now. */
  predicate IsLive(row: CacheRow, ttl: nat, now: nat)
  {
    row.createdAt + ttl > now
  }

  /** The purge's deletion test: created_at + ttl < now. */
  predicate IsPurgeable(row: CacheRow, ttl: nat, now: nat)
  {
    row.createdAt + ttl < now
  }

  predicate UniqueKeys(rows: seq<CacheRow>)
  {
    forall i, j :: 0 <= i < j < |rows| ==> rows[i].key != rows[j].key
  }

  /** The table's invariant: the UNIQUE constraint, and access_count starts at 1
      and only grows. */
  predicate WellFormedCache(rows: seq<CacheRow>)
  {
    UniqueKeys(rows) && forall x :: x in rows ==> x.accessCount >= 1
  }

  /** Position of the row with key `k`, if any. */
  function FindKey(rows: seq<CacheRow>, k: CacheKey): (r: Option<nat>)
    ensures r.Some? ==> r.value < |rows| && rows[r.value].key == k
    ensures r.None? <==> forall i :: 0 <= i < |rows| ==> rows[i].key != k
  {
    if rows == [] then None
    else if rows[0].key == k then Some(0)
    else match FindKey(rows[1..], k)
      case None =>
        assert forall i :: 1 <= i < |rows| ==> rows[i] == rows[1..][i - 1];
        None
      case Some(j) => Some(j + 1)
  }

  /** The cache read's SELECT: the row for `k` that is still live at `now`;
      nothing at all while caching is off. */
  function LiveIndex(rows: seq<CacheRow>, enabled: bool, k: CacheKey, ttl: nat, now: nat): (r: Option<nat>)
    requires UniqueKeys(rows)
    ensures r.Some? ==> r.value < |rows| && rows[r.value].key == k && IsLive(rows[r.value], ttl, now)
    ensures r.Some? <==> enabled && exists i :: 0 <= i < |rows| && rows[i].key == k && IsLive(rows[i], ttl, now)
  {
    if !enabled then None
    else match FindKey(rows, k)
      case None => None
      case Some(i) => if IsLive(rows[i], ttl, now) then Some(i) else None
  }

  /** The hit's UPDATE: access_count + 1 on row `i`, nothing else. */
  function Touch(rows: seq<CacheRow>, i: nat): (r: seq<CacheRow>)
    requires i < |rows|
    ensures |r| == |rows|
    ensures r[i].accessCount == rows[i].accessCount + 1
    ensures r[i].(accessCount := rows[i].accessCount) == rows[i]
    ensures forall j :: 0 <= j < |rows| && j != i ==> r[j] == rows[j]
  {
    rows[i := rows[i].(accessCount := rows[i].accessCount + 1)]
  }

  /** The rows whose key is not `k`, in table order. */
  function RemoveKey(rows: seq<CacheRow>, k: CacheKey): (r: seq<CacheRow>)
    ensures forall x :: x in r <==> x in rows && x.key != k
    ensures UniqueKeys(rows) ==> UniqueKeys(r)
  {
    if rows == [] then []
    else
      var rest := RemoveKey(rows[1..], k);
      if rows[0].key == k then rest
      else
        assert UniqueKeys(rows) ==> forall x :: x in rest ==> x.key != rows[0].key;
        [rows[0]] + rest
  }

  /** INSERT OR REPLACE: the row holding the same triple is replaced by `row`,
      which takes a new rowid and so goes last. */
  function Upsert(rows: seq<CacheRow>, row: CacheRow): (r: seq<CacheRow>)
    requires UniqueKeys(rows)
    ensures UniqueKeys(r)
    ensures |r| > 0 && r[|r| - 1] == row
    ensures forall i :: 0 <= i < |r| - 1 ==> r[i].key != row.key
    ensures forall x :: x in r <==> x == row || (x in rows && x.key != row.key)
  {
    var rest := RemoveKey(rows, row.key);
    assert forall i :: 0 <= i < |rest| ==> rest[i] in rest;
    rest + [row]
  }

  /** Number of rows the purge deletes at `now`. */
  function ExpiredCount(rows: seq<CacheRow>, ttl: nat, now: nat): nat
  {
    if rows == [] then 0
    else (if IsPurgeable(rows[0], ttl, now) then 1 else 0) + ExpiredCount(rows[1..], ttl, now)
  }

  /** The purge's DELETE: exactly the purgeable rows go, the others stay in order. */
  function Purged(rows: seq<CacheRow>, ttl: nat, now: nat): (r: seq<CacheRow>)
    ensures forall x :: x in r <==> x in rows && !IsPurgeable(x, ttl, now)
    ensures UniqueKeys(rows) ==> UniqueKeys(r)
    ensures |r| + ExpiredCount(rows, ttl, now) == |rows|
  {
    if rows == [] then []
    else
      var rest := Purged(rows[1..], ttl, now);
      if IsPurgeable(rows[0], ttl, now) then rest
      else
        assert UniqueKeys(rows) ==> forall x :: x in rest ==> x.key != rows[0].key;
        [rows[0]] + rest
  }

  function SumAccesses(rows: seq<CacheRow>): nat
  {
    if rows == [] then 0 else rows[0].accessCount + SumAccesses(rows[1..])
  }

  lemma {:induction false} AccessesCoverEntries(rows: seq<CacheRow>)
    requires forall x :: x in rows ==> x.accessCount >= 1
    ensures SumAccesses(rows) >= |rows|
  {
    if rows != [] {
      assert forall x :: x in rows[1..] ==> x in rows;
      AccessesCoverEntries(rows[1..]);
    }
  }

  /** A hit adds exactly one to the table's total access count. */
  lemma {:induction false} HitAddsOneAccess(rows: seq<CacheRow>, i: nat)
    requires i < |rows|
    ensures SumAccesses(Touch(rows, i)) == SumAccesses(rows) + 1
  {
    if i > 0 {
      assert Touch(rows, i)[1..] == Touch(rows[1..], i - 1);
      HitAddsOneAccess(rows[1..], i - 1);
    }
  }

  /** COUNT(*) and SUM(access_count); SQL's SUM over no rows is NULL (None).
      AVG is not modelled. */
  datatype CacheStats = CacheStats(totalEntries: nat, totalAccesses: Option<nat>)

  function GetCacheStats(rows: seq<CacheRow>): (s: CacheStats)
    ensures s.totalEntries == |rows|
    ensures s.totalAccesses.None? <==> rows == []
    ensures rows != [] ==> s.totalAccesses == Some(SumAccesses(rows))
    ensures WellFormedCache(rows) && rows != [] ==> s.totalAccesses.value >= s.totalEntries
  {
    if rows == [] then CacheStats(0, None)
    else
      assert WellFormedCache(rows) ==> SumAccesses(rows) >= |rows| by {
        if WellFormedCache(rows) { AccessesCoverEntries(rows); }
      }
      CacheStats(|rows|, Some(SumAccesses(rows)))
  }

  /** The `format` and `alternatives` options of a translate call. */
  datatype TranslateOptions = TranslateOptions(format: Option<string>, alternatives: Option<nat>)

  /** The JSON body posted to the engine's /translate endpoint. */
  datatype UpstreamRequest = UpstreamRequest(q: string, source: string, target: string, format: string,
                                             alternatives: nat, apiKey: Option<string>)

  /** What the engine answers: a reply body (any of its fields may be missing),
      or an error (HTTP error status, network failure or 30-second timeout). */
  datatype UpstreamReply =
    | Replied(translatedText: Option<string>, detectedLanguage: Option<string>, alternatives: Option<seq<string>>)
    | TransportError

  /** A translate result: from the cache it carries only the text; from the
      engine it carries what the engine said, with `alternatives` defaulting to []. */
  datatype Translation =
    | Cached(cachedText: string)
    | Fresh(translatedText: Option<string>, detectedLanguage: Option<string>, alternatives: seq<string>)
  {
    predicate FromCache()
    {
      Cached?
    }
  }

  /** Why translate throws: the engine failed, or the cache write of a reply
      without translatedText broke the NOT NULL constraint. */
  datatype TranslateError = UpstreamFailed | CacheWriteRejected

  datatype TranslateRun = TranslateRun(outcome: Result<Translation, TranslateError>, rows: seq<CacheRow>)

  /** The request body built for the engine: format defaults to "text",
      alternatives to 0, and the api_key is added only when one is configured. */
  function UpstreamRequestFor(config: CacheConfig, text: string, source: string, target: string,
                              options: TranslateOptions): (req: UpstreamRequest)
    ensures req.q == text && req.source == source && req.target == target
    ensures req.format == (if Truthy(options.format) then options.format.value else "text")
    ensures req.alternatives == (if options.alternatives.Some? then options.alternatives.value else 0)
    ensures req.apiKey.Some? <==> config.upstreamApiKey != ""
    ensures req.apiKey.Some? ==> req.apiKey.value == config.upstreamApiKey
  {
    UpstreamRequest(text, source, target, OrElse(options.format, "text"),
                    if options.alternatives.Some? then options.alternatives.value else 0,
                    if config.upstreamApiKey != "" then Some(config.upstreamApiKey) else None)
  }

  /** The whole translate call on the cache table: the cached text on a live
      hit (the engine is not asked), else one engine call whose reply is saved
      and returned. */
  function RunTranslate(config: CacheConfig, hash: string -> string, rows: seq<CacheRow>,
                        text: string, source: string, target: string, options: TranslateOptions,
                        upstream: UpstreamRequest -> UpstreamReply, now: nat): (run: TranslateRun)
    requires WellFormedCache(rows)
    ensures WellFormedCache(run.rows)
    ensures run.outcome.Err? ==> run.rows == rows
    ensures !config.enabled ==> run.rows == rows
  {
    var k := CacheKey(hash(text), source, target);
    match LiveIndex(rows, config.enabled, k, config.ttl, now)
    case Some(i) =>
      assert forall x :: x in Touch(rows, i) ==> x in rows || x == Touch(rows, i)[i];
      TranslateRun(Ok(Cached(rows[i].translatedText)), Touch(rows, i))
    case None =>
      match upstream(UpstreamRequestFor(config, text, source, target, options))
      case TransportError => TranslateRun(Err(UpstreamFailed), rows)
      case Replied(translated, detected, alternatives) =>
        if config.enabled && translated.None? then TranslateRun(Err(CacheWriteRejected), rows)
        else
          var saved := if config.enabled then Upsert(rows, CacheRow(k, text, translated.value, now, 1)) else rows;
          TranslateRun(Ok(Fresh(translated, detected, if alternatives.Some? then alternatives.value else [])), saved)
  }

  /** An entry whose age is exactly the TTL is no longer served, yet the purge
      keeps it: the read tests `>` and the purge tests `<`. */
  lemma BoundaryGap(rows: seq<CacheRow>, i: nat, ttl: nat, now: nat)
    requires UniqueKeys(rows) && i < |rows|
    requires rows[i].createdAt + ttl == now
    ensures LiveIndex(rows, true, rows[i].key, ttl, now).None?
    ensures rows[i] in Purged(rows, ttl, now)
  {
    assert rows[i] in rows;
  }

  /** Every row the read can still serve survives the purge. */
  lemma PurgeKeepsLiveRows(rows: seq<CacheRow>, ttl: nat, now: nat)
    ensures forall x :: x in rows && IsLive(x, ttl, now) ==> x in Purged(rows, ttl, now)
  {
  }

  /** A row just written is served to every read of its triple until its TTL runs out. */
  lemma SaveThenHit(rows: seq<CacheRow>, row: CacheRow, ttl: nat, now: nat)
    requires UniqueKeys(rows)
    requires row.createdAt <= now < row.createdAt + ttl
    ensures var r := Upsert(rows, row);
      LiveIndex(r, true, row.key, ttl, now) == Some(|r| - 1)
  {
  }

  /** On a live hit the engine is not consulted: the run is the same whatever
      the engine would answer, and returns the stored text with fromCache. */
  lemma TranslateHitSkipsUpstream(config: CacheConfig, hash: string -> string, rows: seq<CacheRow>,
                                  text: string, source: string, target: string, options: TranslateOptions,
                                  upstream1: UpstreamRequest -> UpstreamReply,
                                  upstream2: UpstreamRequest -> UpstreamReply, now: nat)
    requires WellFormedCache(rows)
    requires LiveIndex(rows, config.enabled, CacheKey(hash(text), source, target), config.ttl, now).Some?
    ensures var i := LiveIndex(rows, config.enabled, CacheKey(hash(text), source, target), config.ttl, now).value;
      var run := RunTranslate(config, hash, rows, text, source, target, options, upstream1, now);
      && run == RunTranslate(config, hash, rows, text, source, target, options, upstream2, now)
      && run.outcome == Ok(Cached(rows[i].translatedText))
      && run.rows == Touch(rows, i)
  {
  }

  /** On a miss the engine's reply is returned with fromCache false and
      alternatives defaulting to [], and (caching on) saved as a fresh row. */
  lemma TranslateMissSaves(config: CacheConfig, hash: string -> string, rows: seq<CacheRow>,
                           text: string, source: string, target: string, options: TranslateOptions,
                           upstream: UpstreamRequest -> UpstreamReply, now: nat, translated: string)
    requires WellFormedCache(rows)
    requires LiveIndex(rows, config.enabled, CacheKey(hash(text), source, target), config.ttl, now).None?
    requires upstream(UpstreamRequestFor(config, text, source, target, options)).Replied?
    requires upstream(UpstreamRequestFor(config, text, source, target, options)).translatedText == Some(translated)
    ensures var reply := upstream(UpstreamRequestFor(config, text, source, target, options));
      var run := RunTranslate(config, hash, rows, text, source, target, options, upstream, now);
      && run.outcome.Ok? && !run.outcome.value.FromCache()
      && run.outcome.value.translatedText == Some(translated)
      && run.outcome.value.detectedLanguage == reply.detectedLanguage
      && (reply.alternatives.None? ==> run.outcome.value.alternatives == [])
      && (reply.alternatives.Some? ==> run.outcome.value.alternatives == reply.alternatives.value)
      && (config.enabled ==>
            run.rows == Upsert(rows, CacheRow(CacheKey(hash(text), source, target), text, translated, now, 1)))
  {
  }

  /** An engine failure is reported and the cache is left as it was. */
  lemma TranslateFailureKeepsCache(config: CacheConfig, hash: string -> string, rows: seq<CacheRow>,
                                   text: string, source: string, target: string, options: TranslateOptions,
                                   upstream: UpstreamRequest -> UpstreamReply, now: nat)
    requires WellFormedCache(rows)
    requires LiveIndex(rows, config.enabled, CacheKey(hash(text), source, target), config.ttl, now).None?
    requires upstream(UpstreamRequestFor(config, text, source, target, options)).TransportError?
    ensures RunTranslate(config, hash, rows, text, source, target, options, upstream, now)
            == TranslateRun(Err(UpstreamFailed), rows)
  {
  }

  /** With caching off nothing is ever served from or written to the table. */
  lemma DisabledCacheIsInert(config: CacheConfig, hash: string -> string, rows: seq<CacheRow>,
                             text: string, source: string, target: string, options: TranslateOptions,
                             upstream: UpstreamRequest -> UpstreamReply, now: nat)
    requires WellFormedCache(rows) && !config.enabled
    ensures var run := RunTranslate(config, hash, rows, text, source, target, options, upstream, now);
      run.rows == rows && !(run.outcome.Ok? && run.outcome.value.FromCache())
  {
  }

  /** The same translate repeated within the TTL is served from the cache with
      the first call's text, whatever the engine would say the second time. */
  lemma RepeatWithinTTLHits(config: CacheConfig, hash: string -> string, rows: seq<CacheRow>,
                            text: string, source: string, target: string, options: TranslateOptions,
                            upstream1: UpstreamRequest -> UpstreamReply,
                            upstream2: UpstreamRequest -> UpstreamReply, t1: nat, t2: nat)
    requires WellFormedCache(rows) && config.enabled
    requires t1 <= t2 < t1 + config.ttl
    requires var first := RunTranslate(config, hash, rows, text, source, target, options, upstream1, t1);
      first.outcome.Ok? && first.outcome.value.Fresh?
    ensures var first := RunTranslate(config, hash, rows, text, source, target, options, upstream1, t1);
      var second := RunTranslate(config, hash, first.rows, text, source, target, options, upstream2, t2);
      first.outcome.value.translatedText.Some?
      && second.outcome == Ok(Cached(first.outcome.value.translatedText.value))
  {
    var k := CacheKey(hash(text), source, target);
    var first := RunTranslate(config, hash, rows, text, source, target, options, upstream1, t1);
    var translated := upstream1(UpstreamRequestFor(config, text, source, target, options)).translatedText.value;
    SaveThenHit(rows, CacheRow(k, text, translated, t1, 1), config.ttl, t2);
  }

  /** Once an entry's age reaches the TTL, translate goes back to the engine. */
  lemma ExpiredEntryGoesUpstream(config: CacheConfig, hash: string -> string, rows: seq<CacheRow>,
                                 text: string, source: string, target: string, options: TranslateOptions,
                                 upstream: UpstreamRequest -> UpstreamReply, now: nat, i: nat)
    requires WellFormedCache(rows) && i < |rows|
    requires rows[i].key == CacheKey(hash(text), source, target)
    requires rows[i].createdAt + config.ttl <= now
    ensures var run := RunTranslate(config, hash, rows, text, source, target, options, upstream, now);
      !(run.outcome.Ok? && run.outcome.value.FromCache())
  {
    assert LiveIndex(rows, config.enabled, rows[i].key, config.ttl, now).None?;
  }

  /** The translation service object: its settings, its hash function and the
      cache table it reads and writes. */
  class TranslationService {
    const config: CacheConfig
    /** SHA-256 as hex; no property of it is relied on (not even injectivity). */
    const hash: string -> string
    var rows: seq<CacheRow>

    ghost predicate Valid()
      reads this
    {
      WellFormedCache(rows)
    }

    constructor (config: CacheConfig, hash: string -> string)
      ensures Valid() && rows == []
      ensures this.config == config && this.hash == hash
    {
      this.config := config;
      this.hash := hash;
      rows := [];
    }

    /** The cache read: a live row for the triple is served and its access
        count bumped; a missing or expired row is a miss that changes nothing. */
    method CheckCache(textHash: string, sourceLang: string, targetLang: string, now: nat)
      returns (cached: Option<string>)
      requires Valid()
      modifies this
      ensures Valid()
      ensures match LiveIndex(old(rows), config.enabled, CacheKey(textHash, sourceLang, targetLang), config.ttl, now)
        case None => cached == None && rows == old(rows)
        case Some(i) => cached == Some(old(rows)[i].translatedText) && rows == Touch(old(rows), i)
    {
      if !config.enabled {
        return None;
      }
      var found := FindKey(rows, CacheKey(textHash, sourceLang, targetLang));
      if found.Some? && IsLive(rows[found.value], config.ttl, now) {
        var i := found.value;
        cached := Some(rows[i].translatedText);
        assert forall x :: x in Touch(rows, i) ==> x in rows || x == Touch(rows, i)[i];
        rows := Touch(rows, i);
      } else {
        cached := None;
      }
    }

    /** The cache write: with caching on, the triple's row is replaced by a new
        one created now with access_count 1; with caching off, nothing. */
    method SaveToCache(text: string, sourceLang: string, targetLang: string, translatedText: string, now: nat)
      requires Valid()
      modifies this
      ensures Valid()
      ensures config.enabled ==>
        rows == Upsert(old(rows), CacheRow(CacheKey(hash(text), sourceLang, targetLang), text, translatedText, now, 1))
      ensures !config.enabled ==> rows == old(rows)
    {
      if !config.enabled {
        return;
      }
      var textHash := hash(text);
      rows := Upsert(rows, CacheRow(CacheKey(textHash, sourceLang, targetLang), text, translatedText, now, 1));
    }

    method Translate(text: string, sourceLang: string, targetLang: string, options: TranslateOptions,
                     upstream: UpstreamRequest -> UpstreamReply, now: nat)
      returns (result: Result<Translation, TranslateError>)
      requires Valid()
      modifies this
      ensures Valid()
      ensures TranslateRun(result, rows) == RunTranslate(config, hash, old(rows), text, sourceLang, targetLang, options, upstream, now)
    {
      var textHash := hash(text);
      var cached := CheckCache(textHash, sourceLang, targetLang, now);
      if cached.Some? {
        return Ok(Cached(cached.value));
      }
      var reply := upstream(UpstreamRequestFor(config, text, sourceLang, targetLang, options));
      match reply
      case TransportError =>
        result := Err(UpstreamFailed);
      case Replied(translated, detected, alternatives) =>
        if translated.None? {
          if config.enabled {
            // the NOT NULL constraint rejects the insert and the error is rethrown
            return Err(CacheWriteRejected);
          }
        } else {
          SaveToCache(text, sourceLang, targetLang, translated.value, now);
        }
        result := Ok(Fresh(translated, detected, if alternatives.Some? then alternatives.value else []));
    }

    /** The purge: deletes the purgeable rows and reports how many it deleted. */
    method CleanExpiredCache(now: nat) returns (deleted: nat)
      requires Valid()
      modifies this
      ensures Valid()
      ensures rows == Purged(old(rows), config.ttl, now)
      ensures deleted == ExpiredCount(old(rows), config.ttl, now)
      ensures GetCacheStats(rows).totalEntries + deleted == GetCacheStats(old(rows)).totalEntries
    {
      var kept := Purged(rows, config.ttl, now);
      deleted := |rows| - |kept|;
      rows := kept;
    }
  }
}
