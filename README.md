# LibreTranslate gateway: a Dafny model of its core

The gateway is an Express service in front of a LibreTranslate engine. It keeps
three SQLite tables. This project models the logic that reads and writes them,
together with the request layer that drives that logic:

- **Translation cache** (`translation_cache.dfy`, module `TranslationCache`).
  - The cache is keyed by the triple (hash of the text, source language, target language).
  - A read is lazy: a row is served only while `created_at + ttl > now`, and serving it bumps `access_count`.
  - A save is an `INSERT OR REPLACE` upsert.
  - The purge deletes the rows with `created_at + ttl < now`.
  - The statistics give the row count and the sum of the access counts.
  - The service's `translate` runs: live hit → return it; miss → upstream engine → save.
- **API-key registry** (`api_key_registry.dfy`, module `ApiKeyRegistry`). Keys get the `ltk_` prefix. The registry does:
  - create, validate (`usage_count + 1`, `last_used_at`) and list (newest first, masked by the route);
  - get, revoke, reactivate, delete, and allow-listed update;
  - per-key daily statistics drawn from the usage table.
- **Usage log** (`usage_log.dfy`, module `UsageLog`): the append-only `usage_stats` table and its per-day grouping (at most 30 days, newest first).
- **Authentication** (`auth.dfy`, module `Auth`):
  - the `x-admin-key` bypass;
  - the key search order: header `x-api-key`, then query `api_key`, then body `api_key`;
  - the 401 / 403 / proceed decision of `authenticateApiKey`;
  - `requireAdmin` and `optionalAuth`.
- **Translation routes** (`translation_routes.dfy`, module `TranslationRoutes`):
  - `/translate`: parameter check, source defaults to `auto`, and the one usage row written on success or failure;
  - `/detect`, `/languages`, `/cache/stats`, `/cache/clean`.
- **Key routes** (`key_routes.dfy`, module `KeyRoutes`): the admin-only `/api/keys` handlers. They cover:
  - create's validation;
  - the listing's key mask (JavaScript `substring` clamping included);
  - assembly of the PATCH `updates` object;
  - mapping a missing row to 404;
  - `/validate/current`.
- `wrappers.dfy` (JavaScript truthiness, `||` on strings, `Option`, `Result`) and `http.dfy` (error bodies and their status codes) are shared.

Modelling choices:

- **Tables.** Each table is a `seq` of rows in rowid order. Uniqueness and id order are invariants:
  - `WellFormedCache`: the UNIQUE triple, and every access count is at least 1;
  - `WellFormedKeys`: ids ascending and tokens unique;
  - each class's `Valid()` holds its table's invariant.
- **Transitions.** Every table change is a pure function on rows: `Touch`, `Upsert`, `Purged`, `AfterValidation`, `WithActiveFlag`, `WithoutId`, `Patched`. The lemmas are proved about these functions. The classes `TranslationService`, `ApiKeyService` and `UsageTable` hold the tables as fields, and each of their methods is tied to one of these functions in its `ensures`.
- **Time and randomness.** A request happens at one instant `now`, in seconds.
  - `DATE(timestamp)` is `now / 86400`.
  - SHA-256 is an uninterpreted function field; no property of it, not even injectivity, is relied on.
  - nanoid's output is a caller-supplied string `random`.
  - The engine's answers are function parameters.
- **Ids.** Route ids are modelled as numbers.
- **Usage rows.** A `/translate` request that fails the `q` / `target` check writes no usage row (routes/translation.js lines 17-22 return before the insert), and `/detect` never writes one.
- **Key statistics.** `GET /api/keys/:id/stats` is guarded by `requireAdmin` alone, although the comment above it (routes/apiKeys.js line 188) says "admin or owner".

## Model

| member | source | states |
|---|---|---|
| TranslationCache.ConfigFromEnv | backend/src/services/translationService.js:6-11 | caching is on exactly for the string "true"; the TTL is always positive: the parsed value when positive, otherwise 3600; the engine key defaults to "" |
| TranslationCache.LiveIndex | backend/src/services/translationService.js:23-32 | a row is found iff caching is on and a row with the triple has `createdAt + ttl > now`; the row found holds that triple and is live |
| TranslationCache.Touch | backend/src/services/translationService.js:34-41 | a hit adds exactly 1 to that row's access count and changes no other field and no other row |
| TranslationCache.Upsert | backend/src/services/translationService.js:55-67 | after a save the table holds exactly one row for the triple, the new one (last in rowid order); every other row is kept and uniqueness is preserved |
| TranslationCache.Purged | backend/src/services/translationService.js:206-214 | the purge keeps exactly the rows that are not past `createdAt + ttl < now`, keeps uniqueness, and the rows kept plus `ExpiredCount` make up the old table |
| TranslationCache.AccessesCoverEntries | backend/src/config/database.js:43 | because every row starts with access_count 1, the sum of access counts is at least the number of rows |
| TranslationCache.HitAddsOneAccess | backend/src/services/translationService.js:36-41 | a hit raises the table's total access count by exactly one |
| TranslationCache.GetCacheStats | backend/src/services/translationService.js:191-201 | total_entries is the row count; total_accesses is NULL exactly for an empty table and otherwise the sum of the access counts, which is at least total_entries |
| TranslationCache.UpstreamRequestFor | backend/src/services/translationService.js:82-93 | the engine receives the text, source and target unchanged; the given format (when non-empty) or "text"; the given alternatives or 0; api_key is sent iff one is configured, and it is the configured key |
| TranslationCache.RunTranslate | backend/src/services/translationService.js:72-119 | translate keeps the cache well formed; a thrown error leaves the table as it was; with caching off the table never changes |
| TranslationCache.BoundaryGap | backend/src/services/translationService.js:29 | a row whose age equals the TTL exactly is no longer served, yet the purge at line 209 keeps it |
| TranslationCache.PurgeKeepsLiveRows | backend/src/services/translationService.js:206-214 | no row the read could still serve is deleted by the purge |
| TranslationCache.SaveThenHit | backend/src/services/translationService.js:55-67 | a saved row is served to every read of its triple until its TTL runs out |
| TranslationCache.TranslateHitSkipsUpstream | backend/src/services/translationService.js:76-79 | on a live hit the engine's answer plays no part; the result is the stored text marked as cached, and only that row's access count changes |
| TranslationCache.TranslateMissSaves | backend/src/services/translationService.js:95-115 | on a miss with a reply, the result is the engine's text and detected language, not from cache, with the reply's alternatives or [] when it has none; with caching on the reply is upserted as a fresh row |
| TranslationCache.TranslateFailureKeepsCache | backend/src/services/translationService.js:116-118 | an engine failure is an error and the cache is unchanged |
| TranslationCache.DisabledCacheIsInert | backend/src/services/translationService.js:24 | with caching off nothing is served from the table and nothing is written to it |
| TranslationCache.RepeatWithinTTLHits | backend/src/services/translationService.js:72-115 | a second identical translate within the TTL is served from the cache with the first call's text, whatever the engine would say |
| TranslationCache.ExpiredEntryGoesUpstream | backend/src/services/translationService.js:29 | once a row's age reaches the TTL, translate no longer answers from the cache |
| TranslationCache.TranslationService.CheckCache | backend/src/services/translationService.js:23-50 | a live row is returned and touched; a missing or expired row is a miss that changes nothing (expired rows are not deleted) |
| TranslationCache.TranslationService.SaveToCache | backend/src/services/translationService.js:55-67 | with caching on the table becomes the upsert of a row created now with access count 1; with caching off it is unchanged |
| TranslationCache.TranslationService.Translate | backend/src/services/translationService.js:72-119 | the result and the new table are those of RunTranslate on the old table |
| TranslationCache.TranslationService.CleanExpiredCache | backend/src/services/translationService.js:206-214 | deletes exactly the purgeable rows and returns how many, so total_entries drops by the returned count |
| UsageLog.UsageTable.Record | backend/src/routes/translation.js:34-37 | one row is appended and nothing else changes |
| UsageLog.RowsFor | backend/src/services/apiKeyService.js:165 | the selection holds exactly the rows whose api_key column equals the given value |
| UsageLog.RowsForAppend | backend/src/services/apiKeyService.js:165 | a new row joins a key's selection only when it carries that key |
| UsageLog.SuccessesOn | backend/src/services/apiKeyService.js:160-161 | a day's successful requests never exceed its total requests |
| UsageLog.DaysNewestFirst | backend/src/services/apiKeyService.js:166-167 | the groups are the distinct days of the selected rows, strictly newest first |
| UsageLog.DailyStats | backend/src/services/apiKeyService.js:158-169 | at most 30 day groups are reported |
| UsageLog.DailyStatsGroups | backend/src/services/apiKeyService.js:158-169 | dates strictly decrease; every group counts at least one request and comes from a row carrying the key |
| UsageLog.DailyStatsComplete | backend/src/services/apiKeyService.js:166-168 | a day that has a row for the key is missing from the report only when 30 newer days fill it |
| UsageLog.StatsIgnoreOtherLabels | backend/src/services/apiKeyService.js:165 | rows carrying any other label contribute nothing to a key's statistics |
| UsageLog.AppendOtherLabelKeepsStats | backend/src/services/apiKeyService.js:165 | appending a row with another label leaves a key's statistics unchanged |
| ApiKeyRegistry.KeyLength | backend/src/services/apiKeyService.js:9 | the length is positive: the parsed setting when positive, otherwise 32 |
| ApiKeyRegistry.GenerateKey | backend/src/services/apiKeyService.js:8-11 | a key is `ltk_` followed by exactly `length` generated characters |
| ApiKeyRegistry.IndexOfId | backend/src/services/apiKeyService.js:88 | a row with the id is found iff one exists |
| ApiKeyRegistry.GetApiKey | backend/src/services/apiKeyService.js:87-90 | the result is present iff some row has the id, and it is that row |
| ApiKeyRegistry.ActiveIndex | backend/src/services/apiKeyService.js:41-46 | a row is found iff an active row holds exactly this key |
| ApiKeyRegistry.ValidationOf | backend/src/services/apiKeyService.js:40-70 | valid iff an active row holds the key; the info returned is that row's id, name and rate limit, with its usage count plus one |
| ApiKeyRegistry.AfterValidation | backend/src/services/apiKeyService.js:48-56 | the update keeps the table's size and its well-formedness |
| ApiKeyRegistry.ValidationTouchesOneRow | backend/src/services/apiKeyService.js:50-56 | a validation updates only the active row holding the key, giving it one more use and last_used_at = now; every other row is unchanged |
| ApiKeyRegistry.FailedValidationChangesNothing | backend/src/services/apiKeyService.js:69 | a failed validation, for an unknown or a revoked key alike, changes no row |
| ApiKeyRegistry.ValidateOnce | backend/src/services/apiKeyService.js:48-56 | validating the key of active row i replaces row i by its recorded use and nothing else |
| ApiKeyRegistry.WithActiveFlag | backend/src/services/apiKeyService.js:95-118 | revoke and reactivate set only is_active, and only on the row with the id |
| ApiKeyRegistry.WithoutId | backend/src/services/apiKeyService.js:123-127 | delete removes exactly the row with the id; the table shrinks by one iff the id existed |
| ApiKeyRegistry.ApplyPatch | backend/src/services/apiKeyService.js:132-147 | an update writes only name, description and rate_limit, each only when given; key, usage_count, is_active and the rest are untouched |
| ApiKeyRegistry.Patched | backend/src/services/apiKeyService.js:132-149 | with no allow-listed field nothing changes; otherwise only the row with the id is patched |
| ApiKeyRegistry.Visible | backend/src/services/apiKeyService.js:76-78 | the listing's filter keeps exactly the active rows, or every row when inactive ones are included |
| ApiKeyRegistry.InsertNewestCounts | backend/src/services/apiKeyService.js:77-78 | placing a row into the newest-first order adds exactly that row |
| ApiKeyRegistry.InsertNewestSorted | backend/src/services/apiKeyService.js:77-78 | placing a row keeps the order newest first |
| ApiKeyRegistry.SortNewestSpec | backend/src/services/apiKeyService.js:77-78 | ORDER BY created_at DESC yields a newest-first permutation of its input |
| ApiKeyRegistry.ListApiKeys | backend/src/services/apiKeyService.js:75-82 | the listing is newest first and holds each visible row exactly once: active rows only, unless inactive ones are included |
| ApiKeyRegistry.GetKeyStats | backend/src/services/apiKeyService.js:154-180 | null exactly for an unknown id; otherwise the key's id, name, usage count and last use, plus at most 30 day groups of the usage rows whose api_key equals the key's token |
| ApiKeyRegistry.RevokeThenValidateFails | backend/src/services/apiKeyService.js:95-104 | after a revoke the key no longer validates |
| ApiKeyRegistry.RevokeReactivateContinuesCount | backend/src/services/apiKeyService.js:109-118 | after revoke then reactivate the key validates again, and its usage count carries on |
| ApiKeyRegistry.ToggleIdempotent | backend/src/services/apiKeyService.js:95-118 | repeating a revoke or a reactivate leaves the table as the first call left it, and the id still exists, so it returns true again |
| ApiKeyRegistry.DeleteThenGetNone | backend/src/services/apiKeyService.js:123-127 | after a delete, getApiKey for that id returns nothing |
| ApiKeyRegistry.CreateThenValidate | backend/src/services/apiKeyService.js:16-35 | a freshly created key keeps the table well formed and validates at once, with usage count 1 |
| ApiKeyRegistry.SameNameKeysAreIndependent | backend/src/services/apiKeyService.js:16-35 | two keys created under the same name have distinct tokens and each validates to its own row |
| ApiKeyRegistry.ApiKeyService.constructor | backend/src/services/apiKeyService.js:9 | starts with an empty table, the first id 1, and the configured key length |
| ApiKeyRegistry.ApiKeyService.CreateApiKey | backend/src/services/apiKeyService.js:16-35 | appends one active, unused row with the next id, description defaulting to "" and rate limit to 1000, and returns the full key; a token already taken fails with the table unchanged |
| ApiKeyRegistry.ApiKeyService.ValidateApiKey | backend/src/services/apiKeyService.js:40-70 | answers ValidationOf on the old table and leaves AfterValidation of it |
| ApiKeyRegistry.ApiKeyService.RevokeApiKey | backend/src/services/apiKeyService.js:95-104 | returns true iff the id exists, even when the key is already revoked; clears is_active |
| ApiKeyRegistry.ApiKeyService.ReactivateApiKey | backend/src/services/apiKeyService.js:109-118 | returns true iff the id exists, even when the key is already active; sets is_active |
| ApiKeyRegistry.ApiKeyService.DeleteApiKey | backend/src/services/apiKeyService.js:123-127 | returns true iff the id existed and removes that row |
| ApiKeyRegistry.ApiKeyService.UpdateApiKey | backend/src/services/apiKeyService.js:132-149 | returns false without touching the table when no allow-listed field is given; otherwise true iff the id exists, with the patch applied |
| Auth.EmptyAdminHeaderNeverAdmin | backend/src/middleware/auth.js:9 | an absent or empty admin header never grants admin, even when the master key is unset or empty |
| Auth.PresentedKey | backend/src/middleware/auth.js:15 | the key is the x-api-key header, else the query api_key, else the body api_key, each only when non-empty |
| Auth.Authentication | backend/src/middleware/auth.js:6-39 | proceeds iff it is the master key or an active key was presented; admin iff the master key; a non-admin gets exactly the info validateApiKey returned for the presented key; otherwise 401 when no key was presented, 403 when one was |
| Auth.AuthenticateApiKey | backend/src/middleware/auth.js:6-39 | the outcome is Authentication's; the registry changes by one validation exactly when no admin bypass happened and a key was presented |
| Auth.AdminBypassIgnoresRegistry | backend/src/middleware/auth.js:8-12 | with the admin bypass the outcome does not depend on the registry, and the registry is not written |
| Auth.ProceedMetersOnce | backend/src/middleware/auth.js:25-36 | a non-admin request that proceeds has had its key's row metered once, and the attached info reports the new usage count |
| Auth.RequireAdmin | backend/src/middleware/auth.js:44-56 | passes exactly a non-empty admin header equal to the master key, as admin with no key info; otherwise 403 |
| Auth.OptionalKey | backend/src/middleware/auth.js:62 | optionalAuth's key is chosen like authenticateApiKey's with the body field ignored |
| Auth.OptionalAuth | backend/src/middleware/auth.js:61-72 | never rejects; with no key nothing changes; with a key, one validation, and key info only when it is valid |
| TranslationRoutes.UsageLabel | backend/src/routes/translation.js:37 | the label is the key's name whenever the key info has a non-empty name, and "unknown" without key info or with an empty name; never empty |
| TranslationRoutes.TranslateRoute | backend/src/routes/translation.js:10-52 | a rejected request gets the auth error; a missing q or target is a 400 with no usage row and no cache change; otherwise exactly one usage row ("/translate", success 1 with a 200, or success 0 with a 500) |
| TranslationRoutes.TranslateRouteRunsService | backend/src/routes/translation.js:25-30 | an answered /translate carries exactly translate's result for q, `source` defaulting to "auto", and target |
| TranslationRoutes.TranslationNotInKeyStats | backend/src/routes/translation.js:34-37 | a /translate usage row is labelled with the key's name, so it never shows in the statistics of that key, which select by token (apiKeyService.js line 178) |
| TranslationRoutes.HandleTranslate | backend/src/routes/translation.js:10-52 | authentication, then TranslateRoute: the response, the new cache and the usage rows appended are TranslateRoute's |
| TranslationRoutes.HandleDetect | backend/src/routes/translation.js:57-76 | auth error, else 400 without q, else 500 when detection fails, else 200 with the engine's answer; no usage row, no cache change |
| TranslationRoutes.HandleLanguages | backend/src/routes/translation.js:81-91 | no authentication; 200 with the engine's list, or 500 when the call fails |
| TranslationRoutes.HandleCacheStats | backend/src/routes/translation.js:96-106 | needs a valid key or the admin; answers the cache statistics and changes no cache row |
| TranslationRoutes.HandleCacheClean | backend/src/routes/translation.js:111-124 | needs a valid key or the admin; purges the cache and answers the number of rows deleted |
| KeyRoutes.Substring | backend/src/routes/apiKeys.js:45 | JavaScript substring: both ends are clamped to the string and swapped when reversed |
| KeyRoutes.MaskLongKey | backend/src/routes/apiKeys.js:45 | a key of 14 or more characters is shown as its first 10, "...", its last 4: 17 characters in all |
| KeyRoutes.MaskShortKey | backend/src/routes/apiKeys.js:45 | a key of at most 4 characters is shown in full, twice, around "..." |
| KeyRoutes.MaskGeneratedKey | backend/src/routes/apiKeys.js:45 | a default-length generated key shows `ltk_`, 6 random characters, "..." and the last 4; 22 stay hidden |
| KeyRoutes.MaskLength | backend/src/routes/apiKeys.js:45 | the mask is never longer than 17 characters |
| KeyRoutes.MaskRow | backend/src/routes/apiKeys.js:43-46 | only the key column changes, to its mask |
| KeyRoutes.HandleCreate | backend/src/routes/apiKeys.js:9-32 | 403 without the master key; 400 without a non-empty name, creating nothing; 201 with the full key read from `rateLimit`, the row appended and the next id advanced by one; 500 when the insert fails, with the table and the next id unchanged |
| KeyRoutes.HandleList | backend/src/routes/apiKeys.js:37-55 | 403 without the master key; otherwise 200 with the listing, each row masked, in the same order |
| KeyRoutes.ListingShowsVisibleKeys | backend/src/routes/apiKeys.js:37-48 | the listing is newest first and shows, masked, exactly the active keys, or every key for include_inactive=true |
| KeyRoutes.ListingHidesLongKeys | backend/src/routes/apiKeys.js:43-46 | no key longer than 17 characters appears in the listing in full |
| KeyRoutes.HandleGet | backend/src/routes/apiKeys.js:60-78 | 403 without the master key, 404 for an unknown id, otherwise 200 with the whole row, key unmasked |
| KeyRoutes.PatchFromBody | backend/src/routes/apiKeys.js:85-90 | the update takes name only when non-empty, and description and rate_limit whenever present; `rateLimit` is not read |
| KeyRoutes.CamelRateLimitIgnoredByPatch | backend/src/routes/apiKeys.js:85-99 | a PATCH that spells the limit `rateLimit` (as create does) changes nothing and is answered 404 even for an existing key |
| KeyRoutes.EmptyNameNotWritten | backend/src/routes/apiKeys.js:88 | an empty name in a PATCH never reaches the table |
| KeyRoutes.PatchResponse | backend/src/routes/apiKeys.js:92-103 | 200 iff admitted, with an allow-listed field, for an existing id; otherwise 404, or 403 without the master key |
| KeyRoutes.HandlePatch | backend/src/routes/apiKeys.js:83-110 | answers PatchResponse and applies the patch only when admitted |
| KeyRoutes.ByIdResponse | backend/src/routes/apiKeys.js:119-124 | 200 iff admitted and the id exists; otherwise 404, or 403 without the master key |
| KeyRoutes.HandleRevoke | backend/src/routes/apiKeys.js:115-135 | answers ByIdResponse and clears is_active only when admitted |
| KeyRoutes.HandleReactivate | backend/src/routes/apiKeys.js:140-160 | answers ByIdResponse and sets is_active only when admitted |
| KeyRoutes.HandleDelete | backend/src/routes/apiKeys.js:165-185 | answers ByIdResponse and deletes the row only when admitted |
| KeyRoutes.RevokeTwiceSucceedsTwice | backend/src/routes/apiKeys.js:115-135 | a repeated revoke is answered 200 both times, and the second leaves the table as the first left it |
| KeyRoutes.HandleStats | backend/src/routes/apiKeys.js:190-208 | admin only; 404 for an unknown id, otherwise 200 with getKeyStats |
| KeyRoutes.HandleValidateCurrent | backend/src/routes/apiKeys.js:213-218 | the auth error, or 200 with the attached key info (none for the admin); the call itself counts as one validation |

## Left out

- Network calls to the engine (`translate`, `detect`, `getLanguages`): axios, the URL, the request headers and the 10 s / 30 s timeouts. The engine's answers are function parameters, and a transport error, HTTP error status or timeout is one `TransportError`.
- `translateFile` and `routes/files.js`, file translation through multer: a pass-through to the engine.
- `index.js` (Express wiring, helmet, cors, morgan, the global express-rate-limit limiter, the error handler, listen), `scripts/initDb.js`, and the database opening and WAL pragma in `config/database.js`. Only the table definitions of `config/database.js` are used: row shapes, UNIQUE constraints and defaults.
- SHA-256 and nanoid: the hash is an uninterpreted function and the generator's output is a parameter. A freshly generated token that collides with an existing one is modelled as the failed insert the UNIQUE constraint would cause.
- `AVG(access_count)` in the cache statistics and `AVG(response_time)` in the daily statistics: floating point.
- SQLite datetime text and `datetime('now')`: timestamps are seconds, and one request sees one `now`. `responseTime` is a parameter.
- Request fields that are JSON null, numbers where strings are expected, or ids that are not integers. A missing field is `None`; only the shapes the handlers destructure are modelled.
- Unparsable or negative environment settings (`CACHE_TTL_SECONDS`, `API_KEY_LENGTH`): the parsed value is given as a natural number, or as `None` when `parseInt` yields NaN.
- Concurrency: better-sqlite3 is synchronous and handlers run one at a time, so every operation is one atomic step.
- Quota enforcement: the code never enforces `rate_limit`, and neither does the model.
- Handler-level `catch` blocks for database errors other than the cache's NOT NULL constraint and the token's UNIQUE constraint.
- ApiKeyRegistry.ValidateOnce: covers one validation step only. Repeated validations of the same key are not stated as one closed formula.
- Tables are sequences in rowid order rather than maps keyed by id, so that COUNT, SUM, ORDER BY and the grouping can be defined over them.
- An engine reply without `translatedText` is not rejected by the service itself. With caching on, the upsert then breaks the NOT NULL constraint on `translated_text` (config/database.js line 41), and the model reports this as a failed translate (`CacheWriteRejected`) with the table unchanged.
