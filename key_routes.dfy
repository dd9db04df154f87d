/** The key-management routes under /api/keys: every one is for the admin only,
    except /validate/current, which any valid key may call. */
module KeyRoutes {
  import opened Wrappers
  import opened Http
  import opened UsageLog
  import opened ApiKeyRegistry
  import opened Auth

  /** The fields of a /api/keys JSON body. Creation reads the camel-case
      `rateLimit`, an update reads the column-style `rate_limit`; the two are
      kept apart here as `rateLimitCamel` and `rateLimitSnake`. */
  datatype KeyBody = KeyBody(name: Option<string>, description: Option<string>,
                             rateLimitCamel: Option<int>, rateLimitSnake: Option<int>)

  /** JavaScript's String.prototype.substring: both ends are clamped to
      [0, |s|] and swapped when given in the wrong order. */
  function Substring(s: string, start: int, end: int): (r: string)
    ensures var lo := Max(0, Min(Min(start, end), |s|));
      var hi := Max(0, Min(Max(start, end), |s|));
      lo <= hi && r == s[lo..hi]
  {
    var a := Max(0, Min(start, |s|));
    var b := Max(0, Min(end, |s|));
    if a <= b then s[a..b] else s[b..a]
  }

  /** The listing's mask: the first ten characters, "...", the last four. */
  function MaskKey(key: string): string
  {
    Substring(key, 0, 10) + "..." + Substring(key, |key| - 4, |key|)
  }

  /** A key of at least 14 characters shows its first ten and last four
      characters only; the mask is always 17 characters long. */
  lemma MaskLongKey(key: string)
    requires |key| >= 14
    ensures MaskKey(key) == key[..10] + "..." + key[|key| - 4..]
    ensures |MaskKey(key)| == 17
  {
  }

  /** A key of at most four characters is shown in full, twice. */
  lemma MaskShortKey(key: string)
    requires |key| <= 4
    ensures MaskKey(key) == key + "..." + key
  {
    assert key[..|key|] == key && key[0..] == key;
  }

  /** A generated key with the default length shows its prefix, the first six
      and the last four of its 32 random characters; 22 stay hidden. */
  lemma MaskGeneratedKey(random: string)
    requires |random| >= DefaultKeyLength
    ensures MaskKey(GenerateKey(DefaultKeyLength, random)) ==
              KeyPrefix + random[..6] + "..." + random[28..DefaultKeyLength]
  {
    var key := GenerateKey(DefaultKeyLength, random);
    MaskLongKey(key);
    assert key[..10] == KeyPrefix + random[..6];
    assert key[|key| - 4..] == random[28..DefaultKeyLength];
  }

  /** `{ ...key, key: masked }`: every column but the key is passed through. */
  function MaskRow(row: ApiKeyRow): (r: ApiKeyRow)
    ensures r.(key := row.key) == row
    ensures r.key == MaskKey(row.key)
  {
    row.(key := MaskKey(row.key))
  }

  /** The admin gate in front of every handler below. */
  predicate Admitted(master: Option<string>, adminKey: Option<string>)
  {
    RequireAdmin(master, adminKey).Proceed?
  }

  /** POST /api/keys: 403 without the master key, 400 without a non-empty
      name, 201 with the full key, 500 when the insert fails. */
  method HandleCreate(registry: ApiKeyService, master: Option<string>, adminKey: Option<string>,
                      body: KeyBody, random: string, now: nat)
    returns (response: Response<CreatedKey>)
    requires registry.Valid() && |random| >= registry.keyLength
    modifies registry
    ensures registry.Valid()
    ensures !Admitted(master, adminKey) ==>
      response == Fail(AdminRequired) && registry.rows == old(registry.rows) && registry.nextId == old(registry.nextId)
    ensures Admitted(master, adminKey) && !Truthy(body.name) ==>
      response == Fail(MissingParameter) && registry.rows == old(registry.rows) && registry.nextId == old(registry.nextId)
    ensures Admitted(master, adminKey) && Truthy(body.name) ==>
      var key := GenerateKey(registry.keyLength, random);
      var desc := if body.description.Some? then body.description.value else "";
      var limit := if body.rateLimitCamel.Some? then body.rateLimitCamel.value else DefaultRateLimit;
      if IndexOfToken(old(registry.rows), key).Some? then
        response == Fail(ServerError) && registry.rows == old(registry.rows) && registry.nextId == old(registry.nextId)
      else
        && response == Respond(201, CreatedKey(old(registry.nextId), key, body.name.value, desc, limit, true, now))
        && registry.rows == old(registry.rows) + [NewRow(old(registry.nextId), key, body.name.value, desc, limit, now)]
        && registry.nextId == old(registry.nextId) + 1
  {
    if !Admitted(master, adminKey) {
      return Fail(AdminRequired);
    }
    if !Truthy(body.name) {
      return Fail(MissingParameter);
    }
    var created := registry.CreateApiKey(body.name.value, body.description, body.rateLimitCamel, random, now);
    if created.Ok? {
      response := Respond(201, created.value);
    } else {
      response := Fail(ServerError);
    }
  }

  /** `include_inactive === 'true'`: only that exact string lists revoked keys. */
  function IncludeInactive(query: Option<string>): bool
  {
    query == Some("true")
  }

  /** GET /api/keys: the listing, newest first, every key masked. */
  function HandleList(rows: seq<ApiKeyRow>, master: Option<string>, adminKey: Option<string>,
                      includeInactiveQuery: Option<string>): (response: Response<seq<ApiKeyRow>>)
    ensures response.Respond? <==> Admitted(master, adminKey)
    ensures response.Fail? ==> response.error == AdminRequired
    ensures response.Respond? ==>
      var listed := ListApiKeys(rows, IncludeInactive(includeInactiveQuery));
      && response.status == 200
      && |response.payload| == |listed|
      && forall i :: 0 <= i < |listed| ==> response.payload[i] == MaskRow(listed[i])
  {
    if !Admitted(master, adminKey) then Fail(AdminRequired)
    else
      var listed := ListApiKeys(rows, IncludeInactive(includeInactiveQuery));
      Respond(200, seq(|listed|, i requires 0 <= i < |listed| => MaskRow(listed[i])))
  }

  /** The listing shows exactly the active keys (all keys with the query
      flag), newest first, each masked. */
  lemma ListingShowsVisibleKeys(rows: seq<ApiKeyRow>, master: Option<string>, adminKey: Option<string>,
                                query: Option<string>)
    requires Admitted(master, adminKey)
    ensures var payload := HandleList(rows, master, adminKey, query).payload;
      && (forall i, j :: 0 <= i < j < |payload| ==> payload[i].createdAt >= payload[j].createdAt)
      && (forall y :: y in payload ==>
            exists x :: x in rows && (query == Some("true") || x.isActive) && y == MaskRow(x))
      && (forall x :: x in rows && (query == Some("true") || x.isActive) ==>
            exists i :: 0 <= i < |payload| && payload[i] == MaskRow(x))
  {
    var payload := HandleList(rows, master, adminKey, query).payload;
    var listed := ListApiKeys(rows, IncludeInactive(query));
    MaskedSeq(listed, payload);
  }

  /** A pointwise masked copy keeps order and elements up to the mask. */
  lemma MaskedSeq(listed: seq<ApiKeyRow>, payload: seq<ApiKeyRow>)
    requires |payload| == |listed|
    requires forall i :: 0 <= i < |listed| ==> payload[i] == MaskRow(listed[i])
    ensures forall i :: 0 <= i < |payload| ==> payload[i].createdAt == listed[i].createdAt
    ensures forall y :: y in payload ==> exists x :: x in listed && y == MaskRow(x)
    ensures forall x :: x in listed ==> exists i :: 0 <= i < |payload| && payload[i] == MaskRow(x)
  {
    forall y | y in payload
      ensures exists x :: x in listed && y == MaskRow(x)
    {
      var i :| 0 <= i < |payload| && payload[i] == y;
      assert listed[i] in listed;
    }
    forall x | x in listed
      ensures exists i :: 0 <= i < |payload| && payload[i] == MaskRow(x)
    {
      var i :| 0 <= i < |listed| && listed[i] == x;
      assert payload[i] == MaskRow(x);
    }
  }

  /** No key longer than 17 characters appears in the listing in full. */
  lemma ListingHidesLongKeys(rows: seq<ApiKeyRow>, master: Option<string>, adminKey: Option<string>,
                             query: Option<string>, key: string)
    requires Admitted(master, adminKey) && |key| > 17
    ensures forall y :: y in HandleList(rows, master, adminKey, query).payload ==> y.key != key
  {
    var payload := HandleList(rows, master, adminKey, query).payload;
    var listed := ListApiKeys(rows, IncludeInactive(query));
    forall y | y in payload
      ensures y.key != key
    {
      var i :| 0 <= i < |payload| && payload[i] == y;
      MaskLength(listed[i].key);
    }
  }

  /** The mask is never longer than 17 characters. */
  lemma MaskLength(key: string)
    ensures |MaskKey(key)| <= 17
  {
  }

  /** GET /api/keys/:id: the whole row, key included and unmasked, or 404. */
  function HandleGet(rows: seq<ApiKeyRow>, master: Option<string>, adminKey: Option<string>, id: nat)
    : (response: Response<ApiKeyRow>)
    ensures response.Respond? <==> Admitted(master, adminKey) && GetApiKey(rows, id).Some?
    ensures response.Respond? ==> response == Respond(200, GetApiKey(rows, id).value)
    ensures response.Fail? ==> response.error == (if Admitted(master, adminKey) then NotFound else AdminRequired)
  {
    if !Admitted(master, adminKey) then Fail(AdminRequired)
    else match GetApiKey(rows, id)
      case None => Fail(NotFound)
      case Some(row) => Respond(200, row)
  }

  /** The update built from a PATCH body: a non-empty name, and the
      description and rate_limit whenever they are present. */
  function PatchFromBody(body: KeyBody): (p: KeyPatch)
    ensures p.name == (if Truthy(body.name) then body.name else None)
    ensures p.description == body.description
    ensures p.rateLimit == body.rateLimitSnake
  {
    KeyPatch(if Truthy(body.name) then body.name else None, body.description, body.rateLimitSnake)
  }

  /** A PATCH that spells the limit `rateLimit`, as creation does, changes
      nothing and is answered 404 even for an existing key. */
  lemma CamelRateLimitIgnoredByPatch(rows: seq<ApiKeyRow>, master: Option<string>, adminKey: Option<string>,
                                     id: nat, limit: int)
    requires WellFormedKeys(rows)
    ensures var p := PatchFromBody(KeyBody(None, None, Some(limit), None));
      && !HasFields(p)
      && Patched(rows, id, p) == rows
      && PatchResponse(master, adminKey, rows, id, p) == (if Admitted(master, adminKey) then Fail(NotFound) else Fail(AdminRequired))
  {
  }

  /** An empty name is dropped from the update rather than stored. */
  lemma EmptyNameNotWritten(rows: seq<ApiKeyRow>, id: nat, description: Option<string>, limit: Option<int>)
    requires WellFormedKeys(rows)
    ensures forall i :: 0 <= i < |rows| ==>
              Patched(rows, id, PatchFromBody(KeyBody(Some(""), description, None, limit)))[i].name == rows[i].name
  {
  }

  /** The answer to a PATCH: 403, then 404 when nothing was updated. */
  function PatchResponse(master: Option<string>, adminKey: Option<string>, rows: seq<ApiKeyRow>, id: nat, p: KeyPatch)
    : (response: Response<()>)
    ensures response.Respond? <==> Admitted(master, adminKey) && HasFields(p) && GetApiKey(rows, id).Some?
    ensures response.Respond? ==> response.status == 200
    ensures response.Fail? ==> response.error == (if Admitted(master, adminKey) then NotFound else AdminRequired)
  {
    if !Admitted(master, adminKey) then Fail(AdminRequired)
    else if HasFields(p) && GetApiKey(rows, id).Some? then Respond(200, ())
    else Fail(NotFound)
  }

  /** PATCH /api/keys/:id. */
  method HandlePatch(registry: ApiKeyService, master: Option<string>, adminKey: Option<string>, id: nat, body: KeyBody)
    returns (response: Response<()>)
    requires registry.Valid()
    modifies registry
    ensures registry.Valid() && registry.nextId == old(registry.nextId)
    ensures response == PatchResponse(master, adminKey, old(registry.rows), id, PatchFromBody(body))
    ensures registry.rows ==
      if Admitted(master, adminKey) then Patched(old(registry.rows), id, PatchFromBody(body)) else old(registry.rows)
  {
    if !Admitted(master, adminKey) {
      return Fail(AdminRequired);
    }
    var updated := registry.UpdateApiKey(id, PatchFromBody(body));
    response := if updated then Respond(200, ()) else Fail(NotFound);
  }

  /** The answer to revoke, reactivate and delete: 403, or 404 for an unknown id. */
  function ByIdResponse(master: Option<string>, adminKey: Option<string>, rows: seq<ApiKeyRow>, id: nat)
    : (response: Response<()>)
    ensures response.Respond? <==> Admitted(master, adminKey) && GetApiKey(rows, id).Some?
    ensures response.Respond? ==> response.status == 200
    ensures response.Fail? ==> response.error == (if Admitted(master, adminKey) then NotFound else AdminRequired)
  {
    if !Admitted(master, adminKey) then Fail(AdminRequired)
    else if GetApiKey(rows, id).Some? then Respond(200, ())
    else Fail(NotFound)
  }

  /** POST /api/keys/:id/revoke: succeeds again on an already revoked key. */
  method HandleRevoke(registry: ApiKeyService, master: Option<string>, adminKey: Option<string>, id: nat)
    returns (response: Response<()>)
    requires registry.Valid()
    modifies registry
    ensures registry.Valid() && registry.nextId == old(registry.nextId)
    ensures response == ByIdResponse(master, adminKey, old(registry.rows), id)
    ensures registry.rows ==
      if Admitted(master, adminKey) then WithActiveFlag(old(registry.rows), id, false) else old(registry.rows)
  {
    if !Admitted(master, adminKey) {
      return Fail(AdminRequired);
    }
    var found := registry.RevokeApiKey(id);
    response := if found then Respond(200, ()) else Fail(NotFound);
  }

  /** POST /api/keys/:id/reactivate: succeeds again on an already active key. */
  method HandleReactivate(registry: ApiKeyService, master: Option<string>, adminKey: Option<string>, id: nat)
    returns (response: Response<()>)
    requires registry.Valid()
    modifies registry
    ensures registry.Valid() && registry.nextId == old(registry.nextId)
    ensures response == ByIdResponse(master, adminKey, old(registry.rows), id)
    ensures registry.rows ==
      if Admitted(master, adminKey) then WithActiveFlag(old(registry.rows), id, true) else old(registry.rows)
  {
    if !Admitted(master, adminKey) {
      return Fail(AdminRequired);
    }
    var found := registry.ReactivateApiKey(id);
    response := if found then Respond(200, ()) else Fail(NotFound);
  }

  /** DELETE /api/keys/:id: the row is gone for good. */
  method HandleDelete(registry: ApiKeyService, master: Option<string>, adminKey: Option<string>, id: nat)
    returns (response: Response<()>)
    requires registry.Valid()
    modifies registry
    ensures registry.Valid() && registry.nextId == old(registry.nextId)
    ensures response == ByIdResponse(master, adminKey, old(registry.rows), id)
    ensures registry.rows ==
      if Admitted(master, adminKey) then WithoutId(old(registry.rows), id) else old(registry.rows)
  {
    if !Admitted(master, adminKey) {
      return Fail(AdminRequired);
    }
    var found := registry.DeleteApiKey(id);
    response := if found then Respond(200, ()) else Fail(NotFound);
  }

  /** A repeated revoke answers 200 both times and leaves the table as the
      first one left it. */
  lemma RevokeTwiceSucceedsTwice(rows: seq<ApiKeyRow>, master: Option<string>, adminKey: Option<string>, id: nat)
    requires WellFormedKeys(rows)
    requires Admitted(master, adminKey) && GetApiKey(rows, id).Some?
    ensures var once := WithActiveFlag(rows, id, false);
      && ByIdResponse(master, adminKey, rows, id).Respond?
      && ByIdResponse(master, adminKey, once, id).Respond?
      && WithActiveFlag(once, id, false) == once
  {
    var once := WithActiveFlag(rows, id, false);
    ToggleIdempotent(rows, id, false);
    var i := IndexOfId(rows, id).value;
    assert once[i].id == id;
  }

  /** GET /api/keys/:id/stats: the admin only, although the route's own
      description says the key's owner too. */
  function HandleStats(rows: seq<ApiKeyRow>, usage: seq<UsageRow>, master: Option<string>,
                       adminKey: Option<string>, id: nat): (response: Response<KeyStats>)
    ensures response.Respond? <==> Admitted(master, adminKey) && GetApiKey(rows, id).Some?
    ensures response.Respond? ==> response == Respond(200, GetKeyStats(rows, usage, id).value)
    ensures response.Fail? ==> response.error == (if Admitted(master, adminKey) then NotFound else AdminRequired)
  {
    if !Admitted(master, adminKey) then Fail(AdminRequired)
    else match GetKeyStats(rows, usage, id)
      case None => Fail(NotFound)
      case Some(stats) => Respond(200, stats)
  }

  /** GET /api/keys/validate/current: `valid: true` with the key's info (none
      for the admin bypass); the call itself counts as one more use. */
  method HandleValidateCurrent(registry: ApiKeyService, master: Option<string>, creds: Credentials, now: nat)
    returns (response: Response<Option<KeyInfo>>)
    requires registry.Valid()
    modifies registry
    ensures registry.Valid() && registry.nextId == old(registry.nextId)
    ensures registry.rows == RowsAfterAuthentication(old(registry.rows), master, creds, now)
    ensures match Authentication(old(registry.rows), master, creds)
      case Reject(e) => response == Fail(e)
      case Proceed(_, info) => response == Respond(200, info)
  {
    var auth := AuthenticateApiKey(registry, master, creds, now);
    if auth.Reject? {
      return Fail(auth.error);
    }
    response := Respond(200, auth.apiKey);
  }
}
