/** The authentication middleware: the admin bypass, where an API key is looked
    for, and the 401 / 403 / proceed decision over the key registry. */
module Auth {
  import opened Wrappers
  import opened Http
  import opened ApiKeyRegistry

  /** The credentials a request can carry: the x-admin-key header, the
      x-api-key header, the api_key query parameter and the api_key body field. */
  datatype Credentials = Credentials(adminKey: Option<string>, headerKey: Option<string>,
                                     queryKey: Option<string>, bodyKey: Option<string>)

  /** The request goes on to its handler with req.isAdmin and req.apiKey set,
      or is answered at once with an error. */
  datatype AuthOutcome = Proceed(isAdmin: bool, apiKey: Option<KeyInfo>) | Reject(error: ErrorKind)

  /** A non-empty admin header equal to MASTER_ADMIN_KEY (None when unset). */
  predicate IsMasterKey(adminKey: Option<string>, master: Option<string>)
  {
    Truthy(adminKey) && master == adminKey
  }

  /** An absent or empty admin header never grants admin, not even when the
      master key is unset or empty. */
  lemma EmptyAdminHeaderNeverAdmin(master: Option<string>)
    ensures !IsMasterKey(None, master) && !IsMasterKey(Some(""), master)
  {
  }

  /** The key authenticateApiKey uses: the header, else the query parameter,
      else the body field, each only when non-empty. */
  function PresentedKey(c: Credentials): (k: Option<string>)
    ensures k.Some? ==> k.value != ""
    ensures Truthy(c.headerKey) ==> k == c.headerKey
    ensures !Truthy(c.headerKey) && Truthy(c.queryKey) ==> k == c.queryKey
    ensures !Truthy(c.headerKey) && !Truthy(c.queryKey) ==> k == (if Truthy(c.bodyKey) then c.bodyKey else None)
  {
    if Truthy(c.headerKey) then c.headerKey
    else if Truthy(c.queryKey) then c.queryKey
    else if Truthy(c.bodyKey) then c.bodyKey
    else None
  }

  /** authenticateApiKey calls validateApiKey exactly when there is no admin
      bypass and some key was presented. */
  predicate ConsultsRegistry(master: Option<string>, c: Credentials)
  {
    !IsMasterKey(c.adminKey, master) && PresentedKey(c).Some?
  }

  /** authenticateApiKey's decision: admin bypass; no key is 401; an unknown or
      revoked key is 403; a valid key proceeds as a non-admin with its info. */
  function Authentication(rows: seq<ApiKeyRow>, master: Option<string>, c: Credentials): (out: AuthOutcome)
    requires UniqueTokens(rows)
    ensures out.Proceed? <==>
      || IsMasterKey(c.adminKey, master)
      || (PresentedKey(c).Some? &&
          exists i :: 0 <= i < |rows| && rows[i].key == PresentedKey(c).value && rows[i].isActive)
    ensures out.Proceed? ==> (out.isAdmin <==> IsMasterKey(c.adminKey, master))
    ensures out.Proceed? ==> (out.apiKey.Some? <==> !out.isAdmin)
    ensures out.Proceed? && !out.isAdmin ==>
      PresentedKey(c).Some? && out.apiKey == Some(ValidationOf(rows, PresentedKey(c).value).info)
    ensures out.Reject? ==> out.error == (if PresentedKey(c).None? then MissingApiKey else InvalidApiKey)
  {
    if IsMasterKey(c.adminKey, master) then Proceed(true, None)
    else match PresentedKey(c)
      case None => Reject(MissingApiKey)
      case Some(key) =>
        match ValidationOf(rows, key)
        case Invalid => Reject(InvalidApiKey)
        case Valid(info) => Proceed(false, Some(info))
  }

  /** The key table after authenticateApiKey: one validation when the registry
      was consulted, otherwise untouched. */
  function RowsAfterAuthentication(rows: seq<ApiKeyRow>, master: Option<string>, c: Credentials, now: nat): seq<ApiKeyRow>
    requires UniqueTokens(rows)
  {
    if ConsultsRegistry(master, c) then AfterValidation(rows, PresentedKey(c).value, now) else rows
  }

  method AuthenticateApiKey(registry: ApiKeyService, master: Option<string>, c: Credentials, now: nat)
    returns (out: AuthOutcome)
    requires registry.Valid()
    modifies registry
    ensures registry.Valid()
    ensures out == Authentication(old(registry.rows), master, c)
    ensures registry.rows == RowsAfterAuthentication(old(registry.rows), master, c, now)
    ensures registry.nextId == old(registry.nextId)
  {
    if IsMasterKey(c.adminKey, master) {
      return Proceed(true, None);
    }
    var key := PresentedKey(c);
    if key.None? {
      return Reject(MissingApiKey);
    }
    var validation := registry.ValidateApiKey(key.value, now);
    if validation.Invalid? {
      return Reject(InvalidApiKey);
    }
    out := Proceed(false, Some(validation.info));
  }

  /** With the admin bypass the registry is neither read nor written. */
  lemma AdminBypassIgnoresRegistry(rows1: seq<ApiKeyRow>, rows2: seq<ApiKeyRow>, master: Option<string>,
                                   c: Credentials, now: nat)
    requires UniqueTokens(rows1) && UniqueTokens(rows2)
    requires IsMasterKey(c.adminKey, master)
    ensures Authentication(rows1, master, c) == Authentication(rows2, master, c) == Proceed(true, None)
    ensures RowsAfterAuthentication(rows1, master, c, now) == rows1
  {
  }

  /** A non-admin request that proceeds was metered once: its key's row has
      gained exactly one use, and the info attached reports the new count. */
  lemma ProceedMetersOnce(rows: seq<ApiKeyRow>, master: Option<string>, c: Credentials, now: nat)
    requires UniqueTokens(rows)
    requires Authentication(rows, master, c).Proceed? && !Authentication(rows, master, c).isAdmin
    ensures var info := Authentication(rows, master, c).apiKey.value;
      var after := RowsAfterAuthentication(rows, master, c, now);
      exists i :: 0 <= i < |rows| && rows[i].id == info.id && rows[i].key == PresentedKey(c).value
        && after[i] == RecordUse(rows[i], now) && after[i].usageCount == info.usageCount
  {
    var key := PresentedKey(c).value;
    var i := ActiveIndex(rows, key).value;
    assert RowsAfterAuthentication(rows, master, c, now)[i] == RecordUse(rows[i], now);
  }

  /** requireAdmin: passes exactly the master key; API keys play no part. */
  function RequireAdmin(master: Option<string>, adminKey: Option<string>): (out: AuthOutcome)
    ensures out.Proceed? <==> IsMasterKey(adminKey, master)
    ensures out.Proceed? ==> out.isAdmin && out.apiKey.None?
    ensures out.Reject? ==> out.error == AdminRequired
  {
    if IsMasterKey(adminKey, master) then Proceed(true, None) else Reject(AdminRequired)
  }

  /** The key optionalAuth uses: the header, else the query parameter; never the body. */
  function OptionalKey(c: Credentials): (k: Option<string>)
    ensures k == PresentedKey(c.(bodyKey := None))
  {
    if Truthy(c.headerKey) then c.headerKey
    else if Truthy(c.queryKey) then c.queryKey
    else None
  }

  /** optionalAuth: never rejects; attaches key info only for a valid key. */
  method OptionalAuth(registry: ApiKeyService, c: Credentials, now: nat) returns (apiKey: Option<KeyInfo>)
    requires registry.Valid()
    modifies registry
    ensures registry.Valid()
    ensures OptionalKey(c).None? ==> apiKey.None? && registry.rows == old(registry.rows)
    ensures OptionalKey(c).Some? ==>
      && registry.rows == AfterValidation(old(registry.rows), OptionalKey(c).value, now)
      && apiKey == match ValidationOf(old(registry.rows), OptionalKey(c).value)
                   case Invalid => None
                   case Valid(info) => Some(info)
    ensures registry.nextId == old(registry.nextId)
  {
    apiKey := None;
    var key := OptionalKey(c);
    if key.Some? {
      var validation := registry.ValidateApiKey(key.value, now);
      if validation.Valid? {
        apiKey := Some(validation.info);
      }
    }
  }
}
