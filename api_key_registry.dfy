/** The API-key registry: the api_keys table, key generation, and the service
    operations that create, validate, list, read, toggle, update and delete keys
    and report a key's usage statistics. */
module ApiKeyRegistry {
  import opened Wrappers
  import opened UsageLog

  const KeyPrefix: string := "ltk_"
  const DefaultKeyLength: nat := 32
  const DefaultRateLimit: int := 1000

  /** `parseInt(API_KEY_LENGTH) || 32`; `setting` is the parsed number, None
      for a missing or unparsable value. */
  function KeyLength(setting: Option<nat>): (n: nat)
    ensures n > 0
    ensures setting.Some? && setting.value > 0 ==> n == setting.value
    ensures setting.None? || setting == Some(0) ==> n == DefaultKeyLength
  {
    if setting.Some? && setting.value > 0 then setting.value else DefaultKeyLength
  }

  /** generateKey: the prefix followed by `length` random characters; `random`
      stands for the generator's output. */
  function GenerateKey(length: nat, random: string): (k: string)
    requires |random| >= length
    ensures |k| == |KeyPrefix| + length
    ensures k[..|KeyPrefix|] == KeyPrefix
    ensures k[|KeyPrefix|..] == random[..length]
  {
    KeyPrefix + random[..length]
  }

  /** One api_keys row. */
  datatype ApiKeyRow = ApiKeyRow(id: nat, key: string, name: string, description: string,
                                 createdAt: nat, lastUsedAt: Option<nat>, isActive: bool,
                                 rateLimit: int, usageCount: nat)

  /** Rows are kept in rowid order, and AUTOINCREMENT ids only grow. */
  predicate IdsAscending(rows: seq<ApiKeyRow>)
  {
    forall i, j :: 0 <= i < j < |rows| ==> rows[i].id < rows[j].id
  }

  /** The UNIQUE constraint on the key column. */
  predicate UniqueTokens(rows: seq<ApiKeyRow>)
  {
    forall i, j :: 0 <= i < j < |rows| ==> rows[i].key != rows[j].key
  }

  predicate WellFormedKeys(rows: seq<ApiKeyRow>)
  {
    IdsAscending(rows) && UniqueTokens(rows)
  }

  /** Position of the row with primary key `id`, if any. */
  function IndexOfId(rows: seq<ApiKeyRow>, id: nat): (r: Option<nat>)
    ensures r.Some? ==> r.value < |rows| && rows[r.value].id == id
    ensures r.None? <==> forall i :: 0 <= i < |rows| ==> rows[i].id != id
  {
    if rows == [] then None
    else if rows[0].id == id then Some(0)
    else match IndexOfId(rows[1..], id)
      case None =>
        assert forall i :: 1 <= i < |rows| ==> rows[i] == rows[1..][i - 1];
        None
      case Some(j) => Some(j + 1)
  }

  /** Position of the row whose key column is `key`, if any. The same scan as
      IndexOfId over a different column: the id is the primary key the admin
      routes address, the token is the UNIQUE column validation looks up, and
      each search's own contract is what the lemmas about its callers use. */
  function IndexOfToken(rows: seq<ApiKeyRow>, key: string): (r: Option<nat>)
    ensures r.Some? ==> r.value < |rows| && rows[r.value].key == key
    ensures r.None? <==> forall i :: 0 <= i < |rows| ==> rows[i].key != key
  {
    if rows == [] then None
    else if rows[0].key == key then Some(0)
    else match IndexOfToken(rows[1..], key)
      case None =>
        assert forall i :: 1 <= i < |rows| ==> rows[i] == rows[1..][i - 1];
        None
      case Some(j) => Some(j + 1)
  }

  /** getApiKey: SELECT * WHERE id = ?, the whole row, full key included. */
  function GetApiKey(rows: seq<ApiKeyRow>, id: nat): (r: Option<ApiKeyRow>)
    ensures r.Some? <==> exists i :: 0 <= i < |rows| && rows[i].id == id
    ensures r.Some? ==> r.value in rows && r.value.id == id
  {
    match IndexOfId(rows, id)
    case None => None
    case Some(i) => Some(rows[i])
  }

  /** What a successful validation hands to the request. */
  datatype KeyInfo = KeyInfo(id: nat, name: string, rateLimit: int, usageCount: nat)

  datatype Validation = Invalid | Valid(info: KeyInfo)

  /** validateApiKey's SELECT: the active row holding exactly `key`. */
  function ActiveIndex(rows: seq<ApiKeyRow>, key: string): (r: Option<nat>)
    requires UniqueTokens(rows)
    ensures r.Some? ==> r.value < |rows| && rows[r.value].key == key && rows[r.value].isActive
    ensures r.Some? <==> exists i :: 0 <= i < |rows| && rows[i].key == key && rows[i].isActive
  {
    match IndexOfToken(rows, key)
    case None => None
    case Some(i) => if rows[i].isActive then Some(i) else None
  }

  /** validateApiKey's answer: valid exactly for an active row holding the key,
      reporting the usage count after this use; unknown and revoked keys give
      the same Invalid. */
  function ValidationOf(rows: seq<ApiKeyRow>, key: string): (v: Validation)
    requires UniqueTokens(rows)
    ensures v.Valid? <==> exists i :: 0 <= i < |rows| && rows[i].key == key && rows[i].isActive
    ensures v.Valid? ==>
      exists i :: 0 <= i < |rows| && rows[i].key == key &&
        v.info == KeyInfo(rows[i].id, rows[i].name, rows[i].rateLimit, rows[i].usageCount + 1)
  {
    match ActiveIndex(rows, key)
    case None => Invalid
    case Some(i) => Valid(KeyInfo(rows[i].id, rows[i].name, rows[i].rateLimit, rows[i].usageCount + 1))
  }

  /** SET last_used_at = now, usage_count = usage_count + 1. */
  function RecordUse(row: ApiKeyRow, now: nat): ApiKeyRow
  {
    row.(usageCount := row.usageCount + 1, lastUsedAt := Some(now))
  }

  /** validateApiKey's UPDATE on the table (WHERE key = ?); see
      ValidationTouchesOneRow for what it changes. */
  function AfterValidation(rows: seq<ApiKeyRow>, key: string, now: nat): (r: seq<ApiKeyRow>)
    requires UniqueTokens(rows)
    ensures |r| == |rows|
    ensures WellFormedKeys(rows) ==> WellFormedKeys(r)
  {
    match ActiveIndex(rows, key)
    case None => rows
    case Some(i) => rows[i := RecordUse(rows[i], now)]
  }

  /** A validation touches only the active row holding `key`, and only its
      usage count (by one) and its last use. */
  lemma ValidationTouchesOneRow(rows: seq<ApiKeyRow>, key: string, now: nat)
    requires UniqueTokens(rows)
    ensures var r := AfterValidation(rows, key, now);
      forall i :: 0 <= i < |rows| ==>
        r[i] == (if rows[i].key == key && rows[i].isActive then RecordUse(rows[i], now) else rows[i])
  {
    var r := AfterValidation(rows, key, now);
    match ActiveIndex(rows, key)
    case None =>
    case Some(k) =>
      forall i | 0 <= i < |rows| && i != k ensures rows[i].key != key {
        if i < k { assert rows[i].key != rows[k].key; } else { assert rows[k].key != rows[i].key; }
      }
  }

  /** revokeApiKey / reactivateApiKey: SET is_active WHERE id = ?; no other
      column and no other row changes. */
  function WithActiveFlag(rows: seq<ApiKeyRow>, id: nat, active: bool): (r: seq<ApiKeyRow>)
    requires WellFormedKeys(rows)
    ensures WellFormedKeys(r)
    ensures |r| == |rows|
    ensures forall i :: 0 <= i < |rows| ==>
              r[i] == (if rows[i].id == id then rows[i].(isActive := active) else rows[i])
  {
    match IndexOfId(rows, id)
    case None => rows
    case Some(i) => rows[i := rows[i].(isActive := active)]
  }

  /** deleteApiKey: DELETE WHERE id = ?; every other row stays, in order, and
      the table shrinks by one exactly when the id existed. */
  function WithoutId(rows: seq<ApiKeyRow>, id: nat): (r: seq<ApiKeyRow>)
    requires WellFormedKeys(rows)
    ensures WellFormedKeys(r)
    ensures forall x :: x in r <==> x in rows && x.id != id
    ensures |r| == if IndexOfId(rows, id).Some? then |rows| - 1 else |rows|
  {
    match IndexOfId(rows, id)
    case None => rows
    case Some(i) =>
      RemoveAtSpec(rows, i);
      rows[..i] + rows[i + 1..]
  }

  lemma RemoveAtSpec(rows: seq<ApiKeyRow>, i: nat)
    requires WellFormedKeys(rows) && i < |rows|
    ensures var r := rows[..i] + rows[i + 1..];
      && WellFormedKeys(r)
      && |r| == |rows| - 1
      && forall x :: x in r <==> x in rows && x.id != rows[i].id
  {
    RemoveAtWellFormed(rows, i);
    RemoveAtMembers(rows, i);
  }

  lemma RemoveAtWellFormed(rows: seq<ApiKeyRow>, i: nat)
    requires WellFormedKeys(rows) && i < |rows|
    ensures WellFormedKeys(rows[..i] + rows[i + 1..])
  {
    var r := rows[..i] + rows[i + 1..];
    forall j, k | 0 <= j < k < |r| ensures r[j].id < r[k].id && r[j].key != r[k].key {
      RemoveAtShift(rows, i, j);
      RemoveAtShift(rows, i, k);
    }
  }

  lemma RemoveAtMembers(rows: seq<ApiKeyRow>, i: nat)
    requires IdsAscending(rows) && i < |rows|
    ensures forall x :: x in rows[..i] + rows[i + 1..] <==> x in rows && x.id != rows[i].id
  {
    var r := rows[..i] + rows[i + 1..];
    forall x ensures x in r <==> x in rows && x.id != rows[i].id {
      if x in r {
        var j :| 0 <= j < |r| && r[j] == x;
        RemoveAtShift(rows, i, j);
        var j' := if j < i then j else j + 1;
        if j' < i { assert rows[j'].id < rows[i].id; } else { assert rows[i].id < rows[j'].id; }
      }
      if x in rows && x.id != rows[i].id {
        var j :| 0 <= j < |rows| && rows[j] == x;
        assert j != i;
        if j < i { assert r[j] == x; } else { assert r[j - 1] == x; }
      }
    }
  }

  /** Position `j` after removing position `i`. */
  lemma RemoveAtShift(rows: seq<ApiKeyRow>, i: nat, j: nat)
    requires i < |rows| && j < |rows| - 1
    ensures (rows[..i] + rows[i + 1..])[j] == rows[if j < i then j else j + 1]
  {
  }

  /** The allow-listed columns an update may write; a field is None when the
      request does not set it. */
  datatype KeyPatch = KeyPatch(name: Option<string>, description: Option<string>, rateLimit: Option<int>)

  predicate HasFields(p: KeyPatch)
  {
    p.name.Some? || p.description.Some? || p.rateLimit.Some?
  }

  /** The SET clause built from the patch's fields. */
  function ApplyPatch(row: ApiKeyRow, p: KeyPatch): (r: ApiKeyRow)
    ensures r.(name := row.name, description := row.description, rateLimit := row.rateLimit) == row
    ensures r.name == (if p.name.Some? then p.name.value else row.name)
    ensures r.description == (if p.description.Some? then p.description.value else row.description)
    ensures r.rateLimit == (if p.rateLimit.Some? then p.rateLimit.value else row.rateLimit)
  {
    row.(name := if p.name.Some? then p.name.value else row.name,
         description := if p.description.Some? then p.description.value else row.description,
         rateLimit := if p.rateLimit.Some? then p.rateLimit.value else row.rateLimit)
  }

  /** updateApiKey's table effect: nothing when the patch has no field,
      otherwise the patch applied to the row with that id. */
  function Patched(rows: seq<ApiKeyRow>, id: nat, p: KeyPatch): (r: seq<ApiKeyRow>)
    requires WellFormedKeys(rows)
    ensures WellFormedKeys(r)
    ensures |r| == |rows|
    ensures forall i :: 0 <= i < |rows| ==>
              r[i] == (if rows[i].id == id && HasFields(p) then ApplyPatch(rows[i], p) else rows[i])
  {
    if !HasFields(p) then rows
    else match IndexOfId(rows, id)
      case None => rows
      case Some(i) => rows[i := ApplyPatch(rows[i], p)]
  }

  /** The row a create inserts: active, never used, usage count 0. */
  function NewRow(id: nat, key: string, name: string, description: string, rateLimit: int, now: nat): ApiKeyRow
  {
    ApiKeyRow(id, key, name, description, now, None, true, rateLimit, 0)
  }

  /** What createApiKey returns: the full key, shown this once. */
  datatype CreatedKey = CreatedKey(id: nat, key: string, name: string, description: string,
                                   rateLimit: int, isActive: bool, createdAt: nat)

  /** The insert broke the UNIQUE constraint on the key column. */
  datatype CreateError = DuplicateToken

  /** The listing's filter: every row, or only the active ones, in table order. */
  function Visible(rows: seq<ApiKeyRow>, includeInactive: bool): (r: seq<ApiKeyRow>)
    ensures forall x :: x in r <==> x in rows && (includeInactive || x.isActive)
  {
    if rows == [] then []
    else (if includeInactive || rows[0].isActive then [rows[0]] else []) + Visible(rows[1..], includeInactive)
  }

  /** ORDER BY created_at DESC. */
  predicate NewestFirst(s: seq<ApiKeyRow>)
  {
    forall i, j :: 0 <= i < j < |s| ==> s[i].createdAt >= s[j].createdAt
  }

  function InsertNewest(x: ApiKeyRow, s: seq<ApiKeyRow>): seq<ApiKeyRow>
  {
    if s == [] then [x]
    else if x.createdAt >= s[0].createdAt then [x] + s
    else [s[0]] + InsertNewest(x, s[1..])
  }

  /** Insertion adds exactly `x`. */
  lemma {:induction false} InsertNewestCounts(x: ApiKeyRow, s: seq<ApiKeyRow>)
    ensures multiset(InsertNewest(x, s)) == multiset(s) + multiset{x}
  {
    if s != [] && x.createdAt < s[0].createdAt {
      InsertNewestCounts(x, s[1..]);
      assert s == [s[0]] + s[1..];
    }
  }

  /** Insertion introduces no row newer than `x` and the rows already there. */
  lemma {:induction false} InsertNewestBound(x: ApiKeyRow, s: seq<ApiKeyRow>, bound: nat)
    requires x.createdAt <= bound
    requires forall k :: 0 <= k < |s| ==> s[k].createdAt <= bound
    ensures forall k :: 0 <= k < |InsertNewest(x, s)| ==> InsertNewest(x, s)[k].createdAt <= bound
  {
    if s != [] && x.createdAt < s[0].createdAt {
      InsertNewestBound(x, s[1..], bound);
    }
  }

  /** Insertion into a newest-first list keeps it newest-first. */
  lemma {:induction false} InsertNewestSorted(x: ApiKeyRow, s: seq<ApiKeyRow>)
    requires NewestFirst(s)
    ensures NewestFirst(InsertNewest(x, s))
  {
    if s != [] && x.createdAt < s[0].createdAt {
      var rest := InsertNewest(x, s[1..]);
      InsertNewestSorted(x, s[1..]);
      InsertNewestBound(x, s[1..], s[0].createdAt);
      var r := [s[0]] + rest;
      assert forall k :: 1 <= k < |r| ==> r[k] == rest[k - 1];
    }
  }

  function SortNewest(s: seq<ApiKeyRow>): seq<ApiKeyRow>
  {
    if s == [] then [] else InsertNewest(s[0], SortNewest(s[1..]))
  }

  /** The sort yields a newest-first permutation of its input. */
  lemma {:induction false} SortNewestSpec(s: seq<ApiKeyRow>)
    ensures NewestFirst(SortNewest(s))
    ensures multiset(SortNewest(s)) == multiset(s)
  {
    if s != [] {
      SortNewestSpec(s[1..]);
      InsertNewestSorted(s[0], SortNewest(s[1..]));
      InsertNewestCounts(s[0], SortNewest(s[1..]));
      assert s == [s[0]] + s[1..];
    }
  }

  /** listApiKeys: the visible rows, each exactly once, newest first (rows
      created in the same second may come in either order). */
  function ListApiKeys(rows: seq<ApiKeyRow>, includeInactive: bool): (r: seq<ApiKeyRow>)
    ensures NewestFirst(r)
    ensures multiset(r) == multiset(Visible(rows, includeInactive))
    ensures forall x :: x in r <==> x in rows && (includeInactive || x.isActive)
  {
    var r := SortNewest(Visible(rows, includeInactive));
    SortNewestSpec(Visible(rows, includeInactive));
    assert forall x :: x in r <==> x in multiset(Visible(rows, includeInactive));
    r
  }

  datatype KeySummary = KeySummary(id: nat, name: string, usageCount: nat, lastUsedAt: Option<nat>)

  datatype KeyStats = KeyStats(key: KeySummary, dailyStats: seq<DayStats>)

  /** getKeyStats: nothing for an unknown id; otherwise the key's summary and
      the daily groups of the usage rows labelled with the key's token. */
  function GetKeyStats(rows: seq<ApiKeyRow>, usage: seq<UsageRow>, id: nat): (r: Option<KeyStats>)
    ensures r.None? <==> GetApiKey(rows, id).None?
    ensures r.Some? ==>
      var row := GetApiKey(rows, id).value;
      && r.value.key == KeySummary(row.id, row.name, row.usageCount, row.lastUsedAt)
      && r.value.dailyStats == DailyStats(usage, row.key)
      && |r.value.dailyStats| <= StatsDayLimit
  {
    match GetApiKey(rows, id)
    case None => None
    case Some(row) => Some(KeyStats(KeySummary(row.id, row.name, row.usageCount, row.lastUsedAt),
                                    DailyStats(usage, row.key)))
  }

  /** A failed validation, for an unknown or a revoked key alike, changes no row. */
  lemma FailedValidationChangesNothing(rows: seq<ApiKeyRow>, key: string, now: nat)
    requires UniqueTokens(rows)
    requires ValidationOf(rows, key) == Invalid
    ensures AfterValidation(rows, key, now) == rows
  {
  }

  /** Validating the key of active row `i` updates that row alone. */
  lemma ValidateOnce(rows: seq<ApiKeyRow>, key: string, now: nat, i: nat)
    requires UniqueTokens(rows) && i < |rows|
    requires rows[i].key == key && rows[i].isActive
    ensures AfterValidation(rows, key, now) == rows[i := RecordUse(rows[i], now)]
  {
    SameTokenSameRow(rows, i, ActiveIndex(rows, key).value);
  }

  /** Under the UNIQUE constraint a token pins down its row. */
  lemma SameTokenSameRow(rows: seq<ApiKeyRow>, i: nat, k: nat)
    requires UniqueTokens(rows) && i < |rows| && k < |rows|
    requires rows[i].key == rows[k].key
    ensures i == k
  {
  }

  /** After a revoke the key no longer validates. */
  lemma RevokeThenValidateFails(rows: seq<ApiKeyRow>, i: nat)
    requires WellFormedKeys(rows) && i < |rows|
    ensures ValidationOf(WithActiveFlag(rows, rows[i].id, false), rows[i].key) == Invalid
  {
    var r := WithActiveFlag(rows, rows[i].id, false);
    forall j | 0 <= j < |r| && j != i ensures r[j].key != rows[i].key {
      if j < i { assert rows[j].key != rows[i].key; } else { assert rows[i].key != rows[j].key; }
    }
  }

  /** Revoking and then reactivating a key makes it validate again, and its
      usage count carries on from where it was. */
  lemma RevokeReactivateContinuesCount(rows: seq<ApiKeyRow>, i: nat)
    requires WellFormedKeys(rows) && i < |rows|
    ensures var r := WithActiveFlag(WithActiveFlag(rows, rows[i].id, false), rows[i].id, true);
      ValidationOf(r, rows[i].key) == Valid(KeyInfo(rows[i].id, rows[i].name, rows[i].rateLimit, rows[i].usageCount + 1))
  {
    var r := WithActiveFlag(WithActiveFlag(rows, rows[i].id, false), rows[i].id, true);
    assert r[i] == rows[i].(isActive := true);
    forall j | 0 <= j < |r| && j != i ensures r[j].key != rows[i].key {
      if j < i { assert rows[j].key != rows[i].key; } else { assert rows[i].key != rows[j].key; }
    }
  }

  /** Revoke and reactivate are idempotent: repeating one leaves the table as
      the first call left it, and the id is still found. */
  lemma ToggleIdempotent(rows: seq<ApiKeyRow>, id: nat, active: bool)
    requires WellFormedKeys(rows)
    ensures WithActiveFlag(WithActiveFlag(rows, id, active), id, active) == WithActiveFlag(rows, id, active)
    ensures GetApiKey(WithActiveFlag(rows, id, active), id).Some? == GetApiKey(rows, id).Some?
  {
    var once := WithActiveFlag(rows, id, active);
    var twice := WithActiveFlag(once, id, active);
    assert forall j :: 0 <= j < |rows| ==> twice[j] == once[j];
    if GetApiKey(rows, id).Some? {
      var i :| 0 <= i < |rows| && rows[i].id == id;
      assert once[i].id == id;
    }
  }

  /** After a delete the id is gone for good. */
  lemma DeleteThenGetNone(rows: seq<ApiKeyRow>, id: nat)
    requires WellFormedKeys(rows)
    ensures GetApiKey(WithoutId(rows, id), id).None?
  {
    var r := WithoutId(rows, id);
    forall j | 0 <= j < |r| ensures r[j].id != id {
      assert r[j] in r;
    }
  }

  /** A freshly created key validates at once, with usage count 1. */
  lemma CreateThenValidate(rows: seq<ApiKeyRow>, nextId: nat, key: string, name: string,
                           description: string, rateLimit: int, now: nat)
    requires WellFormedKeys(rows)
    requires forall x :: x in rows ==> x.id < nextId
    requires IndexOfToken(rows, key).None?
    ensures var r := rows + [NewRow(nextId, key, name, description, rateLimit, now)];
      && WellFormedKeys(r)
      && ValidationOf(r, key) == Valid(KeyInfo(nextId, name, rateLimit, 1))
  {
    var r := rows + [NewRow(nextId, key, name, description, rateLimit, now)];
    assert forall j :: 0 <= j < |rows| ==> rows[j] in rows;
    assert WellFormedKeys(r);
    assert r[|rows|].key == key;
  }

  /** Validation of a key held by active row `i` reports that row. */
  lemma ValidationOfRow(rows: seq<ApiKeyRow>, i: nat, key: string)
    requires UniqueTokens(rows)
    requires i < |rows| && rows[i].key == key && rows[i].isActive
    ensures ValidationOf(rows, key) ==
      Valid(KeyInfo(rows[i].id, rows[i].name, rows[i].rateLimit, rows[i].usageCount + 1))
  {
    SameTokenSameRow(rows, i, ActiveIndex(rows, key).value);
  }

  /** Appending a row with a larger id and an unused token keeps the table well formed. */
  lemma AppendFresh(rows: seq<ApiKeyRow>, x: ApiKeyRow)
    requires WellFormedKeys(rows)
    requires forall y :: y in rows ==> y.id < x.id
    requires IndexOfToken(rows, x.key).None?
    ensures WellFormedKeys(rows + [x])
    ensures forall y :: y in rows + [x] ==> y.id <= x.id
  {
    assert forall i :: 0 <= i < |rows| ==> rows[i] in rows;
  }

  /** Two keys created under the same name both validate, each on its own token. */
  lemma SameNameKeysAreIndependent(rows: seq<ApiKeyRow>, nextId: nat, key1: string, key2: string,
                                   name: string, now: nat)
    requires WellFormedKeys(rows)
    requires forall x :: x in rows ==> x.id < nextId
    requires IndexOfToken(rows, key1).None?
    requires IndexOfToken(rows + [NewRow(nextId, key1, name, "", DefaultRateLimit, now)], key2).None?
    ensures var r := rows + [NewRow(nextId, key1, name, "", DefaultRateLimit, now)]
                          + [NewRow(nextId + 1, key2, name, "", DefaultRateLimit, now)];
      && key1 != key2
      && ValidationOf(r, key1) == Valid(KeyInfo(nextId, name, DefaultRateLimit, 1))
      && ValidationOf(r, key2) == Valid(KeyInfo(nextId + 1, name, DefaultRateLimit, 1))
  {
    var n1 := NewRow(nextId, key1, name, "", DefaultRateLimit, now);
    var n2 := NewRow(nextId + 1, key2, name, "", DefaultRateLimit, now);
    var r1 := rows + [n1];
    AppendFresh(rows, n1);
    AppendFresh(r1, n2);
    assert r1[|rows|].key == key1;
    var r := r1 + [n2];
    assert r[|rows|] == n1 && r[|rows| + 1] == n2;
    ValidationOfRow(r, |rows|, key1);
    ValidationOfRow(r, |rows| + 1, key2);
  }

  /** The ApiKeyService's table and the AUTOINCREMENT counter behind it. */
  class ApiKeyService {
    const keyLength: nat
    var rows: seq<ApiKeyRow>
    /** The id the next insert receives. */
    var nextId: nat

    ghost predicate Valid()
      reads this
    {
      && WellFormedKeys(rows)
      && nextId >= 1
      && forall x :: x in rows ==> 1 <= x.id < nextId
    }

    constructor (keyLengthSetting: Option<nat>)
      ensures Valid() && rows == [] && nextId == 1
      ensures keyLength == KeyLength(keyLengthSetting)
    {
      keyLength := KeyLength(keyLengthSetting);
      rows := [];
      nextId := 1;
    }

    /** createApiKey: description defaults to "" and the rate limit to 1000; a
        generated key that is already taken makes the insert fail. */
    method CreateApiKey(name: string, description: Option<string>, rateLimit: Option<int>,
                        random: string, now: nat) returns (r: Result<CreatedKey, CreateError>)
      requires Valid() && |random| >= keyLength
      modifies this
      ensures Valid()
      ensures var key := GenerateKey(keyLength, random);
        var desc := if description.Some? then description.value else "";
        var limit := if rateLimit.Some? then rateLimit.value else DefaultRateLimit;
        if IndexOfToken(old(rows), key).Some? then
          r == Err(DuplicateToken) && rows == old(rows) && nextId == old(nextId)
        else
          && r == Ok(CreatedKey(old(nextId), key, name, desc, limit, true, now))
          && rows == old(rows) + [NewRow(old(nextId), key, name, desc, limit, now)]
          && nextId == old(nextId) + 1
    {
      var key := GenerateKey(keyLength, random);
      var desc := if description.Some? then description.value else "";
      var limit := if rateLimit.Some? then rateLimit.value else DefaultRateLimit;
      if IndexOfToken(rows, key).Some? {
        return Err(DuplicateToken);
      }
      var id := nextId;
      rows := rows + [NewRow(id, key, name, desc, limit, now)];
      nextId := nextId + 1;
      r := Ok(CreatedKey(id, key, name, desc, limit, true, now));
    }

    method ValidateApiKey(key: string, now: nat) returns (v: Validation)
      requires Valid()
      modifies this
      ensures Valid()
      ensures v == ValidationOf(old(rows), key)
      ensures rows == AfterValidation(old(rows), key, now) && nextId == old(nextId)
    {
      v := ValidationOf(rows, key);
      rows := AfterValidation(rows, key, now);
    }

    /** revokeApiKey: true whenever the id exists, even if already revoked. */
    method RevokeApiKey(id: nat) returns (found: bool)
      requires Valid()
      modifies this
      ensures Valid()
      ensures found == GetApiKey(old(rows), id).Some?
      ensures rows == WithActiveFlag(old(rows), id, false) && nextId == old(nextId)
    {
      found := GetApiKey(rows, id).Some?;
      rows := WithActiveFlag(rows, id, false);
    }

    /** reactivateApiKey: true whenever the id exists, even if already active. */
    method ReactivateApiKey(id: nat) returns (found: bool)
      requires Valid()
      modifies this
      ensures Valid()
      ensures found == GetApiKey(old(rows), id).Some?
      ensures rows == WithActiveFlag(old(rows), id, true) && nextId == old(nextId)
    {
      found := GetApiKey(rows, id).Some?;
      rows := WithActiveFlag(rows, id, true);
    }

    method DeleteApiKey(id: nat) returns (found: bool)
      requires Valid()
      modifies this
      ensures Valid()
      ensures found == GetApiKey(old(rows), id).Some?
      ensures rows == WithoutId(old(rows), id) && nextId == old(nextId)
    {
      found := GetApiKey(rows, id).Some?;
      rows := WithoutId(rows, id);
    }

    /** updateApiKey: false without touching the table when the patch has no
        allow-listed field; otherwise true iff the id exists. */
    method UpdateApiKey(id: nat, p: KeyPatch) returns (updated: bool)
      requires Valid()
      modifies this
      ensures Valid()
      ensures updated == (HasFields(p) && GetApiKey(old(rows), id).Some?)
      ensures rows == Patched(old(rows), id, p) && nextId == old(nextId)
    {
      if !HasFields(p) {
        return false;
      }
      updated := GetApiKey(rows, id).Some?;
      rows := Patched(rows, id, p);
    }
  }
}
