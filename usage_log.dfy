/** The usage_stats table: one appended row per completed /translate request,
    and the per-day aggregation that a key's statistics report reads from it. */
module UsageLog {
  import opened Wrappers

  const SecondsPerDay: nat := 86400
  /** LIMIT 30 of the statistics query. */
  const StatsDayLimit: nat := 30

  /** One usage_stats row. `apiKey` is free text: the route writes the key's
      display name there, not its token. */
  datatype UsageRow = UsageRow(apiKey: string, endpoint: string, timestamp: nat,
                               responseTime: nat, success: bool)

  /** DATE(timestamp), counted in days since the epoch (timestamps are UTC seconds). */
  function Day(t: nat): nat
  {
    t / SecondsPerDay
  }

  /** One group of the statistics query; AVG(response_time) is not modelled. */
  datatype DayStats = DayStats(date: nat, totalRequests: nat, successfulRequests: nat)

  /** The table itself; rows are only ever appended. */
  class UsageTable {
    var rows: seq<UsageRow>

    constructor ()
      ensures rows == []
    {
      rows := [];
    }

    /** INSERT INTO usage_stats; the timestamp column defaults to the current time. */
    method Record(apiKey: string, endpoint: string, now: nat, responseTime: nat, success: bool)
      modifies this
      ensures rows == old(rows) + [UsageRow(apiKey, endpoint, now, responseTime, success)]
    {
      rows := rows + [UsageRow(apiKey, endpoint, now, responseTime, success)];
    }
  }

  /** WHERE api_key = ?, in table order. */
  function RowsFor(rows: seq<UsageRow>, key: string): (r: seq<UsageRow>)
    ensures forall u :: u in r <==> u in rows && u.apiKey == key
    ensures |r| <= |rows|
  {
    if rows == [] then []
    else (if rows[0].apiKey == key then [rows[0]] else []) + RowsFor(rows[1..], key)
  }

  /** Appending a row extends the selection only when the row carries `key`. */
  lemma {:induction false} RowsForAppend(rows: seq<UsageRow>, u: UsageRow, key: string)
    ensures RowsFor(rows + [u], key) == RowsFor(rows, key) + (if u.apiKey == key then [u] else [])
  {
    if rows == [] {
      assert RowsFor([u], key) == (if u.apiKey == key then [u] else []) + RowsFor([], key);
    } else {
      assert (rows + [u])[1..] == rows[1..] + [u];
      RowsForAppend(rows[1..], u, key);
    }
  }

  /** Some row of `rows` is dated `d`. */
  ghost predicate HasDay(rows: seq<UsageRow>, d: nat)
  {
    exists u :: u in rows && Day(u.timestamp) == d
  }

  /** COUNT(*) of the group for day `d`. */
  function CountOn(rows: seq<UsageRow>, d: nat): nat
  {
    if rows == [] then 0
    else (if Day(rows[0].timestamp) == d then 1 else 0) + CountOn(rows[1..], d)
  }

  /** SUM(CASE WHEN success = 1 THEN 1 ELSE 0 END) of the group for day `d`. */
  function SuccessesOn(rows: seq<UsageRow>, d: nat): (n: nat)
    ensures n <= CountOn(rows, d)
  {
    if rows == [] then 0
    else (if Day(rows[0].timestamp) == d && rows[0].success then 1 else 0) + SuccessesOn(rows[1..], d)
  }

  lemma {:induction false} CountOnPositive(rows: seq<UsageRow>, d: nat)
    requires HasDay(rows, d)
    ensures CountOn(rows, d) >= 1
  {
    var u :| u in rows && Day(u.timestamp) == d;
    if Day(rows[0].timestamp) != d {
      assert u in rows[1..];
      CountOnPositive(rows[1..], d);
    }
  }

  predicate StrictlyDecreasing(s: seq<nat>)
  {
    forall i, j :: 0 <= i < j < |s| ==> s[i] > s[j]
  }

  /** Adds day `d` to a newest-first list of distinct days. */
  function InsertDay(d: nat, s: seq<nat>): (r: seq<nat>)
    requires StrictlyDecreasing(s)
    ensures StrictlyDecreasing(r)
    ensures forall x :: x in r <==> x == d || x in s
  {
    if s == [] then [d]
    else if d > s[0] then [d] + s
    else if d == s[0] then s
    else
      var rest := InsertDay(d, s[1..]);
      assert forall x :: x in rest ==> x < s[0];
      var r := [s[0]] + rest;
      assert StrictlyDecreasing(r) by {
        forall i, j | 0 <= i < j < |r| ensures r[i] > r[j] {
          if i == 0 {
            assert r[j] in rest;
          } else {
            assert r[i] == rest[i - 1] && r[j] == rest[j - 1];
          }
        }
      }
      r
  }

  /** GROUP BY DATE(timestamp) ORDER BY date DESC: the distinct days, newest first. */
  function DaysNewestFirst(rows: seq<UsageRow>): (r: seq<nat>)
    ensures StrictlyDecreasing(r)
    ensures forall d :: d in r <==> HasDay(rows, d)
  {
    if rows == [] then []
    else
      var rest := DaysNewestFirst(rows[1..]);
      assert forall d :: HasDay(rows, d) <==> d == Day(rows[0].timestamp) || HasDay(rows[1..], d) by {
        forall d ensures HasDay(rows, d) ==> d == Day(rows[0].timestamp) || HasDay(rows[1..], d) {
          if HasDay(rows, d) {
            var u :| u in rows && Day(u.timestamp) == d;
            if u != rows[0] { assert u in rows[1..]; }
          }
        }
      }
      InsertDay(Day(rows[0].timestamp), rest)
  }

  /** The dailyStats part of a key's statistics: the usage rows labelled `key`,
      grouped by day, newest day first, at most 30 groups. */
  function DailyStats(rows: seq<UsageRow>, key: string): (r: seq<DayStats>)
    ensures |r| <= StatsDayLimit
  {
    var mine := RowsFor(rows, key);
    var days := DaysNewestFirst(mine);
    var shown := days[..Min(StatsDayLimit, |days|)];
    seq(|shown|, i requires 0 <= i < |shown| =>
      DayStats(shown[i], CountOn(mine, shown[i]), SuccessesOn(mine, shown[i])))
  }

  /** The groups are the first 30 distinct days of the rows labelled `key`, newest first. */
  lemma DailyStatsAt(rows: seq<UsageRow>, key: string)
    ensures var days := DaysNewestFirst(RowsFor(rows, key));
      var r := DailyStats(rows, key);
      && |r| == Min(StatsDayLimit, |days|)
      && forall i :: 0 <= i < |r| ==>
           r[i] == DayStats(days[i], CountOn(RowsFor(rows, key), days[i]), SuccessesOn(RowsFor(rows, key), days[i]))
  {
  }

  /** Distinct days, newest first; every group is non-empty and comes from a row labelled `key`. */
  lemma DailyStatsGroups(rows: seq<UsageRow>, key: string)
    ensures var r := DailyStats(rows, key);
      && (forall i, j :: 0 <= i < j < |r| ==> r[i].date > r[j].date)
      && (forall i :: 0 <= i < |r| ==>
            && r[i].totalRequests == CountOn(RowsFor(rows, key), r[i].date)
            && r[i].successfulRequests == SuccessesOn(RowsFor(rows, key), r[i].date)
            && 1 <= r[i].totalRequests
            && exists u :: u in rows && u.apiKey == key && Day(u.timestamp) == r[i].date)
  {
    var mine := RowsFor(rows, key);
    var days := DaysNewestFirst(mine);
    var r := DailyStats(rows, key);
    DailyStatsAt(rows, key);
    forall i | 0 <= i < |r|
      ensures 1 <= r[i].totalRequests
      ensures exists u :: u in rows && u.apiKey == key && Day(u.timestamp) == r[i].date
    {
      assert days[i] in days;
      CountOnPositive(mine, days[i]);
    }
  }

  /** The day of a row labelled `key` is missing from the report only when 30
      newer days already fill it. */
  lemma DailyStatsComplete(rows: seq<UsageRow>, key: string, u: UsageRow)
    requires u in rows && u.apiKey == key
    ensures var r := DailyStats(rows, key);
      || (exists i :: 0 <= i < |r| && r[i].date == Day(u.timestamp))
      || (|r| == StatsDayLimit && forall i :: 0 <= i < |r| ==> r[i].date > Day(u.timestamp))
  {
    var mine := RowsFor(rows, key);
    var days := DaysNewestFirst(mine);
    var r := DailyStats(rows, key);
    DailyStatsAt(rows, key);
    var d := Day(u.timestamp);
    assert u in mine && HasDay(mine, d);
    var k :| 0 <= k < |days| && days[k] == d;
    if k < |r| {
      assert r[k].date == d;
    }
  }

  /** Rows labelled with anything other than `key` never reach its statistics. */
  lemma {:induction false} StatsIgnoreOtherLabels(rows: seq<UsageRow>, key: string)
    requires forall u :: u in rows ==> u.apiKey != key
    ensures DailyStats(rows, key) == []
  {
    var mine := RowsFor(rows, key);
    if mine != [] {
      assert mine[0] in mine;
    }
    assert DaysNewestFirst(mine) == [];
  }

  /** A new row labelled with anything other than `key` leaves its statistics unchanged. */
  lemma AppendOtherLabelKeepsStats(rows: seq<UsageRow>, u: UsageRow, key: string)
    requires u.apiKey != key
    ensures DailyStats(rows + [u], key) == DailyStats(rows, key)
  {
    RowsForAppend(rows, u, key);
    assert RowsFor(rows, key) + [] == RowsFor(rows, key);
  }
}
