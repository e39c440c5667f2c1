/** The bot's performance counters: a bounded list of execution times per
    command, error counts per command, command counts per user, and the
    statistics report built from them. Time and the process memory reading
    are passed in as parameters. */
module Metrics {
  import opened Common

  const MaxLatencyEntries: nat := 1000
  const ActivityCleanupInterval: real := 86400.0

  // ---------------------------------------------------------------------
  // Aggregates over a list of execution times
  // ---------------------------------------------------------------------

  function Sum(s: seq<real>): real {
    if s == [] then 0.0 else Sum(s[..|s| - 1]) + s[|s| - 1]
  }

  function MaxOf(s: seq<real>): (r: real)
    requires s != []
    ensures r in s
    ensures forall x :: x in s ==> x <= r
  {
    if |s| == 1 then s[0]
    else
      var front := s[..|s| - 1];
      assert s == front + [s[|s| - 1]];
      var m := MaxOf(front);
      if s[|s| - 1] > m then s[|s| - 1] else m
  }

  function MinOf(s: seq<real>): (r: real)
    requires s != []
    ensures r in s
    ensures forall x :: x in s ==> r <= x
  {
    if |s| == 1 then s[0]
    else
      var front := s[..|s| - 1];
      assert s == front + [s[|s| - 1]];
      var m := MinOf(front);
      if s[|s| - 1] < m then s[|s| - 1] else m
  }

  /** The sum of a list lies between its length times its minimum and its
      length times its maximum. */
  lemma {:induction false} SumBetween(s: seq<real>, lo: real, hi: real)
    requires forall x :: x in s ==> lo <= x <= hi
    ensures |s| as real * lo <= Sum(s) <= |s| as real * hi
  {
    if s != [] {
      var front := s[..|s| - 1];
      assert forall x :: x in front ==> x in s;
      SumBetween(front, lo, hi);
      assert s[|s| - 1] in s;
    }
  }

  /** The mean of a non-empty list lies between its minimum and maximum. */
  lemma {:induction false} MeanBetween(s: seq<real>)
    requires s != []
    ensures MinOf(s) <= Sum(s) / |s| as real <= MaxOf(s)
  {
    var n, lo, hi, total := |s| as real, MinOf(s), MaxOf(s), Sum(s);
    SumBetween(s, lo, hi);
    DivideBounds(lo, total, hi, n);
  }

  lemma {:induction false} DivideBounds(lo: real, total: real, hi: real, n: real)
    requires n > 0.0 && n * lo <= total <= n * hi
    ensures lo <= total / n <= hi
  {
  }

  /** The last `MaxLatencyEntries` times. */
  function KeepLast(s: seq<real>): (r: seq<real>)
    ensures |s| <= MaxLatencyEntries ==> r == s
    ensures |s| > MaxLatencyEntries ==> r == s[|s| - MaxLatencyEntries..]
  {
    if |s| > MaxLatencyEntries then s[|s| - MaxLatencyEntries..] else s
  }

  // ---------------------------------------------------------------------
  // log_command
  // ---------------------------------------------------------------------

  function Latencies(lat: map<string, seq<real>>, command: string): seq<real> {
    if command in lat then lat[command] else []
  }

  /** The latency half of `log_command`: the time is appended to the list of
      the command (without its leading '/'), which then keeps only its most
      recent 1000 entries; no other list changes. */
  function LogLatency(lat: map<string, seq<real>>, key: string, t: real): (r: map<string, seq<real>>)
    ensures r.Keys == lat.Keys + {key}
    ensures forall c :: c in lat && c != key ==> r[c] == lat[c]
  {
    lat[key := KeepLast(Latencies(lat, key) + [t])]
  }

  /** The logged time ends the command's list, which grows by one until it
      reaches 1000 entries and then drops its oldest entry. */
  lemma LogLatencyAppends(lat: map<string, seq<real>>, key: string, t: real)
    ensures var after := LogLatency(lat, key, t)[key];
            var before := Latencies(lat, key);
            && after != [] && after[|after| - 1] == t
            && |after| == (if |before| >= MaxLatencyEntries then MaxLatencyEntries else |before| + 1)
            && after[..|after| - 1] == before[|before| + 1 - |after|..]
  {
    var before := Latencies(lat, key);
    var kept := KeepLast(before + [t]);
    assert kept[..|kept| - 1] == before[|before| + 1 - |kept|..];
  }

  /** `error_counts[command]` of a defaultdict(int): 0 when absent. */
  function ErrorsOf(errors: map<string, nat>, command: string): nat {
    if command in errors then errors[command] else 0
  }

  /** The error half of `log_command`: the command's count goes up by one
      only for a failed command. */

  function LogError(errors: map<string, nat>, key: string, success: bool): (r: map<string, nat>)
    ensures success ==> r == errors
    ensures !success ==> r.Keys == errors.Keys + {key} &&
                         ErrorsOf(r, key) == ErrorsOf(errors, key) + 1 &&
                         forall c :: c != key ==> ErrorsOf(r, c) == ErrorsOf(errors, c)
  {
    if success then errors
    else errors[key := ErrorsOf(errors, key) + 1]
  }

  /** What a run of `n` failed calls of one command leaves behind, starting
      from empty counters. */
  function FailedRun(n: nat, key: string, t: real): (map<string, seq<real>>, map<string, nat>) {
    if n == 0 then (map[], map[])
    else
      var before := FailedRun(n - 1, key, t);
      (LogLatency(before.0, key, t), LogError(before.1, key, false))
  }

  /** The list of times is capped, but the error count is not. */
  lemma {:induction false} FailedRunCounts(n: nat, key: string, t: real)
    requires n > 0
    ensures key in FailedRun(n, key, t).0 && key in FailedRun(n, key, t).1
    ensures |FailedRun(n, key, t).0[key]| == if n > MaxLatencyEntries then MaxLatencyEntries else n
    ensures FailedRun(n, key, t).1[key] == n
  {
    if n > 1 {
      FailedRunCounts(n - 1, key, t);
    }
  }

  // ---------------------------------------------------------------------
  // get_stats
  // ---------------------------------------------------------------------

  /** One command's entry of the report; latencies are in milliseconds. */
  datatype CommandStat = CommandStat(
    command: string,
    avgLatencyMs: real,
    maxLatencyMs: real,
    minLatencyMs: real,
    usageCount: nat,
    errorCount: nat,
    errorRatePercent: real)

  /** The report. `uptimeSeconds` is the whole number of seconds the source
      renders as a duration. */
  datatype Stats = Stats(
    uptimeSeconds: int,
    activeUsers: nat,
    totalCommands: nat,
    totalErrors: nat,
    overallErrorRate: real,
    memoryMb: real,
    commandStats: seq<CommandStat>)

  /** `part / whole * 100` when `whole` is non-zero, otherwise 0. */
  function Percentage(part: nat, whole: nat): (r: real)
    ensures whole == 0 ==> r == 0.0
    ensures whole != 0 ==> r * whole as real == part as real * 100.0
    ensures 0.0 <= r
    ensures part <= whole ==> r <= 100.0
  {
    if whole != 0 then
      var q := part as real / whole as real;
      assert q * whole as real == part as real;
      q * 100.0
    else 0.0
  }

  /** The report entry of one command with a non-empty list of times. */
  function CommandRow(command: string, times: seq<real>, errors: nat): (r: CommandStat)
    requires times != []
    ensures r.command == command && r.usageCount == |times| && r.errorCount == errors
    ensures r.minLatencyMs <= r.avgLatencyMs <= r.maxLatencyMs
    ensures forall x :: x in times ==> r.minLatencyMs <= x * 1000.0 <= r.maxLatencyMs
    ensures exists x :: x in times && x * 1000.0 == r.maxLatencyMs
    ensures exists x :: x in times && x * 1000.0 == r.minLatencyMs
    ensures r.avgLatencyMs * |times| as real == Sum(times) * 1000.0
    ensures r.errorRatePercent == Percentage(errors, |times|)
  {
    CommandStat(command, AverageMs(times), MaxOf(times) * 1000.0, MinOf(times) * 1000.0,
                |times|, errors, Percentage(errors, |times|))
  }

  /** The mean of the times, in milliseconds. */
  function AverageMs(times: seq<real>): (r: real)
    requires times != []
    ensures MinOf(times) * 1000.0 <= r <= MaxOf(times) * 1000.0
    ensures r * |times| as real == Sum(times) * 1000.0
  {
    var n := |times| as real;
    MeanBetween(times);
    ScaleMean(Sum(times), n);
    Sum(times) / n * 1000.0
  }

  lemma ScaleMean(total: real, n: real)
    requires n > 0.0
    ensures total / n * 1000.0 * n == total * 1000.0
  {
    assert total / n * n == total;
  }

  /** The entries of the commands in `order` whose lists are non-empty. */
  function CommandRows(order: seq<string>, lat: map<string, seq<real>>, errors: map<string, nat>): (r: seq<CommandStat>)
    ensures forall row :: row in r ==>
              row.command in order && Latencies(lat, row.command) != [] &&
              row == CommandRow(row.command, Latencies(lat, row.command),
                                                       ErrorsOf(errors, row.command))
    ensures forall c :: c in order && Latencies(lat, c) != [] ==>
              CommandRow(c, Latencies(lat, c), ErrorsOf(errors, c)) in r
  {
    if order == [] then []
    else
      var front := CommandRows(order[..|order| - 1], lat, errors);
      var c := order[|order| - 1];
      assert forall d :: d in order <==> d in order[..|order| - 1] || d == c by {
        assert order == order[..|order| - 1] + [c];
      }
      var times := Latencies(lat, c);
      if times != [] then front + [CommandRow(c, times, ErrorsOf(errors, c))] else front
  }

  /** Every entry belongs to a command of `order`. */
  lemma {:induction false} CommandRowsFromOrder(order: seq<string>, lat: map<string, seq<real>>, errors: map<string, nat>)
    ensures var r := CommandRows(order, lat, errors);
            forall k :: 0 <= k < |r| ==> r[k].command in order
  {
    if order != [] {
      var front := order[..|order| - 1];
      CommandRowsFromOrder(front, lat, errors);
      assert forall x :: x in front ==> x in order;
    }
  }

  /** One more command adds its entry at the end when its list is
      non-empty, and nothing otherwise. */
  lemma CommandRowsSnoc(order: seq<string>, lat: map<string, seq<real>>, errors: map<string, nat>)
    requires order != []
    ensures var front, c := order[..|order| - 1], order[|order| - 1];
            CommandRows(order, lat, errors) ==
              if Latencies(lat, c) != [] then CommandRows(front, lat, errors) + [CommandRow(c, Latencies(lat, c), ErrorsOf(errors, c))]
              else CommandRows(front, lat, errors)
  {
  }

  /** With distinct command keys, no command has two entries. */
  lemma {:induction false} CommandRowsDistinct(order: seq<string>, lat: map<string, seq<real>>, errors: map<string, nat>)
    requires Distinct(order)
    ensures var r := CommandRows(order, lat, errors);
            forall i, j :: 0 <= i < j < |r| ==> r[i].command != r[j].command
  {
    if order != [] {
      var front := order[..|order| - 1];
      var c := order[|order| - 1];
      assert Distinct(front);
      CommandRowsDistinct(front, lat, errors);
      CommandRowsFromOrder(front, lat, errors);
      assert c !in front;
      var rows := CommandRows(front, lat, errors);
      CommandRowsSnoc(order, lat, errors);
      if Latencies(lat, c) != [] {
        AppendNewCommand(rows, CommandRow(c, Latencies(lat, c), ErrorsOf(errors, c)), front);
      }
    }
  }

  /** Adding an entry for a command outside `keys` to entries of distinct
      commands from `keys` keeps the commands distinct. */
  lemma AppendNewCommand(rows: seq<CommandStat>, row: CommandStat, keys: seq<string>)
    requires forall i, j :: 0 <= i < j < |rows| ==> rows[i].command != rows[j].command
    requires forall k :: 0 <= k < |rows| ==> rows[k].command in keys
    requires row.command !in keys
    ensures var r := rows + [row];
            forall i, j :: 0 <= i < j < |r| ==> r[i].command != r[j].command
  {
    var r := rows + [row];
    forall i, j | 0 <= i < j < |r| ensures r[i].command != r[j].command {
      assert r[i] == rows[i];
      if j < |rows| {
        assert r[j] == rows[j];
      }
    }
  }

  function TotalCommands(order: seq<string>, lat: map<string, seq<real>>): nat {
    if order == [] then 0
    else TotalCommands(order[..|order| - 1], lat) + |Latencies(lat, order[|order| - 1])|
  }

  function TotalErrors(order: seq<string>, errors: map<string, nat>): nat {
    if order == [] then 0
    else TotalErrors(order[..|order| - 1], errors) + ErrorsOf(errors, order[|order| - 1])
  }

  function UsageKey(row: CommandStat): Option<int> {
    Some(row.usageCount)
  }

  /** `int()` of a float: truncation toward zero. */
  function Truncate(x: real): (r: int)
    ensures x >= 0.0 ==> r as real <= x < r as real + 1.0
    ensures x < 0.0 ==> r as real - 1.0 < x <= r as real
  {
    if x >= 0.0 then x.Floor else -((-x).Floor)
  }

  // ---------------------------------------------------------------------
  // The metrics object
  // ---------------------------------------------------------------------

  lemma AppendDistinct(s: seq<string>, x: string)
    requires Distinct(s) && x !in s
    ensures Distinct(s + [x])
  {
  }

  /** `order` lists each logged command once; errors are only counted for
      logged commands; no list exceeds the cap. */
  predicate Consistent(order: seq<string>, lat: map<string, seq<real>>, errors: map<string, nat>) {
    && Distinct(order)
    && (forall c :: c in order ==> c in lat)
    && (forall c :: c in lat ==> c in order)
    && errors.Keys <= lat.Keys
    && (forall c :: c in lat ==> |lat[c]| <= MaxLatencyEntries)
  }

  /** Logging a command keeps the counters consistent: a new command is
      appended to `order`, and the capped list stays within the cap. */
  lemma LogKeepsConsistent(order: seq<string>, lat: map<string, seq<real>>, errors: map<string, nat>,
                           key: string, t: real, success: bool)
    requires Consistent(order, lat, errors)
    ensures Consistent(order + (if key in lat then [] else [key]), LogLatency(lat, key, t), LogError(errors, key, success))
  {
    if key !in lat {
      AppendDistinct(order, key);
    }
  }

  class BotMetrics {
    /** command -> its most recent execution times (seconds) */
    var commandLatency: map<string, seq<real>>
    /** the commands of `commandLatency` in the order they were first logged */
    var order: seq<string>
    /** command -> number of failed executions */
    var errorCounts: map<string, nat>
    /** user id -> commands since the last activity reset */
    var userActivity: map<int, nat>
    var startTime: real
    var lastActivityCleanup: real

    /** `order` lists each logged command once; errors are only counted for
        logged commands; no list exceeds the cap. */
    predicate Valid()
      reads this
    {
      Consistent(order, commandLatency, errorCounts)
    }

    constructor(now: real)
      ensures Valid()
      ensures commandLatency == map[] && order == [] && errorCounts == map[] && userActivity == map[]
      ensures startTime == now && lastActivityCleanup == now
    {
      commandLatency := map[];
      order := [];
      errorCounts := map[];
      userActivity := map[];
      startTime := now;
      lastActivityCleanup := now;
    }

    method LogCommand(command: string, userId: int, executionTime: real, success: bool)
      requires Valid()
      modifies this
      ensures Valid()
      ensures commandLatency == LogLatency(old(commandLatency), StripSlash(command), executionTime)
      ensures errorCounts == LogError(old(errorCounts), StripSlash(command), success)
      ensures userActivity ==
                old(userActivity)[userId := (if userId in old(userActivity) then old(userActivity)[userId] else 0) + 1]
      ensures order == old(order) + (if StripSlash(command) in old(commandLatency) then [] else [StripSlash(command)])
      ensures startTime == old(startTime) && lastActivityCleanup == old(lastActivityCleanup)
    {
      var key := StripSlash(command);
      LogKeepsConsistent(order, commandLatency, errorCounts, key, executionTime, success);
      if key !in commandLatency {
        order := order + [key];
      }
      var times := KeepLast(Latencies(commandLatency, key) + [executionTime]);
      commandLatency := commandLatency[key := times];
      var count := if userId in userActivity then userActivity[userId] else 0;
      userActivity := userActivity[userId := count + 1];
      if !success {
        errorCounts := errorCounts[key := ErrorsOf(errorCounts, key) + 1];
      }
    }

    /** `get_stats`, with the current time and the memory reading as inputs:
        totals over every logged command, an overall error rate of 0 when
        nothing is logged, and one entry per command with a non-empty list,
        ordered by usage count, highest first. */
    function GetStats(now: real, memoryMb: real): (r: Stats)
      reads this
      ensures r.uptimeSeconds == Truncate(now - startTime)
      ensures r.activeUsers == |userActivity.Keys|
      ensures r.totalCommands == TotalCommands(order, commandLatency)
      ensures r.totalErrors == TotalErrors(order, errorCounts)
      ensures r.overallErrorRate == Percentage(r.totalErrors, r.totalCommands)
      ensures r.memoryMb == memoryMb
      ensures multiset(r.commandStats) == multiset(CommandRows(order, commandLatency, errorCounts))
      ensures SortedDesc(r.commandStats, UsageKey)
    {
      var total := TotalCommands(order, commandLatency);
      var errors := TotalErrors(order, errorCounts);
      var rows := CommandRows(order, commandLatency, errorCounts);
      SortDescSorted(rows, UsageKey);
      Stats(Truncate(now - startTime), |userActivity.Keys|, total, errors,
            Percentage(errors, total),
            memoryMb, SortDesc(rows, UsageKey))
    }

    /** `cleanup_old_data`: the per-user counts are reset, and the reset time
        moved to `now`, only when more than a day has passed since the last
        reset. */
    method CleanupOldData(now: real)
      modifies this
      ensures now - old(lastActivityCleanup) > ActivityCleanupInterval ==>
                userActivity == map[] && lastActivityCleanup == now
      ensures now - old(lastActivityCleanup) <= ActivityCleanupInterval ==>
                userActivity == old(userActivity) && lastActivityCleanup == old(lastActivityCleanup)
      ensures commandLatency == old(commandLatency) && order == old(order) &&
              errorCounts == old(errorCounts) && startTime == old(startTime)
    {
      if now - lastActivityCleanup > ActivityCleanupInterval {
        userActivity := map[];
        lastActivityCleanup := now;
      }
    }
  }

  /** Every entry of the report is about a logged command and carries that
      command's usage count, capped at 1000 for a valid object; every logged
      command with a non-empty list has an entry. */
  lemma ReportEntries(m: BotMetrics, now: real, memoryMb: real)
    requires m.Valid()
    ensures forall row :: row in m.GetStats(now, memoryMb).commandStats ==>
              row.command in m.commandLatency &&
              row.usageCount == |m.commandLatency[row.command]| &&
              1 <= row.usageCount <= MaxLatencyEntries &&
              row.errorCount == ErrorsOf(m.errorCounts, row.command)
    ensures forall c :: c in m.commandLatency && m.commandLatency[c] != [] ==>
              exists row :: row in m.GetStats(now, memoryMb).commandStats && row.command == c
  {
    var rows := CommandRows(m.order, m.commandLatency, m.errorCounts);
    var stats := m.GetStats(now, memoryMb).commandStats;
    SortDescMembers(rows, UsageKey);
    forall c | c in m.commandLatency && m.commandLatency[c] != []
      ensures exists row :: row in stats && row.command == c
    {
      var row := CommandRow(c, Latencies(m.commandLatency, c), ErrorsOf(m.errorCounts, c));
      assert row in rows;
      assert row in stats;
    }
  }

  /** Because the list of times is capped at 1000 while the error count keeps
      growing, a command that failed 1001 times in a row reports an error
      rate above 100 percent. */
  lemma ErrorRateCanExceedHundred(key: string, t: real)
    ensures var run := FailedRun(1001, key, t);
            CommandRow(key, run.0[key], run.1[key]).errorRatePercent > 100.0
  {
    FailedRunCounts(1001, key, t);
  }
}
