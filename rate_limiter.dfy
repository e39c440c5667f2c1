/** The per-user command rate limiter: every user has one list of command
    timestamps; a command is refused while the user's latest command is less
    than that command's cooldown ago. Time is passed in as `now` (seconds). */
module RateLimiting {
  import opened Common

  /** Seconds a user must wait after any command before the named command. */
  const Cooldowns: map<string, nat> := map[
    "default" := 3,
    "start" := 30,
    "help" := 10,
    "nba" := 5,
    "ncaab" := 5,
    "nbateam" := 5,
    "ncaabteam" := 5,
    "fadenba" := 10,
    "fadencaab" := 10,
    "fades" := 10,
    "fadestats" := 15,
    "fadehistory" := 15,
    "warn" := 5,
    "tempban" := 5,
    "userinfo" := 5,
    "banlist" := 10,
    "analytics" := 15,
    "botstats" := 15,
    "health" := 10,
    "broadcast" := 60,
    "config" := 5
  ]

  /** `max(self.cooldowns.values())`: how long a timestamp is kept. */
  const LongestCooldown: nat := 60

  lemma LongestCooldownIsMaximum()
    ensures forall k :: k in Cooldowns ==> Cooldowns[k] <= LongestCooldown
    ensures "broadcast" in Cooldowns && Cooldowns["broadcast"] == LongestCooldown
  {
  }

  /** The cooldown of a command: one leading '/' is dropped before the
      lookup, and an unknown command gets the default of 3 seconds. */
  function CooldownFor(command: string): (r: nat)
    ensures StripSlash(command) in Cooldowns ==> r == Cooldowns[StripSlash(command)]
    ensures StripSlash(command) !in Cooldowns ==> r == 3
    ensures 3 <= r <= LongestCooldown
  {
    var key := StripSlash(command);
    if key in Cooldowns then Cooldowns[key] else Cooldowns["default"]
  }

  /** The timestamps younger than the longest cooldown, in their order. */
  function Recent(ts: seq<real>, now: real): (r: seq<real>)
    ensures |r| <= |ts|
    ensures forall t :: t in r <==> t in ts && now - t < LongestCooldown as real
  {
    if ts == [] then []
    else
      var last := ts[|ts| - 1];
      var front := Recent(ts[..|ts| - 1], now);
      assert forall t :: t in ts <==> t in ts[..|ts| - 1] || t == last by {
        assert ts == ts[..|ts| - 1] + [last];
      }
      if now - last < LongestCooldown as real then front + [last] else front
  }

  /** Pruning a list that ends in a timestamp still young enough keeps it as
      the last entry. */
  lemma RecentSnoc(ts: seq<real>, x: real, now: real)
    ensures Recent(ts + [x], now) ==
              if now - x < LongestCooldown as real then Recent(ts, now) + [x] else Recent(ts, now)
  {
    assert (ts + [x])[..|ts|] == ts;
  }

  /** Pruning twice at the same time is pruning once. */
  lemma {:induction false} RecentIdempotent(ts: seq<real>, now: real)
    ensures Recent(Recent(ts, now), now) == Recent(ts, now)
  {
    if ts != [] {
      var front := ts[..|ts| - 1];
      var last := ts[|ts| - 1];
      assert ts == front + [last];
      RecentSnoc(front, last, now);
      RecentIdempotent(front, now);
      if now - last < LongestCooldown as real {
        RecentSnoc(Recent(front, now), last, now);
      }
    }
  }

  /** Timestamps in non-decreasing order, none later than `now`. */
  predicate Chronological(ts: seq<real>, now: real) {
    (forall i, j :: 0 <= i < j < |ts| ==> ts[i] <= ts[j]) &&
    (forall i :: 0 <= i < |ts| ==> ts[i] <= now)
  }

  /** Pruning keeps a chronological list chronological. */
  lemma {:induction false} RecentChronological(ts: seq<real>, now: real)
    requires Chronological(ts, now)
    ensures Chronological(Recent(ts, now), now)
  {
    if ts != [] {
      var front := ts[..|ts| - 1];
      var last := ts[|ts| - 1];
      assert Chronological(front, now);
      RecentChronological(front, now);
      var r := Recent(front, now);
      assert forall i :: 0 <= i < |r| ==> r[i] in front && r[i] <= last by {
        forall i | 0 <= i < |r|
          ensures r[i] in front && r[i] <= last
        {
          assert r[i] in r;
          var k :| 0 <= k < |front| && front[k] == r[i];
          assert ts[k] == front[k];
        }
      }
    }
  }

  function UserTimes(times: map<int, seq<real>>, userId: int): seq<real> {
    if userId in times then times[userId] else []
  }

  /** The outcome of one check: the new table, whether the call is limited and
      how long to wait. */
  datatype Check = Check(times: map<int, seq<real>>, limited: bool, wait: real)

  /** `check_rate_limit`: the user's list is pruned (and created when
      absent); the call is limited iff the last kept timestamp is less than the
      command's cooldown ago, and then the wait is the rest of that cooldown
      and nothing is recorded; otherwise `now` is appended and the wait is 0.
      No other user's list changes. */
  function CheckSpec(times: map<int, seq<real>>, userId: int, command: string, now: real): (r: Check)
    ensures r.times.Keys == times.Keys + {userId}
    ensures forall u :: u in times && u != userId ==> r.times[u] == times[u]
    ensures r.times[userId] ==
              Recent(UserTimes(times, userId), now) + (if r.limited then [] else [now])
    ensures r.limited <==>
              var kept := Recent(UserTimes(times, userId), now);
              kept != [] && now - kept[|kept| - 1] < CooldownFor(command) as real
    ensures r.limited ==> 0.0 < r.wait
    ensures r.limited ==>
              var kept := Recent(UserTimes(times, userId), now);
              r.wait == CooldownFor(command) as real - (now - kept[|kept| - 1])
    ensures !r.limited ==> r.wait == 0.0
  {
    var cooldown := CooldownFor(command) as real;
    var kept := Recent(UserTimes(times, userId), now);
    if kept != [] && now - kept[|kept| - 1] < cooldown then
      Check(times[userId := kept], true, cooldown - (now - kept[|kept| - 1]))
    else
      Check(times[userId := kept + [now]], false, 0.0)
  }

  /** A user with no command in the last minute is never limited. */
  lemma QuietUserIsAllowed(times: map<int, seq<real>>, userId: int, command: string, now: real)
    requires forall t :: t in UserTimes(times, userId) ==> now - t >= LongestCooldown as real
    ensures !CheckSpec(times, userId, command, now).limited
  {
    var kept := Recent(UserTimes(times, userId), now);
    assert forall i :: 0 <= i < |kept| ==> kept[i] in kept;
  }

  /** The limit is per user across commands: right after an allowed command,
      any command of the same user within three seconds is limited, and the
      wait is the rest of that command's cooldown. */
  lemma AllowedThenLimited(times: map<int, seq<real>>, userId: int, first: string,
                           next: string, now: real, later: real)
    requires !CheckSpec(times, userId, first, now).limited
    requires now <= later < now + 3.0
    ensures CheckSpec(CheckSpec(times, userId, first, now).times, userId, next, later).limited
    ensures CheckSpec(CheckSpec(times, userId, first, now).times, userId, next, later).wait ==
              CooldownFor(next) as real - (later - now)
  {
    var after := CheckSpec(times, userId, first, now).times;
    var kept := Recent(UserTimes(times, userId), now);
    assert UserTimes(after, userId) == kept + [now];
    RecentSnoc(kept, now, later);
  }

  /** When the user's history is chronological, the wait never exceeds the
      cooldown, and the new history stays chronological. */
  lemma CheckKeepsChronological(times: map<int, seq<real>>, userId: int, command: string, now: real)
    requires Chronological(UserTimes(times, userId), now)
    ensures Chronological(CheckSpec(times, userId, command, now).times[userId], now)
    ensures CheckSpec(times, userId, command, now).wait <= CooldownFor(command) as real
  {
    var kept := Recent(UserTimes(times, userId), now);
    RecentChronological(UserTimes(times, userId), now);
    if kept != [] {
      assert kept[|kept| - 1] <= now;
    }
  }

  /** `cleanup_old_data`: every list pruned, users left with none removed. */
  function Cleaned(times: map<int, seq<real>>, now: real): (r: map<int, seq<real>>)
    ensures r.Keys <= times.Keys
    ensures forall u :: u in r ==> r[u] != [] && r[u] == Recent(times[u], now)
    ensures forall u :: u in times && Recent(times[u], now) != [] ==> u in r
  {
    map u | u in times && Recent(times[u], now) != [] :: Recent(times[u], now)
  }

  /** Cleaning up is invisible to a check made at the same time: it gives the
      same verdict, the same wait and the same history for that user. */
  lemma CleanupInvisibleToCheck(times: map<int, seq<real>>, userId: int, command: string, now: real)
    ensures CheckSpec(Cleaned(times, now), userId, command, now).limited ==
            CheckSpec(times, userId, command, now).limited
    ensures CheckSpec(Cleaned(times, now), userId, command, now).wait ==
            CheckSpec(times, userId, command, now).wait
    ensures CheckSpec(Cleaned(times, now), userId, command, now).times[userId] ==
            CheckSpec(times, userId, command, now).times[userId]
  {
    var kept := Recent(UserTimes(times, userId), now);
    assert Recent(UserTimes(Cleaned(times, now), userId), now) == kept by {
      if userId in times {
        RecentIdempotent(times[userId], now);
        if kept == [] {
          assert userId !in Cleaned(times, now);
        } else {
          assert UserTimes(Cleaned(times, now), userId) == kept;
        }
      }
    }
  }

  /** Cleaning up twice at the same time is cleaning up once. */
  lemma CleanedIdempotent(times: map<int, seq<real>>, now: real)
    ensures Cleaned(Cleaned(times, now), now) == Cleaned(times, now)
  {
    forall u | u in Cleaned(times, now)
      ensures Recent(Cleaned(times, now)[u], now) == Cleaned(times, now)[u]
    {
      RecentIdempotent(times[u], now);
    }
  }

  class RateLimiter {
    /** user id -> that user's command timestamps, oldest first */
    var commandTimes: map<int, seq<real>>

    constructor()
      ensures commandTimes == map[]
    {
      commandTimes := map[];
    }

    method CheckRateLimit(userId: int, command: string, now: real) returns (limited: bool, wait: real)
      modifies this
      ensures Check(commandTimes, limited, wait) == CheckSpec(old(commandTimes), userId, command, now)
    {
      var cooldown := CooldownFor(command) as real;
      var kept := Recent(UserTimes(commandTimes, userId), now);
      commandTimes := commandTimes[userId := kept];
      if kept != [] {
        var sinceLast := now - kept[|kept| - 1];
        if sinceLast < cooldown {
          return true, cooldown - sinceLast;
        }
      }
      commandTimes := commandTimes[userId := kept + [now]];
      return false, 0.0;
    }

    method CleanupOldData(now: real)
      modifies this
      ensures commandTimes == Cleaned(old(commandTimes), now)
    {
      ghost var start := commandTimes;
      var remaining := commandTimes.Keys;
      while remaining != {}
        invariant remaining <= start.Keys
        invariant forall u :: u in commandTimes <==>
                    u in start && (u in remaining || Recent(start[u], now) != [])
        invariant forall u :: u in commandTimes && u in remaining ==> commandTimes[u] == start[u]
        invariant forall u :: u in commandTimes && u !in remaining ==>
                    commandTimes[u] == Recent(start[u], now)
        decreases remaining
      {
        ghost var someUser := AnyMember(remaining);  // a witness for the choice below
        var user :| user in remaining;
        assert user in commandTimes;
        var kept := Recent(commandTimes[user], now);
        if kept == [] {
          commandTimes := map v | v in commandTimes && v != user :: commandTimes[v];
        } else {
          commandTimes := commandTimes[user := kept];
        }
        remaining := remaining - {user};
      }
      assert commandTimes.Keys == Cleaned(start, now).Keys by {
        forall u ensures u in commandTimes <==> u in Cleaned(start, now) {
        }
      }
      assert forall u :: u in commandTimes ==> commandTimes[u] == Cleaned(start, now)[u];
    }
  }
}
