/** The user manager: temporary bans, warnings and per-user activity
    statistics, held in two dictionaries keyed by user id. Time is passed in
    as `now` (seconds); the periodic database save is not modelled. */
module UserManagement {
  import opened Common

  /** An active ban: until when, why and by which admin. */
  datatype Ban = Ban(until: real, reason: string, byAdmin: int)

  /** One entry of a user's ban history; the duration is in hours. */
  datatype BanRecord = BanRecord(timestamp: real, durationHours: int, reason: string, byAdmin: int)

  datatype Warning = Warning(timestamp: real, reason: string, byAdmin: int)

  /** The statistics record of one user. */
  datatype UserStats = UserStats(
    commands: map<string, nat>,
    lastSeen: real,
    joinDate: Option<real>,
    banHistory: seq<BanRecord>,
    warningHistory: seq<Warning>)

  /** The record a user gets on first use of the `user_stats` defaultdict. */
  const NewUserStats: UserStats := UserStats(map[], 0.0, None, [], [])

  const SecondsPerHour: real := 3600.0

  /** The record of `userId`, a fresh one when the user is unknown. */
  function StatsOf(stats: map<int, UserStats>, userId: int): UserStats {
    if userId in stats then stats[userId] else NewUserStats
  }

  // ---------------------------------------------------------------------
  // is_banned
  // ---------------------------------------------------------------------

  datatype BanCheck = BanCheck(bans: map<int, Ban>, banned: bool, reason: Option<string>)

  /** `is_banned`: banned, with the reason, iff a ban exists and has not yet
      run out; an expired ban is deleted, and an unbanned user gets no
      reason. Only the checked user's ban can change. */
  function CheckBan(bans: map<int, Ban>, userId: int, now: real): (r: BanCheck)
    ensures r.banned <==> userId in bans && now < bans[userId].until
    ensures r.banned ==> r.reason == Some(bans[userId].reason) && r.bans == bans
    ensures !r.banned ==> r.reason.None? && userId !in r.bans
    ensures forall u :: u != userId ==> (u in r.bans <==> u in bans)
    ensures forall u :: u in r.bans ==> u in bans && r.bans[u] == bans[u]
  {
    if userId in bans then
      if now < bans[userId].until then BanCheck(bans, true, Some(bans[userId].reason))
      else BanCheck(map u | u in bans && u != userId :: bans[u], false, None)
    else BanCheck(bans, false, None)
  }

  /** The ban a `tempban` of `hours` hours at `now` installs. */
  function TempBan(hours: int, reason: string, byAdmin: int, now: real): (b: Ban)
    ensures b.until - now == hours as real * SecondsPerHour
  {
    Ban(now + hours as real * SecondsPerHour, reason, byAdmin)
  }

  /** A temporary ban holds, with its reason, for exactly its duration: a
      check before it runs out reports it and keeps it, a check after
      removes it. It replaces any earlier ban of the same user. */
  lemma TempBanLastsItsDuration(bans: map<int, Ban>, userId: int, hours: int, reason: string,
                                byAdmin: int, now: real, later: real)
    ensures var r := CheckBan(bans[userId := TempBan(hours, reason, byAdmin, now)], userId, later);
            (r.banned <==> later - now < hours as real * SecondsPerHour) &&
            (r.banned ==> r.reason == Some(reason)) &&
            (!r.banned ==> userId !in r.bans)
  {
  }

  /** Checking twice at the same time gives the same answer. */
  lemma CheckBanStable(bans: map<int, Ban>, userId: int, now: real)
    ensures var first := CheckBan(bans, userId, now);
            var second := CheckBan(first.bans, userId, now);
            second.banned == first.banned && second.reason == first.reason &&
            second.bans == first.bans
  {
  }

  // ---------------------------------------------------------------------
  // warnings and ban history
  // ---------------------------------------------------------------------

  /** `get_warnings`: the warning history, [] for an unknown user (the lookup
      does not create a record). */
  function Warnings(stats: map<int, UserStats>, userId: int): (r: seq<Warning>)
    ensures userId !in stats ==> r == []
  {
    StatsOf(stats, userId).warningHistory
  }

  function BanHistory(stats: map<int, UserStats>, userId: int): (r: seq<BanRecord>)
    ensures userId !in stats ==> r == []
  {
    StatsOf(stats, userId).banHistory
  }

  /** `warn_user` on the statistics: the user's record is created if absent
      and exactly the one warning is appended to it; nothing else changes. */
  function WithWarning(stats: map<int, UserStats>, userId: int, w: Warning): (r: map<int, UserStats>)
    ensures r.Keys == stats.Keys + {userId}
    ensures forall u :: u in stats && u != userId ==> r[u] == stats[u]
    ensures Warnings(r, userId) == Warnings(stats, userId) + [w]
    ensures BanHistory(r, userId) == BanHistory(stats, userId)
    ensures r[userId].commands == StatsOf(stats, userId).commands
    ensures r[userId].lastSeen == StatsOf(stats, userId).lastSeen
    ensures r[userId].joinDate == StatsOf(stats, userId).joinDate
  {
    var s := StatsOf(stats, userId);
    stats[userId := s.(warningHistory := s.warningHistory + [w])]
  }

  /** The statistics half of `tempban_user`: one ban-history entry appended,
      recording the duration in hours; nothing else changes. */
  function WithBanRecord(stats: map<int, UserStats>, userId: int, rec: BanRecord): (r: map<int, UserStats>)
    ensures r.Keys == stats.Keys + {userId}
    ensures forall u :: u in stats && u != userId ==> r[u] == stats[u]
    ensures BanHistory(r, userId) == BanHistory(stats, userId) + [rec]
    ensures Warnings(r, userId) == Warnings(stats, userId)
    ensures r[userId].commands == StatsOf(stats, userId).commands
    ensures r[userId].lastSeen == StatsOf(stats, userId).lastSeen
    ensures r[userId].joinDate == StatsOf(stats, userId).joinDate
  {
    var s := StatsOf(stats, userId);
    stats[userId := s.(banHistory := s.banHistory + [rec])]
  }

  // ---------------------------------------------------------------------
  // update_user_activity
  // ---------------------------------------------------------------------

  function CommandCount(stats: map<int, UserStats>, userId: int, command: string): nat {
    var s := StatsOf(stats, userId);
    if command in s.commands then s.commands[command] else 0
  }

  /** `update_user_activity`: the command's count goes up by one, every other
      count stays, `last_seen` becomes `now`, and `join_date` is set to `now`
      only when it was unset. */
  function WithActivity(stats: map<int, UserStats>, userId: int, command: string, now: real): (r: map<int, UserStats>)
    ensures r.Keys == stats.Keys + {userId}
    ensures forall u :: u in stats && u != userId ==> r[u] == stats[u]
    ensures CommandCount(r, userId, command) == CommandCount(stats, userId, command) + 1
    ensures forall c :: c != command ==> CommandCount(r, userId, c) == CommandCount(stats, userId, c)
    ensures r[userId].lastSeen == now
    ensures r[userId].joinDate ==
              if StatsOf(stats, userId).joinDate.None? then Some(now) else StatsOf(stats, userId).joinDate
    ensures Warnings(r, userId) == Warnings(stats, userId)
    ensures BanHistory(r, userId) == BanHistory(stats, userId)
  {
    var s := StatsOf(stats, userId);
    var count := if command in s.commands then s.commands[command] else 0;
    stats[userId := s.(commands := s.commands[command := count + 1],
                       lastSeen := now,
                       joinDate := if s.joinDate.None? then Some(now) else s.joinDate)]
  }

  /** A run of commands by one user, each with the time it was issued. */
  function Replay(stats: map<int, UserStats>, userId: int, events: seq<(string, real)>): map<int, UserStats>
  {
    if events == [] then stats
    else WithActivity(Replay(stats, userId, events[..|events| - 1]), userId,
                      events[|events| - 1].0, events[|events| - 1].1)
  }

  function Occurrences(events: seq<(string, real)>, command: string): nat {
    if events == [] then 0
    else Occurrences(events[..|events| - 1], command) +
         (if events[|events| - 1].0 == command then 1 else 0)
  }

  /** After a run of commands, each command's count has grown by the number
      of times it was issued. */
  lemma {:induction false} ReplayCounts(stats: map<int, UserStats>, userId: int,
                                        events: seq<(string, real)>, command: string)
    ensures CommandCount(Replay(stats, userId, events), userId, command) ==
            CommandCount(stats, userId, command) + Occurrences(events, command)
  {
    if events != [] {
      ReplayCounts(stats, userId, events[..|events| - 1], command);
    }
  }

  /** After a run of commands, `last_seen` is the time of the last one, and
      a user first seen in the run joined at the time of its first command. */
  lemma {:induction false} ReplayDates(stats: map<int, UserStats>, userId: int, events: seq<(string, real)>)
    requires events != []
    ensures Replay(stats, userId, events)[userId].lastSeen == events[|events| - 1].1
    ensures StatsOf(stats, userId).joinDate.None? ==>
              Replay(stats, userId, events)[userId].joinDate == Some(events[0].1)
    ensures StatsOf(stats, userId).joinDate.Some? ==>
              Replay(stats, userId, events)[userId].joinDate == StatsOf(stats, userId).joinDate
  {
    var front := events[..|events| - 1];
    if front != [] {
      ReplayDates(stats, userId, front);
      assert front[0] == events[0];
    }
  }

  class UserManager {
    /** user id -> active ban */
    var bannedUsers: map<int, Ban>
    /** user id -> statistics record */
    var userStats: map<int, UserStats>

    constructor()
      ensures bannedUsers == map[] && userStats == map[]
    {
      bannedUsers := map[];
      userStats := map[];
    }

    method IsBanned(userId: int, now: real) returns (banned: bool, reason: Option<string>)
      modifies this
      ensures BanCheck(bannedUsers, banned, reason) == CheckBan(old(bannedUsers), userId, now)
      ensures userStats == old(userStats)
    {
      if userId in bannedUsers {
        var ban := bannedUsers[userId];
        if now < ban.until {
          return true, Some(ban.reason);
        }
        bannedUsers := map u | u in bannedUsers && u != userId :: bannedUsers[u];
      }
      return false, None;
    }

    method TempbanUser(userId: int, hours: int, reason: string, byAdmin: int, now: real)
      modifies this
      ensures bannedUsers == old(bannedUsers)[userId := TempBan(hours, reason, byAdmin, now)]
      ensures userStats == WithBanRecord(old(userStats), userId, BanRecord(now, hours, reason, byAdmin))
    {
      bannedUsers := bannedUsers[userId := TempBan(hours, reason, byAdmin, now)];
      var s := StatsOf(userStats, userId);
      userStats := userStats[userId := s];
      var history := userStats[userId].banHistory + [BanRecord(now, hours, reason, byAdmin)];
      userStats := userStats[userId := userStats[userId].(banHistory := history)];
    }

    method WarnUser(userId: int, reason: string, byAdmin: int, now: real)
      modifies this
      ensures userStats == WithWarning(old(userStats), userId, Warning(now, reason, byAdmin))
      ensures bannedUsers == old(bannedUsers)
    {
      var s := StatsOf(userStats, userId);
      userStats := userStats[userId := s];
      var history := userStats[userId].warningHistory + [Warning(now, reason, byAdmin)];
      userStats := userStats[userId := userStats[userId].(warningHistory := history)];
    }

    /** `get_warnings` */
    function GetWarnings(userId: int): (r: seq<Warning>)
      reads this
      ensures r == Warnings(userStats, userId)
    {
      if userId in userStats then userStats[userId].warningHistory else []
    }

    /** `get_user_stats`: a copy of the record, None for an unknown user. */
    function GetUserStats(userId: int): (r: Option<UserStats>)
      reads this
      ensures r.None? <==> userId !in userStats
      ensures r.Some? ==> r.value == userStats[userId]
    {
      if userId in userStats then Some(userStats[userId]) else None
    }

    method UpdateUserActivity(userId: int, command: string, now: real)
      modifies this
      ensures userStats == WithActivity(old(userStats), userId, command, now)
      ensures bannedUsers == old(bannedUsers)
    {
      var s := StatsOf(userStats, userId);
      var count := if command in s.commands then s.commands[command] else 0;
      s := s.(commands := s.commands[command := count + 1]);
      s := s.(lastSeen := now);
      if s.joinDate.None? {
        s := s.(joinDate := Some(now));
      }
      userStats := userStats[userId := s];
    }
  }
}
