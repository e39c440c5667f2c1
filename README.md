# Fade-alert betting bot: a Dafny model of its core

This project models the core of a Telegram bot that reports NBA and NCAA
basketball games and their betting data. Its central feature is the "fade"
alert: a team that few bettors back (under 20% of tickets and under 20% of
money) is flagged, the alert is stored, and once the game ends the alert
is marked won or lost. The service objects around it are modelled as
well: the per-user rate limiter, the user manager (bans, warnings,
activity), the metrics collector, the system alert monitor, the
configuration store, and the helpers that split long Telegram messages.

Each source file is one Dafny module:

- `Common`: options, ids, string helpers and sorting.
- `GameProcessing`: `utils/game_processing.py`.
- `Formatters`: `utils/formatters.py`.
- `GameRepo`: `db/game_repo.py`.
- `AlertRepo`: `db/alert_repo.py`.
- `FadeAlerts`: `tasks/fade_alerts.py`.
- `RateLimiting`: `utils/rate_limiter.py`.
- `UserManagement`: `services/user_manager.py`.
- `Metrics`: `services/metrics.py`.
- `AlertMonitoring`: `services/alert_monitor.py`.
- `Configuration`: `config.py`.
- `MessageHelpers`: `utils/message_helpers.py`.

The pure decision code becomes datatypes, functions and lemmas. A game
and an alert are records whose absent keys are `None`. The objects that
update their dictionaries in place become classes:

- `RateLimiter`, `UserManager`, `BotMetrics`, `AlertMonitor` and `Config`.
- `AlertCollection` holds the fade-alert table as a sequence of documents.

Each method is proved against a specification function of the old state.
The loops of the source are `while` loops with invariants:

- the alert update pass;
- the new-alert pass;
- the rate limiter's cleanup;
- the message splitter;
- the game chunker.

The clock (`time.time()`, `datetime.now()`), the process readings
(`psutil`) and the environment become parameters. Sending a message
becomes the list of texts that would be sent.

Several behaviours of the code as written are proved rather than assumed.
They are not corrected in the model, because the rest of the code depends
on them as they are:

- **The update pass never updates.** `update_fade_alerts` passes the
  alert's database `_id` to `update_fade_alert_result`. That id is an
  ObjectId, not a `str`, so the update filters on `game_id` instead. When
  no document has an ObjectId as its game id, a whole pass changes
  nothing and counts nothing (`ObjectIdAlertsAreNeverUpdated`).
- **New alerts are never stored or formatted.** In
  `process_new_fade_alerts` the call `store_fade_alert(**alert_data)`
  passes a `market` keyword, which the function does not accept. The call
  `format_fade_alert(game=..., opportunity=..., result_status=...)` passes
  keywords that function does not accept either. Both raise and are
  caught. So the pass stores nothing and returns no message
  (`ProcessNewFadeAlerts`).
- **Won and lost alerts never reach the statistics.** The update pass
  writes "won"/"lost", but the statistics count only "winner"/"loser"
  (`StatsIgnoreWonLost`).
- **Repository games have no bet percentages.** A game from the
  repository has no `odds` list, so no percentages are found for it
  (`ProcessedGamesHaveNoBetPercentages`).
- **An error rate can exceed 100%.** The list of execution times is
  capped at 1000 entries, but the error count is not
  (`ErrorRateCanExceedHundred`).
- **A part can be empty.** `send_long_message` can send an empty first
  part (`EmptyFirstPart`).
- **The rating threshold is never reached.** In `format_fade_alert` the
  threshold `rating < 2` never rejects anything: every candidate has a
  rating of 3 or more (`FormatFadeAlert`).

## Model

| member | source | states |
|---|---|---|
| GameProcessing.SideTeamId | utils/game_processing.py:79 | a truthy own `<side>_team_id` is the side's id; otherwise the present team object's id (possibly absent) is the side's id, and a null team object raises |
| GameProcessing.DetermineWinner | utils/game_processing.py:9-40 | no winner without both teams. A `winning_team_id` that names the home team (checked first) or the away team decides. Otherwise there is a winner iff the game is complete/closed with a truthy boxscore holding two different scores, and it is the team with the higher score |
| GameProcessing.GetSpreadInfo | utils/game_processing.py:42-61 | the value and odds of the first spread entry for the team, whenever one exists; (None, None) without a spread list or without an entry for the team |
| GameProcessing.Percent | utils/game_processing.py:92-93 | a fraction becomes a percentage (×100); a missing value stays missing |
| GameProcessing.GetBetPercentages | utils/game_processing.py:63-100 | whenever a book-15 entry exists and the home id lookup succeeds, the percentages come from the first such entry: its home fields when the team is the home id, its away fields for any other id. (None, None) without odds, without a book-15 entry, or when the home id lookup raises |
| GameProcessing.OpponentSpreadResult | utils/game_processing.py:170-219 | no result without teams, scores, or a faded team among the two. Otherwise the fade won iff the faded team's margin plus its line is negative, lost iff it is positive, and a push (None) when it is zero |
| Formatters.NormalizeStatus | utils/formatters.py:20 | the normalised status holds no '_', no '-' and no upper-case letter, and a status without separators is just lowercased |
| Formatters.NormalizeStatusConcat | utils/formatters.py:20 | normalisation works piece by piece: the normal form of a concatenation is the concatenation of the normal forms |
| Formatters.NormalizeStatusChar | utils/formatters.py:20 | one character: a '_' or '-' vanishes, any other character is lowercased |
| Formatters.NormalizeStatusIdempotent | utils/formatters.py:20 | normalising a normalised status changes nothing |
| Formatters.GameStatusIcon | utils/formatters.py:7-21 | a known normal form gets its fixed label; any other status gets "❓ " and the title-cased original |
| Formatters.InProgressIsLive | utils/formatters.py:11-20 | the provider's "In_Progress" is shown as "🔴 LIVE" |
| Formatters.SameNormalFormSameLabel | utils/formatters.py:19-21 | two statuses with the same known normal form get the same label |
| Formatters.StatusIconOfNormalized | utils/formatters.py:19-21 | for a known status, the label does not depend on case, '_' or '-' |
| Formatters.FadeRating | utils/formatters.py:23-42 | the rating is 0, 3, 4 or 5: 5 iff both are under 10; 4 iff one is under 10 and the other under 20, but not both under 10; 3 iff both are in [10, 20); 0 iff either is 20 or more, or data is missing |
| Formatters.FadeRatingSymmetric | utils/formatters.py:23-42 | swapping tickets and money leaves the rating unchanged |
| Formatters.FormatFadeAlert | utils/formatters.py:103-174 | an alert exists iff both teams and ids, all four percentages, a low-interest side (both under 20) and that side's spread are present. The home side is preferred. The view carries that side's id, percentages and spread, a '+' iff the spread is positive, and its rating, which is always ≥ 3 |
| GameRepo.FindTeam | db/game_repo.py:69-70 | the team found is the first in the list with the id; no result means no team in the list has it |
| GameRepo.ProcessGameData | db/game_repo.py:33-104 | None iff the id is missing or falsy, or the markets lookup raises. Otherwise id, status, boxscore, sport and date are copied. With truthy home/away ids and a teams list, the teams are the first entries with those ids; otherwise none. The raw winner is kept unless it is falsy, the status complete/closed, the boxscore truthy and both scores numbers; then the strictly higher score's team id wins and a tie keeps the raw value. Each market is the event's list, [] when the key or the event is absent. There is no odds list |
| GameRepo.ProcessedWinnerAgrees | db/game_repo.py:74-82 | when both teams were found and the scores differ, the derived winner is the team `DetermineWinner` picks on the processed game |
| GameRepo.ProcessGames | db/game_repo.py:125 | exactly the raw games that process are kept, as their processed records |
| GameRepo.ProcessGamesAppend | db/game_repo.py:125 | processing keeps the order: it distributes over concatenation |
| GameRepo.ProcessedGamesHaveNoBetPercentages | db/game_repo.py:44-59 | a processed game never yields bet percentages |
| GameRepo.NormalizeGameId | db/game_repo.py:170-174 | an all-digit string id becomes that integer; every other id is unchanged |
| GameRepo.NormalizeRenderedId | db/game_repo.py:172 | the decimal string of n looks up the id n |
| GameRepo.GetGameById | db/game_repo.py:166-206 | the first raw game with the normalised id, processed; None when there is none |
| GameRepo.GetGameByRenderedId | db/game_repo.py:170-202 | a game stored under the number n is found by the string of n |
| AlertRepo.Upsert | db/alert_repo.py:80-106 | with a document for the game the table keeps its size; without one, exactly one new document is appended. The new document has a fresh object id and holds the stored fields |
| AlertRepo.UpsertThenFind | db/alert_repo.py:98-102 | after a store, the first document of the game holds exactly the stored fields, at the old first match if there was one. That document keeps its `_id`, market, faded side and faded value; a new document has no market, side or value. Every other document is unchanged |
| AlertRepo.UpsertIdempotent | db/alert_repo.py:98-102 | storing the same alert twice at the same time equals storing it once |
| AlertRepo.ApplyResult | db/alert_repo.py:108-123 | a string id matches `_id` and any other id matches `game_id`. Only the first matching document gets the status and update time. The answer is true iff the table changed; with no match nothing changes |
| AlertRepo.ObjectIdUpdateMissesEveryAlert | db/alert_repo.py:112 | an ObjectId key never matches when no document has an ObjectId game id |
| AlertRepo.AlertCollection.Store | db/alert_repo.py:80-106 | the table becomes the upsert of the old table; the answer is true |
| AlertRepo.AlertCollection.UpdateResult | db/alert_repo.py:108-123 | the table and answer are those of `ApplyResult` on the old table |
| AlertRepo.PendingAlerts | db/alert_repo.py:72-78 | exactly the pending documents |
| AlertRepo.PendingAlertsCounts | db/alert_repo.py:72-78 | each pending document occurs in the result as often as in the table, and no other document occurs |
| AlertRepo.PendingAlertsAppend | db/alert_repo.py:72-78 | the pending documents of two tables in sequence are those of each, in table order |
| AlertRepo.StatsMatch | db/alert_repo.py:13-18 | exactly the documents created since the cutoff, with status winner/loser, of the sport when one is given |
| AlertRepo.StatsMatchCounts | db/alert_repo.py:13-18 | each matching document occurs in the result as often as in the table, and no other document occurs |
| AlertRepo.StatsMatchAppend | db/alert_repo.py:13-18 | the matched documents of two tables in sequence are those of each, in table order |
| AlertRepo.GroupKeys | db/alert_repo.py:23-27 | the distinct (sport, rating) keys of the matched documents |
| AlertRepo.CountKey | db/alert_repo.py:28 | a group's size is positive iff a matched document has that key |
| AlertRepo.CountWinners | db/alert_repo.py:29-31 | a group's winners never exceed its size |
| AlertRepo.RowForMeaning | db/alert_repo.py:20-47 | each group's row has its key, its non-zero size, its winner count and win rate = winners / total × 100 |
| AlertRepo.FadeAlertStatsSorted | db/alert_repo.py:48 | rows are sorted by rating, highest first |
| AlertRepo.FadeAlertStatsRows | db/alert_repo.py:9-51 | every row is a non-empty group of matched documents with exact counts and win rate |
| AlertRepo.FadeAlertStatsCover | db/alert_repo.py:13-33 | every matched document has its group's row |
| AlertRepo.StatsIgnoreWonLost | db/alert_repo.py:15 | a table with no winner/loser status yields no statistics |
| AlertRepo.SportFilter | db/alert_repo.py:59-61 | exactly the documents of the sport; all documents without a sport |
| AlertRepo.SportFilterCounts | db/alert_repo.py:59-61 | each document of the sport occurs in the result as often as in the table, and no other document occurs |
| AlertRepo.SportFilterAppend | db/alert_repo.py:59-61 | the sport's documents of two tables in sequence are those of each, in table order |
| AlertRepo.RecentAlertsMeaning | db/alert_repo.py:56-70 | the result holds exactly min(limit, n) documents of the sport (all n when the limit is 0), newest first, and is a prefix of all the sport's documents sorted by creation time |
| FadeAlerts.SideIds | tasks/fade_alerts.py:240-241 | both side ids, or None when a lookup raises |
| FadeAlerts.SpreadFadeResult | tasks/fade_alerts.py:216-267 | None for a side other than Home/Away, a missing line, or missing scores or ids. A push iff the margin equals the line. Otherwise the fade won iff the faded side's margin is below the line |
| FadeAlerts.TotalFadeResult | tasks/fade_alerts.py:269-317 | None for a side other than Over/Under or missing data; a push iff the total equals the line. Fading Over wins iff the total is below the line; fading Under wins iff it is above |
| FadeAlerts.TotalFadeSidesOpposite | tasks/fade_alerts.py:306-311 | at one line, outside a push, exactly one of the Over and Under fades wins |
| FadeAlerts.MoneylineFadeResult | tasks/fade_alerts.py:319-365 | fading Home wins iff the winner is the away id; fading Away wins iff it is the home id. There is a result iff the side is valid, a winner exists and both ids are truthy |
| FadeAlerts.CoverageInputs | tasks/fade_alerts.py:160-200 | None iff there is no spread value for the faded team, the boxscore is falsy, a side id lookup raises or gives a falsy id, or a score is null. Otherwise the compared line is the faded team's spread value and the margin is home minus away when the faded id is the home id, away minus home for any other id, a missing score counting as 0 |
| FadeAlerts.MissingScoresCountAsZero | tasks/fade_alerts.py:189-190 | a truthy boxscore without either score key gives a margin of 0, so coverage is decided as `0 <= line`, while the spread resolver decides nothing |
| FadeAlerts.SpreadCoverage | tasks/fade_alerts.py:160-212 | as written, the fade succeeds iff the margin is at most the line |
| FadeAlerts.CorrectedSpreadCoverage | tasks/fade_alerts.py:202-208 | the fade succeeds iff the faded team did not cover, i.e. margin + line ≤ 0 |
| FadeAlerts.SpreadCoverageFavouriteCounterexample | tasks/fade_alerts.py:203-208 | a -5.5 favourite winning by 5: the rule as written reports a failed fade, the corrected rule a successful one |
| FadeAlerts.CorrectedCoverageAgreesWithOpponentRule | tasks/fade_alerts.py:202-208 | the corrected rule agrees with `OpponentSpreadResult` wherever that rule decides |
| FadeAlerts.Resolve | tasks/fade_alerts.py:37-78 | incomplete iff a required field is falsy. Skipped iff the game is missing or unfinished, or the market is unknown. Otherwise the market's resolver decides, and a push leaves the alert undecided |
| FadeAlerts.NewStatus | tasks/fade_alerts.py:43-86 | "error" iff incomplete; "won"/"lost" iff decided that way; no write otherwise |
| FadeAlerts.Step | tasks/fade_alerts.py:34-103 | one alert counts at most once and never changes the table's size |
| FadeAlerts.StepCounts | tasks/fade_alerts.py:88-98 | no write without a new status. Otherwise the update of the alert's `_id` is applied. The alert is counted iff it was decided and the update modified a document |
| FadeAlerts.ApplyAlertsSnoc | tasks/fade_alerts.py:34 | the pass over one more alert is one more step |
| FadeAlerts.ApplyAlertsCountBound | tasks/fade_alerts.py:33-92 | the updated count never exceeds the number of alerts; the table keeps its size |
| FadeAlerts.ObjectIdAlertsAreNeverUpdated | tasks/fade_alerts.py:41-90 | with ObjectId `_id`s and no ObjectId game ids, the pass leaves the table unchanged and counts 0 |
| FadeAlerts.ObjectIdStepChangesNothing | tasks/fade_alerts.py:41-90 | one such alert changes nothing |
| FadeAlerts.HandleAlert | tasks/fade_alerts.py:35-103 | the table and count after one alert are those of `Step` |
| FadeAlerts.UpdateFadeAlerts | tasks/fade_alerts.py:17-111 | the pending alerts are taken once and handled in order; the final table and count are `ApplyAlerts` of them |
| FadeAlerts.PendingIsUndecided | tasks/fade_alerts.py:385 | total − won − lost counts exactly the alerts that are neither won nor lost |
| FadeAlerts.Where | tasks/fade_alerts.py:392-409 | the per-rating and per-sport groups hold exactly the alerts with that rating or sport, never more than all alerts |
| FadeAlerts.WhereCounts | tasks/fade_alerts.py:392-409 | each alert of a group occurs in it as often as in the input, and no other alert occurs |
| FadeAlerts.WhereAppend | tasks/fade_alerts.py:392-409 | the group of two alert lists in sequence is the group of each, in order |
| FadeAlerts.WinPercentage | tasks/fade_alerts.py:387 | 0 when nothing is decided; otherwise won / (won + lost) × 100, between 0 and 100 |
| FadeAlerts.Summarize | tasks/fade_alerts.py:382-387 | total, won, lost, pending and percentage, with pending counting the undecided alerts (never negative) |
| FadeAlerts.AnalyzePerformance | tasks/fade_alerts.py:369-440 | no report for no alerts. Otherwise: the overall summary, a rating key 1..5 iff that rating has a decided alert, and a sport key nba/ncaab iff that sport has one, each with its group's summary |
| FadeAlerts.ErrorAlertsCountAsPending | tasks/fade_alerts.py:385 | an alert in "error" makes the pending count positive |
| FadeAlerts.StoreCallCannotBind | tasks/fade_alerts.py:481-497 | the keywords passed to `store_fade_alert` do not bind to its parameters |
| FadeAlerts.FormatCallCannotBind | tasks/fade_alerts.py:550 | the keywords passed to `format_fade_alert` do not bind to its parameters |
| FadeAlerts.StoreWrapper | tasks/fade_alerts.py:522-529 | a call that does not bind answers false and stores nothing; one that binds upserts and answers true |
| FadeAlerts.FormatCall | tasks/fade_alerts.py:550 | a call that does not bind yields no message; one that binds is `FormatFadeAlert` |
| FadeAlerts.ExistingAlert | tasks/fade_alerts.py:501-510 | the duplicate found is a pending alert of the same game, market, side and date; none found iff no such alert exists |
| FadeAlerts.OpportunityAction | tasks/fade_alerts.py:481-545 | skipped iff an indexed key is missing; a store is attempted iff no duplicate exists; otherwise the duplicate is reused |
| FadeAlerts.ProcessNewFadeAlerts | tasks/fade_alerts.py:442-565 | as written, the pass returns no message and leaves the table unchanged |
| RateLimiting.LongestCooldownIsMaximum | utils/rate_limiter.py:14-36 | 60 s (broadcast) is the largest cooldown |
| RateLimiting.CooldownFor | utils/rate_limiter.py:41-42 | the cooldown of the command without one leading '/'; 3 s when unknown; always between 3 and 60 |
| RateLimiting.Recent | utils/rate_limiter.py:44-45 | exactly the timestamps younger than 60 s, in order |
| RateLimiting.RecentIdempotent | utils/rate_limiter.py:44-45 | pruning twice at one time is pruning once |
| RateLimiting.RecentChronological | utils/rate_limiter.py:44-45 | pruning keeps a chronological history chronological |
| RateLimiting.CheckSpec | utils/rate_limiter.py:38-53 | limited iff the last kept timestamp is younger than the command's cooldown. Then the wait is the rest of the cooldown, `cooldown - (now - last kept)`, which is positive, and nothing is recorded; otherwise `now` is appended and the wait is 0. The user's list is pruned; other users are untouched |
| RateLimiting.QuietUserIsAllowed | utils/rate_limiter.py:44-53 | a user with no command in the last minute is allowed |
| RateLimiting.AllowedThenLimited | utils/rate_limiter.py:47-52 | after an allowed command, any command within 3 s is limited, with the rest of its cooldown as the wait |
| RateLimiting.CheckKeepsChronological | utils/rate_limiter.py:44-53 | the history stays chronological, and the wait never exceeds the cooldown |
| RateLimiting.Cleaned | utils/rate_limiter.py:55-63 | every list is pruned, and users left with no timestamps are removed |
| RateLimiting.CleanupInvisibleToCheck | utils/rate_limiter.py:55-63 | a check right after a cleanup gives the same verdict, wait and history as without it |
| RateLimiting.CleanedIdempotent | utils/rate_limiter.py:55-63 | cleaning twice at one time is cleaning once |
| RateLimiting.RateLimiter.constructor | utils/rate_limiter.py:12-13 | no user has any timestamps |
| RateLimiting.RateLimiter.CheckRateLimit | utils/rate_limiter.py:38-53 | the new table, verdict and wait are `CheckSpec` of the old table |
| RateLimiting.RateLimiter.CleanupOldData | utils/rate_limiter.py:55-63 | the table becomes `Cleaned` of the old table |
| UserManagement.CheckBan | services/user_manager.py:21-30 | banned, with the reason, iff a ban exists that has not run out. An expired ban is deleted. No other user's ban changes |
| UserManagement.TempBan | services/user_manager.py:34 | the ban lasts exactly `hours` × 3600 s from now |
| UserManagement.TempBanLastsItsDuration | services/user_manager.py:32-40 | after a tempban, a check reports the ban with its reason iff it comes within the duration; a later check removes the ban |
| UserManagement.CheckBanStable | services/user_manager.py:21-30 | checking twice at one time gives the same answer and table |
| UserManagement.WithWarning | services/user_manager.py:52-61 | the record is created if needed and exactly one warning is appended; nothing else changes |
| UserManagement.WithBanRecord | services/user_manager.py:41-49 | exactly one ban-history entry is appended; nothing else changes |
| UserManagement.WithActivity | services/user_manager.py:77-84 | the command's count goes up by one and other counts stay. `last_seen` becomes now; `join_date` becomes now only when it was unset |
| UserManagement.ReplayCounts | services/user_manager.py:81 | after a run of commands, each count has grown by that command's occurrences |
| UserManagement.ReplayDates | services/user_manager.py:82-84 | `last_seen` is the time of the last command; a new user's `join_date` is the time of its first command |
| UserManagement.UserManager.constructor | services/user_manager.py:8-19 | no bans and no records |
| UserManagement.UserManager.IsBanned | services/user_manager.py:21-30 | the verdict and ban table are `CheckBan`; the records are unchanged |
| UserManagement.UserManager.TempbanUser | services/user_manager.py:32-50 | the user's ban is replaced by the new one, and one ban record is appended |
| UserManagement.UserManager.WarnUser | services/user_manager.py:52-62 | one warning is appended; bans are unchanged |
| UserManagement.UserManager.GetWarnings | services/user_manager.py:64-67 | the warning history, or [] for an unknown user |
| UserManagement.UserManager.GetUserStats | services/user_manager.py:69-75 | None iff the user has no record; otherwise the record |
| UserManagement.UserManager.UpdateUserActivity | services/user_manager.py:77-90 | the records become `WithActivity` of the old ones; bans are unchanged |
| Metrics.MaxOf | services/metrics.py:61 | the maximum is an element and bounds every element |
| Metrics.MinOf | services/metrics.py:62 | the minimum is an element and is bounded by every element |
| Metrics.MeanBetween | services/metrics.py:60 | the mean lies between the minimum and the maximum |
| Metrics.KeepLast | services/metrics.py:25-26 | a list over 1000 entries keeps its last 1000; a shorter one is unchanged |
| Metrics.LogLatency | services/metrics.py:21-26 | only the command's list changes, and the command becomes a key |
| Metrics.LogLatencyAppends | services/metrics.py:23-26 | the new time ends the list, which grows by one up to 1000 and then drops its oldest entry |
| Metrics.LogError | services/metrics.py:29-30 | a failure adds exactly one to the command's count; success changes nothing |
| Metrics.FailedRunCounts | services/metrics.py:23-30 | after n failures the list holds min(n, 1000) times but the error count is n |
| Metrics.Percentage | services/metrics.py:65 | 0 for a zero whole; otherwise part / whole × 100, at most 100 when part ≤ whole |
| Metrics.AverageMs | services/metrics.py:60 | the mean time in ms: between min and max, and times the count it gives the sum |
| Metrics.CommandRow | services/metrics.py:55-66 | usage and error counts; min ≤ avg ≤ max in ms, with min and max attained. The error rate is errors / usage × 100 |
| Metrics.CommandRows | services/metrics.py:55-66 | an entry for every logged command with a non-empty list and no other, each holding that command's row |
| Metrics.CommandRowsDistinct | services/metrics.py:55-66 | with distinct command keys, as the dictionary's keys are, no command has two entries |
| Metrics.Truncate | services/metrics.py:46 | `int()` of a float truncates toward zero |
| Metrics.LogKeepsConsistent | services/metrics.py:19-30 | logging keeps the commands distinct, keeps error keys among the logged commands, and keeps every list within 1000 |
| Metrics.BotMetrics.constructor | services/metrics.py:10-17 | empty counters; start and cleanup times are now |
| Metrics.BotMetrics.LogCommand | services/metrics.py:19-30 | the latency list and error count change as `LogLatency`/`LogError`, and the user's count goes up by one. The invariant is kept |
| Metrics.BotMetrics.GetStats | services/metrics.py:32-74 | the uptime is truncated. It reports the active users, total commands and errors, an overall error rate (0 with no commands) and the memory. The entries are exactly the command rows, sorted by usage, highest first |
| Metrics.BotMetrics.CleanupOldData | services/metrics.py:76-85 | activity is reset iff more than a day has passed since the last reset; nothing else changes |
| Metrics.ReportEntries | services/metrics.py:55-66 | every entry is a logged command with its usage (1..1000) and error count; every logged command with times has an entry |
| Metrics.ErrorRateCanExceedHundred | services/metrics.py:25-30 | 1001 failures of one command report an error rate above 100% |
| AlertMonitoring.Gate | services/alert_monitor.py:30-36 | an alert fires iff the reading is over the threshold and the last alert is more than an hour old. Firing records now; looking a key up creates it at 0 |
| AlertMonitoring.CheckSpec | services/alert_monitor.py:22-47 | the CPU alert fires iff CPU is over its threshold and off cooldown; the same holds for memory. There are at most these two alerts, and no other key changes |
| AlertMonitoring.AtMostOncePerCooldown | services/alert_monitor.py:31-36 | after an alert, the same metric cannot alert again within the hour |
| AlertMonitoring.CooldownsAreSeparate | services/alert_monitor.py:31-47 | a CPU alert does not delay a memory alert |
| AlertMonitoring.Recipients | services/alert_monitor.py:54-61 | exactly the admin ids other than 0 |
| AlertMonitoring.RecipientsCounts | services/alert_monitor.py:54-61 | each non-zero id is alerted as often as it is configured, and 0 never is |
| AlertMonitoring.RecipientsAppend | services/alert_monitor.py:54-61 | the recipients of two id lists in sequence are those of each, in order |
| AlertMonitoring.ResetAlertsAtOnce | services/alert_monitor.py:76-86 | after a reset of the metric, or of everything, an over-threshold reading alerts at once |
| AlertMonitoring.AlertMonitor.constructor | services/alert_monitor.py:13-20 | no alert times; the default thresholds |
| AlertMonitoring.AlertMonitor.CheckAndAlert | services/alert_monitor.py:22-52 | the new alert times and the alerts sent are `CheckSpec` of the old times |
| AlertMonitoring.AlertMonitor.UpdateThreshold | services/alert_monitor.py:68-74 | true iff the metric exists, and then only it changes; otherwise nothing changes |
| AlertMonitoring.AlertMonitor.ResetCooldown | services/alert_monitor.py:76-86 | with a metric, it is set to 0 iff present, and the answer says so. Without a metric every cooldown is dropped and the answer is true |
| Configuration.ParseInt | config.py:59 | a parse succeeds iff the stripped string is decimal digits with at most one leading sign; its value is the digits' value, negated after '-' |
| Configuration.ParseIntToString | config.py:59 | parsing the decimal rendering of any integer gives it back |
| Configuration.Split | config.py:23 | `split(",")` yields at least one piece, and no piece contains ',' |
| Configuration.SplitJoin | config.py:23 | splitting undoes joining comma-free pieces |
| Configuration.ParsePieces | config.py:23-25 | blank pieces are skipped; the others are stripped and converted in order, one id per piece. It fails iff one of them is not an integer |
| Configuration.ParseAll | config.py:23-25 | every text converted in order; fails iff one is not an integer |
| Configuration.ParseAdminIds | config.py:19-25 | empty for an empty string or when a non-blank piece is not an integer; otherwise the integers of the stripped non-blank pieces of the comma split, in order |
| Configuration.ParseRendered | config.py:23 | parsing rendered ids gives them back |
| Configuration.AdminIdsRoundTrip | config.py:19-25 | a comma-joined list of ids reads back as those ids |
| Configuration.IsAdmin | config.py:84-86 | admin iff the id is in the list |
| Configuration.UpdateSpec | config.py:48-77 | a bool setting becomes "text in true/yes/1/on". An int setting takes the parsed integer and fails, changing nothing, when the text does not parse. A string setting or a new key takes the raw text. Only that key changes |
| Configuration.UpdateKeepsType | config.py:53-64 | an existing setting keeps its type |
| Configuration.UpdateWithRenderedInt | config.py:58-59 | writing back an int setting's rendering succeeds and changes nothing |
| Configuration.Config.constructor | config.py:33-41 | the default settings |
| Configuration.Config.GetSetting | config.py:43-46 | the stored value, or the default for an absent key |
| Configuration.Config.UpdateSetting | config.py:48-77 | the new settings and answer are `UpdateSpec` of the old settings |
| MessageHelpers.LastNewlineBefore | utils/message_helpers.py:23 | the last newline among the first `limit` characters, or -1 when there is none |
| MessageHelpers.CutAt | utils/message_helpers.py:23-26 | the cut is at most the limit |
| MessageHelpers.LeadingNewlines | utils/message_helpers.py:28 | the length of the text's run of leading newlines |
| MessageHelpers.SplitLoop | utils/message_helpers.py:17-28 | no part is longer than the limit |
| MessageHelpers.SplitLoopReassembles | utils/message_helpers.py:17-28 | the parts, with the newlines dropped between them, rebuild the text exactly |
| MessageHelpers.SplitLoopShape | utils/message_helpers.py:17-28 | for a text that does not start with a newline, no part is empty or starts with one |
| MessageHelpers.LongMessageParts | utils/message_helpers.py:6-28 | a text that fits is sent whole; every part fits |
| MessageHelpers.FirstCut | utils/message_helpers.py:22-27 | the first part ends at the last newline before the limit, or at the limit when there is none |
| MessageHelpers.EmptyFirstPart | utils/message_helpers.py:23-28 | "\nab" with limit 2 yields an empty first part |
| MessageHelpers.SplitLoopStep | utils/message_helpers.py:18-28 | one turn of the loop cuts one part and continues on the rest, minus its leading newlines |
| MessageHelpers.SendLongMessage | utils/message_helpers.py:6-35 | the parts sent are `LongMessageParts` |
| MessageHelpers.GroupAllGrouping | utils/message_helpers.py:43-56 | every state of the grouping loop satisfies its invariant |
| MessageHelpers.ChunksShape | utils/message_helpers.py:37-60 | the chunks flatten back to the texts in order, and none is empty. A chunk of two or more texts fits 3900 characters. Each chunk but the last was closed because the next text would not fit |
| MessageHelpers.ChunkGames | utils/message_helpers.py:37-60 | the chunks sent are `Chunks` of the texts |

## Left out

- Telegram I/O, `asyncio` locks and sleeps, logging, and the MongoDB client. Sending becomes the list of texts that would be sent, and a collection becomes a sequence of documents.
- `tasks/fade_alerts.py` imports `get_fade_alert_subscribers`, `get_fade_alerts_since` and `update_fade_performance_stats`, which `db/alert_repo.py` does not define, and `find_fade_opportunities`, which `utils/game_processing.py` does not define. The model assumes the module loads: the alerts since a date are the input of `AnalyzePerformance`, the finder is a function parameter, and saving the report is not modelled.
- `notify_fade_alert_result` is not modelled. It is not called (the call is commented out) and is all I/O.
- `format_game_info` and the message text of `format_fade_alert` (emoji, names, star strings) are not modelled. For `format_game_info`, the chunker works on already formatted texts.
- GameProcessing.GetSpreadInfo: returns the numbers; the source renders them with `str()`. The later `float()` of that string is the identity here.
- Configuration.ParseInt: does not accept underscores between digits or non-ASCII digits and whitespace, which Python's `int()` does.
- Formatters.GameStatusIcon: the fallback label title-cases ASCII letters only; Python's `str.title()` also title-cases other letters. The lookup of known statuses is unaffected, because their keys are ASCII.
- GameRepo.NormalizeGameId: `str.isdigit()` also accepts non-ASCII digits; only ASCII digits are modelled.
- GameRepo.ProcessGameData: the types rule out a non-dictionary entry in `teams`, a truthy status that is not a string, a truthy boxscore that is not a dictionary, and float scores. In the source the first three raise, and the game is then dropped.
- Configuration.UpdateSpec: the float branch is not modelled, because no setting is ever a float. The defaults are bool or int, and new keys are stored as strings.
- `Config.get_all_settings` returns a copy of the settings map, which is the class's `settings` field.
- Metrics.BotMetrics.GetStats: does not model `get_stats` inserting zero entries into `error_counts` for every command it reports. The order among equal usage counts is the order of first logging. The uptime is the whole number of seconds, not the `timedelta` text.
- The memory reading (`psutil`), its `NoSuchProcess` fallback, and the CPU reading are inputs.
- The periodic database save of user statistics (`_save_to_db`) is not modelled. It is a background task on a copy.
- UserManagement.UserManager.TempbanUser: uses one `now` for the ban's end and the history timestamp. The source reads the clock twice.
- MessageHelpers.ChunksShape: the "closed because the next text did not fit" property is stated with one character of slack. The loop over-counts the first text of the first chunk by one.
- MessageHelpers.SendLongMessage: requires a positive limit, because with a limit of 0 the source loop never ends. The default limit is 4096.
- AlertRepo.FadeAlertStats: the database leaves the order of equal ratings open; the model keeps first appearance.
- AlertMonitoring.AlertMonitor.UpdateThreshold and CheckAndAlert: require the class invariant that the two checked thresholds exist. The constructor establishes it and every method keeps it.
- Timestamps are real seconds in the rate limiter, user manager, metrics and monitor, and whole seconds in the alert table. Time zones are not modelled.

## Findings

| source | as written | input that shows it | evidently intended | confidence | as-written member | corrected member |
|---|---|---|---|---|---|---|
| tasks/fade_alerts.py:205 | `faded_team_covered = actual_margin > spread_value` compares the margin with the line itself | a home team listed at -5.5 wins 100-95 (margin 5): it did not cover, yet the code reports `5 > -5.5`, i.e. covered, and the fade fails | the team covers when margin + line > 0 (the rule the comments at lines 203-204 describe and `determine_opponent_spread_result` applies) | not executed | FadeAlerts.SpreadCoverageFavouriteCounterexample | FadeAlerts.CorrectedSpreadCoverage |
