/** The fade-alert collection: a table of alert documents held by a class,
    with the upsert and status update that change it and the queries that
    read it (pending alerts, grouped statistics, most recent alerts). The
    database's "first document in natural order" is the first element of the
    sequence; timestamps are whole seconds. */
module AlertRepo {
  import opened Common

  /** One alert document. `id` is the database's `_id`; the other fields are
      None when absent or null. */
  datatype AlertDoc = AlertDoc(
    id: Key,
    gameId: Option<Key>,
    sport: Option<string>,
    date: Option<string>,
    market: Option<string>,
    fadedOutcomeLabel: Option<string>,
    fadedValue: Option<real>,
    teamId: Option<int>,
    spreadValue: Option<real>,
    ticketsPercent: Option<real>,
    moneyPercent: Option<real>,
    rating: Option<int>,
    status: Option<string>,
    createdAt: Option<int>,
    updatedAt: Option<int>)

  /** The arguments of `store_fade_alert`. */
  datatype StoreArgs = StoreArgs(
    gameId: Option<Key>,
    sport: Option<string>,
    date: Option<string>,
    teamId: Option<int>,
    spreadValue: Option<real>,
    ticketsPercent: Option<real>,
    moneyPercent: Option<real>,
    rating: Option<int>,
    status: string)

  /** The parameter names of `store_fade_alert`, and those without a default. */
  const StoreParams: set<string> :=
    {"game_id", "sport", "date", "team_id", "spread_value", "tickets_percent",
     "money_percent", "rating", "status"}
  const StoreRequired: set<string> := StoreParams - {"status"}
  const DefaultStatus: string := "pending"

  // ---------------------------------------------------------------------
  // store_fade_alert: upsert keyed on game_id
  // ---------------------------------------------------------------------

  /** An object id larger than every object id in the table. */
  function FreshOid(docs: seq<AlertDoc>): (r: nat)
    ensures forall d :: d in docs && d.id.ObjId? ==> d.id.oid < r
  {
    if docs == [] then 0
    else
      var rest := FreshOid(docs[1..]);
      assert forall d :: d in docs[1..] ==> d in docs;
      var own := if docs[0].id.ObjId? then docs[0].id.oid + 1 else 0;
      if own > rest then own else rest
  }

  /** The document after `$set` of the stored fields; everything else it
      holds is kept. */
  function SetStoreFields(d: AlertDoc, a: StoreArgs, now: int): AlertDoc {
    d.(gameId := a.gameId, sport := a.sport, date := a.date, teamId := a.teamId,
       spreadValue := a.spreadValue, ticketsPercent := a.ticketsPercent,
       moneyPercent := a.moneyPercent, rating := a.rating, status := Some(a.status),
       createdAt := Some(now), updatedAt := Some(now))
  }

  /** The stored fields of `d` are those of `a` written at `now`. */
  predicate HoldsStore(d: AlertDoc, a: StoreArgs, now: int) {
    d.gameId == a.gameId && d.sport == a.sport && d.date == a.date && d.teamId == a.teamId &&
    d.spreadValue == a.spreadValue && d.ticketsPercent == a.ticketsPercent &&
    d.moneyPercent == a.moneyPercent && d.rating == a.rating && d.status == Some(a.status) &&
    d.createdAt == Some(now) && d.updatedAt == Some(now)
  }

  /** The fields a store never writes: `_id`, market, faded side and value. */
  predicate KeepsUnstored(after: AlertDoc, before: AlertDoc) {
    after.id == before.id && after.market == before.market &&
    after.fadedOutcomeLabel == before.fadedOutcomeLabel && after.fadedValue == before.fadedValue
  }

  predicate SameGame(d: AlertDoc, gameId: Option<Key>) {
    d.gameId == gameId
  }

  /** The table after storing `a`: the first document with the same game id
      has the stored fields overwritten; without one, a new document with a
      fresh object id and only the stored fields is appended. */
  function Upsert(docs: seq<AlertDoc>, a: StoreArgs, now: int): (r: seq<AlertDoc>)
    ensures (exists d :: d in docs && SameGame(d, a.gameId)) ==> |r| == |docs|
    ensures (forall d :: d in docs ==> !SameGame(d, a.gameId)) ==>
              |r| == |docs| + 1 && r[..|docs|] == docs && HoldsStore(r[|docs|], a, now) &&
              r[|docs|].id.ObjId? && forall d :: d in docs ==> d.id != r[|docs|].id
  {
    match FirstIndex(docs, (d: AlertDoc) => SameGame(d, a.gameId))
    case Some(i) =>
      docs[i := SetStoreFields(docs[i], a, now)]
    case None =>
      var blank := AlertDoc(ObjId(FreshOid(docs)), None, None, None, None, None, None, None,
                            None, None, None, None, None, None, None);
      docs + [SetStoreFields(blank, a, now)]
  }

  /** The index of the first document for a game, if any. */
  function FirstOfGame(docs: seq<AlertDoc>, gameId: Option<Key>): (r: Option<nat>)
    ensures r.Some? ==> r.value < |docs| && SameGame(docs[r.value], gameId)
    ensures r.Some? ==> forall j :: 0 <= j < r.value ==> !SameGame(docs[j], gameId)
    ensures r.None? ==> forall d :: d in docs ==> !SameGame(d, gameId)
  {
    FirstIndex(docs, (d: AlertDoc) => SameGame(d, gameId))
  }

  /** After a store, looking the game up finds a document holding exactly the
      stored fields, at the position of the earlier first match if there was
      one. That document keeps its `_id`, market, faded side and value; a
      new document has none of those three. Every other document is
      unchanged. */
  lemma {:induction false} UpsertThenFind(docs: seq<AlertDoc>, a: StoreArgs, now: int)
    ensures var r := Upsert(docs, a, now);
            && FirstOfGame(r, a.gameId).Some?
            && HoldsStore(r[FirstOfGame(r, a.gameId).value], a, now)
            && (FirstOfGame(docs, a.gameId).Some? ==>
                  && FirstOfGame(r, a.gameId) == FirstOfGame(docs, a.gameId)
                  && KeepsUnstored(r[FirstOfGame(docs, a.gameId).value], docs[FirstOfGame(docs, a.gameId).value]))
            && (FirstOfGame(docs, a.gameId).None? ==>
                  var d := r[FirstOfGame(r, a.gameId).value];
                  d.market.None? && d.fadedOutcomeLabel.None? && d.fadedValue.None?)
            && forall j :: 0 <= j < |docs| && Some(j as nat) != FirstOfGame(docs, a.gameId) ==>
                 r[j] == docs[j]
  {
    var r := Upsert(docs, a, now);
    var m := FirstIndex(docs, (d: AlertDoc) => SameGame(d, a.gameId));
    assert m == FirstOfGame(docs, a.gameId);
    match m
    case Some(i) =>
      assert r == docs[i := SetStoreFields(docs[i], a, now)];
      forall j | 0 <= j < i ensures !SameGame(r[j], a.gameId) {
        assert r[j] == docs[j];
      }
      assert SameGame(r[i], a.gameId);
      assert FirstOfGame(r, a.gameId) == Some(i);
    case None =>
      var n := |docs|;
      forall j | 0 <= j < n ensures !SameGame(r[j], a.gameId) {
        assert r[j] == docs[j];
        assert docs[j] in docs;
      }
      assert SameGame(r[n], a.gameId);
      assert FirstOfGame(r, a.gameId) == Some(n);
  }

  /** Storing the same arguments twice at the same time leaves the table as
      the first store left it. */
  lemma {:induction false} UpsertIdempotent(docs: seq<AlertDoc>, a: StoreArgs, now: int)
    ensures Upsert(Upsert(docs, a, now), a, now) == Upsert(docs, a, now)
  {
    var r := Upsert(docs, a, now);
    UpsertThenFind(docs, a, now);
    var i := FirstOfGame(r, a.gameId).value;
    assert FirstIndex(r, (d: AlertDoc) => SameGame(d, a.gameId)) == Some(i);
    assert SetStoreFields(r[i], a, now) == r[i];
    assert r[i := r[i]] == r;
  }

  // ---------------------------------------------------------------------
  // update_fade_alert_result
  // ---------------------------------------------------------------------

  /** The update filter: a string id is matched against `_id`, any other id
      against `game_id`. */
  predicate UpdateMatches(alertId: Key, d: AlertDoc) {
    if alertId.StrId? then d.id == alertId else d.gameId == Some(alertId)
  }

  /** The table after `$set` of status and update time on the first matching
      document, and whether that document changed (the modified count). */
  function ApplyResult(docs: seq<AlertDoc>, alertId: Key, status: string, now: int): (r: (seq<AlertDoc>, bool))
    ensures |r.0| == |docs|
    ensures r.1 <==> r.0 != docs
    ensures (forall d :: d in docs ==> !UpdateMatches(alertId, d)) ==> r == (docs, false)
    ensures forall j :: 0 <= j < |docs| ==>
              r.0[j] == docs[j] || r.0[j] == docs[j].(status := Some(status), updatedAt := Some(now))
    ensures (exists d :: d in docs && UpdateMatches(alertId, d)) ==>
              exists i :: 0 <= i < |docs| && UpdateMatches(alertId, docs[i]) &&
                (forall j :: 0 <= j < i ==> !UpdateMatches(alertId, docs[j])) &&
                r.0 == docs[i := docs[i].(status := Some(status), updatedAt := Some(now))]
  {
    match FirstIndex(docs, (d: AlertDoc) => UpdateMatches(alertId, d))
    case None => (docs, false)
    case Some(i) =>
      var nd := docs[i].(status := Some(status), updatedAt := Some(now));
      assert docs[i := nd] != docs <==> nd != docs[i] by {
        if nd != docs[i] {
          assert docs[i := nd][i] != docs[i];
        }
      }
      (docs[i := nd], nd != docs[i])
  }

  /** With an object id, the filter looks at `game_id`; when no document has
      an object id as its game id, the update changes nothing and reports
      failure. */
  lemma ObjectIdUpdateMissesEveryAlert(docs: seq<AlertDoc>, oid: nat, status: string, now: int)
    requires forall d :: d in docs ==> d.gameId.None? || !d.gameId.value.ObjId?
    ensures ApplyResult(docs, ObjId(oid), status, now) == (docs, false)
  {
    forall d | d in docs ensures !UpdateMatches(ObjId(oid), d) {
    }
  }

  // ---------------------------------------------------------------------
  // The collection
  // ---------------------------------------------------------------------

  class AlertCollection {
    var docs: seq<AlertDoc>

    constructor (initial: seq<AlertDoc>)
      ensures docs == initial
    {
      docs := initial;
    }

    /** `store_fade_alert`: upsert keyed on the game id alone; always
        succeeds. */
    method Store(a: StoreArgs, now: int) returns (ok: bool)
      modifies this
      ensures ok
      ensures docs == Upsert(old(docs), a, now)
    {
      docs := Upsert(docs, a, now);
      ok := true;
    }

    /** `update_fade_alert_result`: returns whether a document was modified. */
    method UpdateResult(alertId: Key, status: string, now: int) returns (modified: bool)
      modifies this
      ensures (docs, modified) == ApplyResult(old(docs), alertId, status, now)
    {
      var r := ApplyResult(docs, alertId, status, now);
      docs := r.0;
      modified := r.1;
    }
  }

  // ---------------------------------------------------------------------
  // get_pending_fade_alerts
  // ---------------------------------------------------------------------

  predicate IsPending(d: AlertDoc) {
    d.status == Some("pending")
  }

  /** The pending documents, in table order. */
  function PendingAlerts(docs: seq<AlertDoc>): (r: seq<AlertDoc>)
    ensures |r| <= |docs|
    ensures forall d :: d in r <==> d in docs && IsPending(d)
  {
    if docs == [] then []
    else
      var rest := PendingAlerts(docs[1..]);
      assert docs == [docs[0]] + docs[1..];
      if IsPending(docs[0]) then [docs[0]] + rest else rest
  }

  /** Each pending document is kept as often as it occurs, and no other
      document is kept. */
  lemma {:induction false} PendingAlertsCounts(docs: seq<AlertDoc>)
    ensures forall d :: multiset(PendingAlerts(docs))[d] == if IsPending(d) then multiset(docs)[d] else 0
  {
    if docs != [] {
      PendingAlertsCounts(docs[1..]);
      assert docs == [docs[0]] + docs[1..];
    }
  }

  /** The pending documents of a concatenation are those of each part, in
      table order. */
  lemma {:induction false} PendingAlertsAppend(a: seq<AlertDoc>, b: seq<AlertDoc>)
    ensures PendingAlerts(a + b) == PendingAlerts(a) + PendingAlerts(b)
  {
    if a != [] {
      assert (a + b)[0] == a[0];
      assert (a + b)[1..] == a[1..] + b;
      PendingAlertsAppend(a[1..], b);
      if IsPending(a[0]) {
        assert [a[0]] + (PendingAlerts(a[1..]) + PendingAlerts(b)) ==
               ([a[0]] + PendingAlerts(a[1..])) + PendingAlerts(b);
      }
    } else {
      assert a + b == b;
    }
  }

  // ---------------------------------------------------------------------
  // get_fade_alert_stats
  // ---------------------------------------------------------------------

  const SecondsPerDay: int := 86400

  datatype GroupKey = GroupKey(sport: Option<string>, rating: Option<int>)

  /** One statistics row: the group, its size, its winners and the win rate
      in percent. */
  datatype StatRow = StatRow(sport: Option<string>, rating: Option<int>, total: nat, winners: nat, winRate: real)

  function KeyOf(d: AlertDoc): GroupKey {
    GroupKey(d.sport, d.rating)
  }

  function RowKey(row: StatRow): GroupKey {
    GroupKey(row.sport, row.rating)
  }

  function RowRating(row: StatRow): Option<int> {
    row.rating
  }

  /** A document counts when it was created at or after the cutoff, its
      status is "winner" or "loser", and it is of the requested sport when
      one is given. */
  predicate CountsForStats(d: AlertDoc, sport: Option<string>, cutoff: int) {
    && d.createdAt.Some? && d.createdAt.value >= cutoff
    && (d.status == Some("winner") || d.status == Some("loser"))
    && (StrTruthy(sport) ==> d.sport == sport)
  }

  function StatsMatch(docs: seq<AlertDoc>, sport: Option<string>, cutoff: int): (r: seq<AlertDoc>)
    ensures forall d :: d in r <==> d in docs && CountsForStats(d, sport, cutoff)
  {
    if docs == [] then []
    else
      var rest := StatsMatch(docs[1..], sport, cutoff);
      assert docs == [docs[0]] + docs[1..];
      if CountsForStats(docs[0], sport, cutoff) then [docs[0]] + rest else rest
  }

  /** Each matching document is kept as often as it occurs, and no other
      document is kept. */
  lemma {:induction false} StatsMatchCounts(docs: seq<AlertDoc>, sport: Option<string>, cutoff: int)
    ensures forall d :: multiset(StatsMatch(docs, sport, cutoff))[d] == if CountsForStats(d, sport, cutoff) then multiset(docs)[d] else 0
  {
    if docs != [] {
      StatsMatchCounts(docs[1..], sport, cutoff);
      assert docs == [docs[0]] + docs[1..];
    }
  }

  /** The matched documents of a concatenation are those of each part, in
      table order. */
  lemma {:induction false} StatsMatchAppend(a: seq<AlertDoc>, b: seq<AlertDoc>, sport: Option<string>, cutoff: int)
    ensures StatsMatch(a + b, sport, cutoff) == StatsMatch(a, sport, cutoff) + StatsMatch(b, sport, cutoff)
  {
    if a != [] {
      assert (a + b)[0] == a[0];
      assert (a + b)[1..] == a[1..] + b;
      StatsMatchAppend(a[1..], b, sport, cutoff);
      if CountsForStats(a[0], sport, cutoff) {
        assert [a[0]] + (StatsMatch(a[1..], sport, cutoff) + StatsMatch(b, sport, cutoff)) ==
               ([a[0]] + StatsMatch(a[1..], sport, cutoff)) + StatsMatch(b, sport, cutoff);
      }
    } else {
      assert a + b == b;
    }
  }

  /** The distinct group keys of `ms` not already in `acc`, appended to
      `acc` in order of first appearance. */
  function GroupKeys(ms: seq<AlertDoc>, acc: seq<GroupKey>): (r: seq<GroupKey>)
    ensures forall k :: k in r <==> k in acc || exists d :: d in ms && KeyOf(d) == k
    ensures Distinct(acc) ==> Distinct(r)
  {
    if ms == [] then acc
    else
      assert ms == [ms[0]] + ms[1..];
      GroupKeys(ms[1..], if KeyOf(ms[0]) in acc then acc else acc + [KeyOf(ms[0])])
  }

  function CountKey(ms: seq<AlertDoc>, k: GroupKey): (r: nat)
    ensures r <= |ms|
    ensures r > 0 <==> exists d :: d in ms && KeyOf(d) == k
  {
    if ms == [] then 0
    else
      assert ms == [ms[0]] + ms[1..];
      (if KeyOf(ms[0]) == k then 1 else 0) + CountKey(ms[1..], k)
  }

  function CountWinners(ms: seq<AlertDoc>, k: GroupKey): (r: nat)
    ensures r <= CountKey(ms, k)
  {
    if ms == [] then 0
    else (if KeyOf(ms[0]) == k && ms[0].status == Some("winner") then 1 else 0) + CountWinners(ms[1..], k)
  }

  function RowFor(ms: seq<AlertDoc>, k: GroupKey): StatRow {
    var total := CountKey(ms, k);
    var winners := CountWinners(ms, k);
    StatRow(k.sport, k.rating, total, winners,
            if total == 0 then 0.0 else winners as real / total as real * 100.0)
  }

  /** One row per group key, in key order. */
  function GroupRows(ms: seq<AlertDoc>, keys: seq<GroupKey>): (r: seq<StatRow>)
    ensures |r| == |keys|
    ensures forall i :: 0 <= i < |keys| ==> r[i] == RowFor(ms, keys[i])
  {
    seq(|keys|, i requires 0 <= i < |keys| => RowFor(ms, keys[i]))
  }

  function StatsCutoff(days: int, now: int): int {
    now - days * SecondsPerDay
  }

  /** The statistics rows: one per (sport, rating) group of the counted
      documents, sorted by rating, highest first (a missing rating last).
      The database leaves the order of equal ratings open; the model keeps
      the order of first appearance. */
  function FadeAlertStats(docs: seq<AlertDoc>, sport: Option<string>, days: int, now: int): seq<StatRow> {
    var ms := StatsMatch(docs, sport, StatsCutoff(days, now));
    SortDesc(GroupRows(ms, GroupKeys(ms, [])), RowRating)
  }

  /** Each group key of the counted documents gives a non-empty row with
      its exact counts and win rate. */
  lemma {:induction false} RowForMeaning(ms: seq<AlertDoc>, k: GroupKey)
    requires k in GroupKeys(ms, [])
    ensures var row := RowFor(ms, k);
            && RowKey(row) == k
            && row.total == CountKey(ms, k) > 0
            && row.winners == CountWinners(ms, k)
            && row.winRate == row.winners as real / row.total as real * 100.0
  {
    assert exists d :: d in ms && KeyOf(d) == k;
  }

  /** The rows are sorted by rating, highest first. */
  lemma FadeAlertStatsSorted(docs: seq<AlertDoc>, sport: Option<string>, days: int, now: int)
    ensures SortedDesc(FadeAlertStats(docs, sport, days, now), RowRating)
  {
    var ms := StatsMatch(docs, sport, StatsCutoff(days, now));
    SortDescSorted(GroupRows(ms, GroupKeys(ms, [])), RowRating);
  }

  /** Every row is a non-empty group of counted documents with its exact
      size, winner count and win rate in percent. */
  lemma FadeAlertStatsRows(docs: seq<AlertDoc>, sport: Option<string>, days: int, now: int)
    ensures var ms := StatsMatch(docs, sport, StatsCutoff(days, now));
            forall row :: row in FadeAlertStats(docs, sport, days, now) ==>
              && row.total == CountKey(ms, RowKey(row)) > 0
              && row.winners == CountWinners(ms, RowKey(row))
              && row.winRate == row.winners as real / row.total as real * 100.0
  {
    var ms := StatsMatch(docs, sport, StatsCutoff(days, now));
    var keys := GroupKeys(ms, []);
    var rows := GroupRows(ms, keys);
    SortDescMembers(rows, RowRating);
    forall row | row in FadeAlertStats(docs, sport, days, now)
      ensures row.total == CountKey(ms, RowKey(row)) > 0
      ensures row.winners == CountWinners(ms, RowKey(row))
      ensures row.winRate == row.winners as real / row.total as real * 100.0
    {
      var i :| 0 <= i < |rows| && rows[i] == row;
      RowForMeaning(ms, keys[i]);
    }
  }

  /** Every counted document has the row of its group. */
  lemma FadeAlertStatsCover(docs: seq<AlertDoc>, sport: Option<string>, days: int, now: int)
    ensures forall d :: d in docs && CountsForStats(d, sport, StatsCutoff(days, now)) ==>
              exists row :: row in FadeAlertStats(docs, sport, days, now) && RowKey(row) == KeyOf(d)
  {
    var ms := StatsMatch(docs, sport, StatsCutoff(days, now));
    var keys := GroupKeys(ms, []);
    var rows := GroupRows(ms, keys);
    SortDescMembers(rows, RowRating);
    forall d | d in docs && CountsForStats(d, sport, StatsCutoff(days, now))
      ensures exists row :: row in FadeAlertStats(docs, sport, days, now) && RowKey(row) == KeyOf(d)
    {
      var k := KeyOf(d);
      assert d in ms;
      assert k in keys;
      var i :| 0 <= i < |keys| && keys[i] == k;
      assert RowKey(rows[i]) == k;
      assert rows[i] in rows;
    }
  }

  /** Alerts resolved as "won"/"lost" never reach the statistics, which
      count only "winner"/"loser". */
  lemma StatsIgnoreWonLost(docs: seq<AlertDoc>, sport: Option<string>, days: int, now: int)
    requires forall d :: d in docs ==> d.status != Some("winner") && d.status != Some("loser")
    ensures FadeAlertStats(docs, sport, days, now) == []
  {
  }

  // ---------------------------------------------------------------------
  // get_recent_fade_alerts
  // ---------------------------------------------------------------------

  function CreatedAt(d: AlertDoc): Option<int> {
    d.createdAt
  }

  predicate OfSport(d: AlertDoc, sport: Option<string>) {
    StrTruthy(sport) ==> d.sport == sport
  }

  function SportFilter(docs: seq<AlertDoc>, sport: Option<string>): (r: seq<AlertDoc>)
    ensures forall d :: d in r <==> d in docs && OfSport(d, sport)
    ensures !StrTruthy(sport) ==> r == docs
  {
    if docs == [] then []
    else
      var rest := SportFilter(docs[1..], sport);
      assert docs == [docs[0]] + docs[1..];
      if OfSport(docs[0], sport) then [docs[0]] + rest else rest
  }

  /** Each document of the sport is kept as often as it occurs, and no
      other document is kept. */
  lemma {:induction false} SportFilterCounts(docs: seq<AlertDoc>, sport: Option<string>)
    ensures forall d :: multiset(SportFilter(docs, sport))[d] == if OfSport(d, sport) then multiset(docs)[d] else 0
  {
    if docs != [] {
      SportFilterCounts(docs[1..], sport);
      assert docs == [docs[0]] + docs[1..];
    }
  }

  /** The sport's documents of a concatenation are those of each part, in
      table order. */
  lemma {:induction false} SportFilterAppend(a: seq<AlertDoc>, b: seq<AlertDoc>, sport: Option<string>)
    ensures SportFilter(a + b, sport) == SportFilter(a, sport) + SportFilter(b, sport)
  {
    if a != [] {
      assert (a + b)[0] == a[0];
      assert (a + b)[1..] == a[1..] + b;
      SportFilterAppend(a[1..], b, sport);
      var restA, restB := SportFilter(a[1..], sport), SportFilter(b, sport);
      if OfSport(a[0], sport) {
        assert SportFilter(a + b, sport) == [a[0]] + (restA + restB);
        assert SportFilter(a, sport) == [a[0]] + restA;
        assert [a[0]] + (restA + restB) == ([a[0]] + restA) + restB;
      } else {
        assert SportFilter(a + b, sport) == restA + restB;
        assert SportFilter(a, sport) == restA;
      }
    } else {
      assert a + b == b;
    }
  }

  /** The newest `limit` documents of the sport (all when `limit` is 0),
      newest creation time first, a missing creation time last. */
  function RecentAlerts(docs: seq<AlertDoc>, sport: Option<string>, limit: nat): (r: seq<AlertDoc>)
  {
    Limit(SortDesc(SportFilter(docs, sport), CreatedAt), limit)
  }

  /** The recent alerts are of the sport, at most `limit` of them, newest
      first, and no left-out document of the sport is newer than any returned
      one: they are a prefix of the sport's documents sorted by creation
      time. */
  lemma RecentAlertsMeaning(docs: seq<AlertDoc>, sport: Option<string>, limit: nat)
    ensures var r := RecentAlerts(docs, sport, limit);
            && (limit > 0 ==> |r| <= limit)
            && |r| == (if limit == 0 || |SportFilter(docs, sport)| <= limit
                       then |SportFilter(docs, sport)| else limit)
            && (forall d :: d in r ==> d in docs && OfSport(d, sport))
            && SortedDesc(r, CreatedAt)
            && exists s :: multiset(s) == multiset(SportFilter(docs, sport)) && SortedDesc(s, CreatedAt) &&
                 |r| <= |s| && r == s[..|r|] && (limit == 0 ==> r == s)
  {
    var f := SportFilter(docs, sport);
    var s := SortDesc(f, CreatedAt);
    SortDescSorted(f, CreatedAt);
    var r := RecentAlerts(docs, sport, limit);
    assert r == s[..|r|];
    SortDescMembers(f, CreatedAt);
    assert |s| == |multiset(s)| == |multiset(f)| == |f|;
  }
}
