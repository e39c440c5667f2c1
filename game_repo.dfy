/** The game repository: turning a raw provider game into the processed game
    record, the list queries that keep only games that processed, and the id
    normalisation of the single-game lookup. The database pipelines
    themselves (date match, unwind, team-name regex) are replaced by the list
    of raw games they yield. */
module GameRepo {
  import opened Common
  import opened GameProcessing

  /** The `markets['15']['event']` dictionary. Each market key is missing,
      null (or holding something other than a list), or a list. */
  datatype EventMarkets = EventMarkets(
    spread: Field<seq<MarketEntry>>,
    moneyline: Field<seq<MarketEntry>>,
    total: Field<seq<MarketEntry>>)

  /** What `raw.get('markets', {}).get('15', {}).get('event', {})` yields:
      it raises when `markets` or `markets['15']` is present but null or not
      a dictionary; it finds no usable event when a key is absent or the
      event is empty, null or not a dictionary; otherwise it is the event. */
  datatype MarketsLookup = MarketsRaise | NoEvent | Event(ev: EventMarkets)

  /** A raw game as the provider stores it; `teams` is None when it is not a
      list. */
  datatype RawGame = RawGame(
    id: Option<Key>,
    status: Option<string>,
    boxscore: Option<Boxscore>,
    winnerId: Option<int>,
    sport: Option<string>,
    date: Option<string>,
    homeTeamId: Option<int>,
    awayTeamId: Option<int>,
    teams: Option<seq<Team>>,
    markets: MarketsLookup)

  /** The first team in `teams` whose id equals `id`. */
  function FindTeam(teams: seq<Team>, id: Option<int>): (r: Option<Team>)
    ensures r.Some? ==> exists i :: 0 <= i < |teams| && teams[i] == r.value &&
                          r.value.id == id && forall k :: 0 <= k < i ==> teams[k].id != id
    ensures r.None? ==> forall t :: t in teams ==> t.id != id
  {
    match FirstIndex(teams, (t: Team) => t.id == id)
    case None => None
    case Some(i) => Some(teams[i])
  }

  /** The conditions under which the winner is derived from the score: no
      truthy `winner_id`, a complete/closed status (any case), a truthy
      boxscore and two numeric scores. */
  predicate ScoreDecides(raw: RawGame) {
    !IntTruthy(raw.winnerId) && StrTruthy(raw.status) &&
    Lower(raw.status.value) in {"complete", "closed"} &&
    raw.boxscore.Some? && BoxscoreTruthy(raw.boxscore.value) &&
    raw.boxscore.value.homePoints.Val? && raw.boxscore.value.awayPoints.Val?
  }

  /** The winner: derived from the score when `ScoreDecides`, the strictly
      higher score's team id winning; a tie, or any other game, keeps the raw
      `winner_id`. */
  function DerivedWinner(raw: RawGame): Option<int> {
    if ScoreDecides(raw) then
      var hs, as_ := raw.boxscore.value.homePoints.value, raw.boxscore.value.awayPoints.value;
      if hs > as_ then raw.homeTeamId
      else if as_ > hs then raw.awayTeamId
      else raw.winnerId
    else raw.winnerId
  }

  /** `event.get(key, [])` as the processed market field: an absent key gives
      the empty list, a present one its value (None when that is not a list). */
  predicate MarketCopied(f: Field<seq<MarketEntry>>, out: Option<seq<MarketEntry>>) {
    match f
    case Missing => out == Some([])
    case Null => out.None?
    case Val(v) => out == Some(v)
  }

  function MarketOf(f: Field<seq<MarketEntry>>): Option<seq<MarketEntry>> {
    match f
    case Missing => Some([])
    case Null => None
    case Val(v) => Some(v)
  }

  /** The home and away ids are both truthy and `teams` is a list, so the
      team objects are looked up. */
  predicate TeamsLookedUp(raw: RawGame) {
    IntTruthy(raw.homeTeamId) && IntTruthy(raw.awayTeamId) && raw.teams.Some?
  }

  /** `_process_game_data`: None when the raw id is missing or falsy, or when
      the markets lookup raises (the handler returns None); otherwise a
      processed game whose id, status, boxscore, sport and date are copied,
      whose teams are the first entries of `teams` with the raw home/away ids,
      whose winner is the raw `winner_id` or the one derived from the score,
      and whose markets are the book-15 event lists (empty when absent).
      Processed games carry no `odds` list and no own home/away id fields. */
  function ProcessGameData(raw: RawGame): (r: Option<Game>)
    ensures r.None? <==> raw.id.None? || !KeyTruthy(raw.id.value) || raw.markets.MarketsRaise?
    ensures r.Some? ==>
              && r.value.gameId == raw.id.value
              && r.value.status == raw.status
              && r.value.boxscore == raw.boxscore
              && r.value.sport == raw.sport
              && r.value.date == raw.date
              && r.value.odds == Some([])
              && r.value.homeTeamId.None? && r.value.awayTeamId.None?
    ensures r.Some? && TeamsLookedUp(raw) ==>
              r.value.homeTeam == FindTeam(raw.teams.value, raw.homeTeamId) &&
              r.value.awayTeam == FindTeam(raw.teams.value, raw.awayTeamId)
    ensures r.Some? && !TeamsLookedUp(raw) ==> r.value.homeTeam.None? && r.value.awayTeam.None?
    ensures r.Some? && !ScoreDecides(raw) ==> r.value.winningTeamId == raw.winnerId
    ensures r.Some? && ScoreDecides(raw) ==>
              var hs, as_ := raw.boxscore.value.homePoints.value, raw.boxscore.value.awayPoints.value;
              (hs > as_ ==> r.value.winningTeamId == raw.homeTeamId) &&
              (as_ > hs ==> r.value.winningTeamId == raw.awayTeamId) &&
              (hs == as_ ==> r.value.winningTeamId == raw.winnerId)
    ensures r.Some? && raw.markets.NoEvent? ==>
              r.value.spread == Some([]) && r.value.moneyline == Some([]) && r.value.total == Some([])
    ensures r.Some? && raw.markets.Event? ==>
              MarketCopied(raw.markets.ev.spread, r.value.spread) &&
              MarketCopied(raw.markets.ev.moneyline, r.value.moneyline) &&
              MarketCopied(raw.markets.ev.total, r.value.total)
  {
    if raw.id.None? || !KeyTruthy(raw.id.value) || raw.markets.MarketsRaise? then None
    else
      var teamsOk := TeamsLookedUp(raw);
      var home := if teamsOk then FindTeam(raw.teams.value, raw.homeTeamId) else None;
      var away := if teamsOk then FindTeam(raw.teams.value, raw.awayTeamId) else None;
      var m := raw.markets;
      Some(Game(
        gameId := raw.id.value,
        status := raw.status,
        boxscore := raw.boxscore,
        winningTeamId := DerivedWinner(raw),
        sport := raw.sport,
        date := raw.date,
        homeTeam := home,
        awayTeam := away,
        homeTeamId := None,
        awayTeamId := None,
        spread := if m.Event? then MarketOf(m.ev.spread) else Some([]),
        moneyline := if m.Event? then MarketOf(m.ev.moneyline) else Some([]),
        total := if m.Event? then MarketOf(m.ev.total) else Some([]),
        odds := Some([])))
  }

  /** The list queries (`get_scheduled_games`, `get_game_by_team`): process
      every raw game and keep the ones that processed, in their original
      order. */
  function ProcessGames(raws: seq<RawGame>): (r: seq<Game>)
    ensures |r| <= |raws|
    ensures forall g :: g in r ==> exists raw :: raw in raws && ProcessGameData(raw) == Some(g)
    ensures forall raw :: raw in raws && ProcessGameData(raw).Some? ==> ProcessGameData(raw).value in r
  {
    if raws == [] then []
    else
      var rest := ProcessGames(raws[1..]);
      assert forall raw :: raw in raws[1..] ==> raw in raws;
      match ProcessGameData(raws[0])
      case None => rest
      case Some(g) => [g] + rest
  }

  /** Processing keeps the order: the processed list of a concatenation is the
      concatenation of the processed lists. */
  lemma {:induction false} ProcessGamesAppend(a: seq<RawGame>, b: seq<RawGame>)
    ensures ProcessGames(a + b) == ProcessGames(a) + ProcessGames(b)
  {
    if a != [] {
      assert (a + b)[0] == a[0];
      assert (a + b)[1..] == a[1..] + b;
      ProcessGamesAppend(a[1..], b);
      var restA, restB := ProcessGames(a[1..]), ProcessGames(b);
      if ProcessGameData(a[0]).Some? {
        var g := ProcessGameData(a[0]).value;
        assert [g] + (restA + restB) == ([g] + restA) + restB;
      }
    } else {
      assert a + b == b;
    }
  }

  /** The winner the repository derives from the score is the winner the
      alert logic determines on the processed game, when both team objects
      were found and the scores differ. */
  lemma ProcessedWinnerAgrees(raw: RawGame)
    requires ProcessGameData(raw).Some? && TeamsLookedUp(raw) && ScoreDecides(raw)
    requires FindTeam(raw.teams.value, raw.homeTeamId).Some?
    requires FindTeam(raw.teams.value, raw.awayTeamId).Some?
    requires raw.boxscore.value.homePoints.value != raw.boxscore.value.awayPoints.value
    ensures var g := ProcessGameData(raw).value;
            DetermineWinner(g) ==
              if raw.boxscore.value.homePoints.value > raw.boxscore.value.awayPoints.value
              then g.homeTeam else g.awayTeam
  {
    var g := ProcessGameData(raw).value;
    assert g.homeTeam.value.id == raw.homeTeamId;
    assert g.awayTeam.value.id == raw.awayTeamId;
  }

  /** A repository game never has a book-15 bet distribution: processing
      drops the raw `odds` list, so the lookup finds nothing. */
  lemma ProcessedGamesHaveNoBetPercentages(raw: RawGame, teamId: int)
    requires ProcessGameData(raw).Some?
    ensures GetBetPercentages(ProcessGameData(raw).value, teamId) == (None, None)
  {
  }

  /** The single-game lookup converts an all-digit string id to an integer
      before matching; every other id is used unchanged. */
  function NormalizeGameId(id: Key): (r: Key)
    ensures id.StrId? && AllDigits(id.s) ==> r == IntId(DigitsValue(id.s))
    ensures !(id.StrId? && AllDigits(id.s)) ==> r == id
  {
    if id.StrId? && AllDigits(id.s) then IntId(DigitsValue(id.s)) else id
  }

  /** A number written as a string finds the game stored under that number. */
  lemma NormalizeRenderedId(n: nat)
    ensures NormalizeGameId(StrId(NatToString(n))) == IntId(n)
  {
    DigitsValueOfNatToString(n);
  }

  /** `i` is the position of the first raw game whose id is `key`. */
  predicate FirstGameWithId(collection: seq<RawGame>, key: Key, i: int) {
    0 <= i < |collection| && collection[i].id == Some(key) &&
    forall k :: 0 <= k < i ==> collection[k].id != Some(key)
  }

  /** `get_game_by_id`: the first raw game whose id equals the normalised id,
      processed; None when there is none. */
  function GetGameById(collection: seq<RawGame>, id: Key): (r: Option<Game>)
    ensures r.Some? ==> r.value.gameId == NormalizeGameId(id)
    ensures (forall raw :: raw in collection ==> raw.id != Some(NormalizeGameId(id))) ==> r.None?
    ensures forall i :: FirstGameWithId(collection, NormalizeGameId(id), i) ==>
              r == ProcessGameData(collection[i])
  {
    var key := NormalizeGameId(id);
    match FirstIndex(collection, (raw: RawGame) => raw.id == Some(key))
    case None => None
    case Some(i) => ProcessGameData(collection[i])
  }

  /** A game stored under the number n is found by the string of n, as the
      first game stored under n, processed. */
  lemma GetGameByRenderedId(collection: seq<RawGame>, n: nat, i: nat)
    requires FirstGameWithId(collection, IntId(n), i)
    ensures GetGameById(collection, StrId(NatToString(n))) == ProcessGameData(collection[i])
  {
    NormalizeRenderedId(n);
  }
}
