/** The processed game record and the lookups the alert logic performs on it:
    who won, the spread line of a team, the ticket and money percentages of
    the designated sportsbook (book 15), and the opponent-cover rule. */
module GameProcessing {
  import opened Common

  /** A team object; `id` may be absent. A present team object is taken to be
      a non-empty dictionary. */
  datatype Team = Team(id: Option<int>, displayName: Option<string>)

  /** A boxscore dictionary: the two point totals and whether it holds any
      other key (which decides whether the dictionary is truthy). */
  datatype Boxscore = Boxscore(homePoints: Field<int>, awayPoints: Field<int>, otherFields: bool)

  /** One market outcome (spread, moneyline or total entry). */
  datatype MarketEntry = MarketEntry(teamId: Option<int>, value: Option<real>, odds: Option<int>)

  /** One sportsbook's bet distribution; percentages are fractions (0.5 = 50%). */
  datatype OddsEntry = OddsEntry(
    bookId: Option<int>,
    homeTickets: Option<real>, homeMoney: Option<real>,
    awayTickets: Option<real>, awayMoney: Option<real>)

  /** A game as the bot holds it. `status` None is a null value; `homeTeam`
      None is a null team object; `homeTeamId`/`awayTeamId` are the game's own
      id fields, which the repository's processed games do not carry; a list
      field that is None holds something other than a list. */
  datatype Game = Game(
    gameId: Key,
    status: Option<string>,
    boxscore: Option<Boxscore>,
    winningTeamId: Option<int>,
    sport: Option<string>,
    date: Option<string>,
    homeTeam: Option<Team>,
    awayTeam: Option<Team>,
    homeTeamId: Option<int>,
    awayTeamId: Option<int>,
    spread: Option<seq<MarketEntry>>,
    moneyline: Option<seq<MarketEntry>>,
    total: Option<seq<MarketEntry>>,
    odds: Option<seq<OddsEntry>>)

  /** `if boxscore:` -- a dictionary is truthy when it holds any key. */
  predicate BoxscoreTruthy(b: Boxscore) {
    b.otherFields || !b.homePoints.Missing? || !b.awayPoints.Missing?
  }

  predicate HasTruthyBoxscore(g: Game) {
    g.boxscore.Some? && BoxscoreTruthy(g.boxscore.value)
  }

  /** The status lowercases to one of `finals`; a null status is in no list. */
  predicate StatusIn(g: Game, finals: set<string>) {
    g.status.Some? && Lower(g.status.value) in finals
  }

  /** Result of `game.get('home_team_id') or game.get('home_team', {}).get('id')`:
      a null team object makes the expression raise. */
  datatype IdLookup = LookupRaised | LookupOk(id: Option<int>)

  function SideTeamId(g: Game, home: bool): (r: IdLookup)
    ensures home && IntTruthy(g.homeTeamId) ==> r == LookupOk(g.homeTeamId)
    ensures !home && IntTruthy(g.awayTeamId) ==> r == LookupOk(g.awayTeamId)
    ensures home && !IntTruthy(g.homeTeamId) && g.homeTeam.None? ==> r == LookupRaised
    ensures home && !IntTruthy(g.homeTeamId) && g.homeTeam.Some? ==> r == LookupOk(g.homeTeam.value.id)
    ensures !home && !IntTruthy(g.awayTeamId) && g.awayTeam.None? ==> r == LookupRaised
    ensures !home && !IntTruthy(g.awayTeamId) && g.awayTeam.Some? ==> r == LookupOk(g.awayTeam.value.id)
  {
    var own := if home then g.homeTeamId else g.awayTeamId;
    var team := if home then g.homeTeam else g.awayTeam;
    if IntTruthy(own) then LookupOk(own)
    else if team.None? then LookupRaised
    else LookupOk(team.value.id)
  }

  // ---------------------------------------------------------------------
  // determine_winner
  // ---------------------------------------------------------------------

  /** The explicit `winning_team_id` is set and names team `t`. */
  predicate WinnerIdNames(g: Game, t: Team) {
    IntTruthy(g.winningTeamId) && t.id == g.winningTeamId
  }

  /** The game is complete/closed with a truthy boxscore holding both scores. */
  predicate ScoresFinal(g: Game) {
    HasTruthyBoxscore(g) && StatusIn(g, {"complete", "closed"}) &&
    g.boxscore.value.homePoints.Val? && g.boxscore.value.awayPoints.Val?
  }

  /** The winner: the team named by `winning_team_id` if it names either team,
      otherwise the team with the strictly higher final score. A null status
      with a boxscore raises in the source; its only caller catches that and
      treats it as "no winner", which is what None says here. */
  function DetermineWinner(g: Game): (r: Option<Team>)
    ensures g.homeTeam.None? || g.awayTeam.None? ==> r.None?
    ensures r.Some? ==> r == g.homeTeam || r == g.awayTeam
    ensures g.homeTeam.Some? && g.awayTeam.Some? && WinnerIdNames(g, g.homeTeam.value) ==>
              r == g.homeTeam
    ensures (g.homeTeam.Some? && g.awayTeam.Some? && !WinnerIdNames(g, g.homeTeam.value) &&
             WinnerIdNames(g, g.awayTeam.value)) ==> r == g.awayTeam
    ensures (g.homeTeam.Some? && g.awayTeam.Some? && !WinnerIdNames(g, g.homeTeam.value) &&
             !WinnerIdNames(g, g.awayTeam.value)) ==>
              (r.Some? <==> (ScoresFinal(g) &&
                 g.boxscore.value.homePoints.value != g.boxscore.value.awayPoints.value)) &&
              (r.Some? && g.boxscore.value.homePoints.value > g.boxscore.value.awayPoints.value ==>
                 r == g.homeTeam) &&
              (r.Some? && g.boxscore.value.awayPoints.value > g.boxscore.value.homePoints.value ==>
                 r == g.awayTeam)
  {
    if g.homeTeam.None? || g.awayTeam.None? then None
    else
      var home, away := g.homeTeam.value, g.awayTeam.value;
      if WinnerIdNames(g, home) then Some(home)
      else if WinnerIdNames(g, away) then Some(away)
      else if ScoresFinal(g) then
        var hs, as_ := g.boxscore.value.homePoints.value, g.boxscore.value.awayPoints.value;
        if hs > as_ then Some(home) else if as_ > hs then Some(away) else None
      else None
  }

  // ---------------------------------------------------------------------
  // get_spread_info
  // ---------------------------------------------------------------------

  /** `j` is the position of the first entry of `s` for `teamId`. */
  predicate FirstEntryFor(s: seq<MarketEntry>, teamId: int, j: int) {
    0 <= j < |s| && s[j].teamId == Some(teamId) &&
    forall k :: 0 <= k < j ==> s[k].teamId != Some(teamId)
  }

  /** The (value, odds) of the first spread entry for `teamId`; the source
      renders both as strings with `str`, which is not modelled. */
  function GetSpreadInfo(g: Game, teamId: int): (r: (Option<real>, Option<int>))
    ensures g.spread.None? ==> r == (None, None)
    ensures (g.spread.Some? && forall j :: 0 <= j < |g.spread.value| ==>
               g.spread.value[j].teamId != Some(teamId)) ==> r == (None, None)
    ensures g.spread.Some? ==>
              forall j :: FirstEntryFor(g.spread.value, teamId, j) ==>
                r == (g.spread.value[j].value, g.spread.value[j].odds)
  {
    if g.spread.None? then (None, None)
    else
      match FirstIndex(g.spread.value, (e: MarketEntry) => e.teamId == Some(teamId))
      case None => (None, None)
      case Some(j) => (g.spread.value[j].value, g.spread.value[j].odds)
  }

  // ---------------------------------------------------------------------
  // get_bet_percentages
  // ---------------------------------------------------------------------

  const DesignatedBook: int := 15

  function Percent(x: Option<real>): (r: Option<real>)
    ensures r.Some? <==> x.Some?
    ensures r.Some? ==> r.value == x.value * 100.0
  {
    if x.Some? then Some(x.value * 100.0) else None
  }

  /** `j` is the position of the first book-15 entry of `odds`. */
  predicate FirstDesignatedBook(odds: seq<OddsEntry>, j: int) {
    0 <= j < |odds| && odds[j].bookId == Some(DesignatedBook) &&
    forall k :: 0 <= k < j ==> odds[k].bookId != Some(DesignatedBook)
  }

  /** Ticket and money percentages for `teamId` from the first book-15 entry:
      the home fields when `teamId` is the home id, the away fields for any
      other id, each scaled from a fraction to a percentage. */
  function GetBetPercentages(g: Game, teamId: int): (r: (Option<real>, Option<real>))
    ensures g.odds.None? ==> r == (None, None)
    ensures (g.odds.Some? && forall j :: 0 <= j < |g.odds.value| ==>
               g.odds.value[j].bookId != Some(DesignatedBook)) ==> r == (None, None)
    ensures g.odds == Some([]) ==> r == (None, None)
    ensures SideTeamId(g, true).LookupRaised? ==> r == (None, None)
    ensures g.odds.Some? && SideTeamId(g, true).LookupOk? ==>
              forall j :: FirstDesignatedBook(g.odds.value, j) ==>
                r == (if SideTeamId(g, true).id == Some(teamId)
                      then (Percent(g.odds.value[j].homeTickets), Percent(g.odds.value[j].homeMoney))
                      else (Percent(g.odds.value[j].awayTickets), Percent(g.odds.value[j].awayMoney)))
  {
    if g.odds.None? then (None, None)
    else
      match FirstIndex(g.odds.value, (o: OddsEntry) => o.bookId == Some(DesignatedBook))
      case None => (None, None)
      case Some(j) =>
        var book := g.odds.value[j];
        match SideTeamId(g, true)
        case LookupRaised => (None, None)
        case LookupOk(homeId) =>
          if homeId == Some(teamId) then (Percent(book.homeTickets), Percent(book.homeMoney))
          else (Percent(book.awayTickets), Percent(book.awayMoney))
  }

  // ---------------------------------------------------------------------
  // determine_opponent_spread_result
  // ---------------------------------------------------------------------

  /** Did the opponent of the faded team cover? The source computes
      (opponent score - faded score) - fadeSpread: positive means the fade
      won, negative that it lost, zero is a push (None). The contract states
      it as the usual cover rule seen from the faded team: the faded team
      covers when its own margin plus its line is positive. */
  function OpponentSpreadResult(g: Game, fadeTeamId: int, fadeSpread: real): (r: Option<bool>)
    ensures g.homeTeam.None? || g.awayTeam.None? || !HasTruthyBoxscore(g) ==> r.None?
    ensures (HasTruthyBoxscore(g) &&
             (!g.boxscore.value.homePoints.Val? || !g.boxscore.value.awayPoints.Val?)) ==> r.None?
    ensures g.homeTeam.Some? && g.awayTeam.Some? &&
            g.homeTeam.value.id != Some(fadeTeamId) && g.awayTeam.value.id != Some(fadeTeamId) ==>
              r.None?
    ensures g.homeTeam.Some? && g.awayTeam.Some? && HasTruthyBoxscore(g) &&
            g.boxscore.value.homePoints.Val? && g.boxscore.value.awayPoints.Val? &&
            (g.homeTeam.value.id == Some(fadeTeamId) || g.awayTeam.value.id == Some(fadeTeamId)) ==>
              var faded := if g.homeTeam.value.id == Some(fadeTeamId)
                           then g.boxscore.value.homePoints.value - g.boxscore.value.awayPoints.value
                           else g.boxscore.value.awayPoints.value - g.boxscore.value.homePoints.value;
              r == if faded as real + fadeSpread > 0.0 then Some(false)
                   else if faded as real + fadeSpread < 0.0 then Some(true)
                   else None
  {
    if g.homeTeam.None? || g.awayTeam.None? || !HasTruthyBoxscore(g) then None
    else
      var b := g.boxscore.value;
      if !b.homePoints.Val? || !b.awayPoints.Val? then None
      else
        var hs, as_ := b.homePoints.value, b.awayPoints.value;
        var scores :=
          if g.homeTeam.value.id == Some(fadeTeamId) then Some((as_, hs))
          else if g.awayTeam.value.id == Some(fadeTeamId) then Some((hs, as_))
          else None;
        if scores.None? then None
        else
          var resultMargin := (scores.value.0 - scores.value.1) as real + (-fadeSpread);
          if resultMargin > 0.0 then Some(true)
          else if resultMargin < 0.0 then Some(false)
          else None
  }
}
