/** Fade-alert bookkeeping: deciding whether a fade won on each market,
    moving pending alerts to won/lost/error, the performance summary, and the
    loop that looks for new fade opportunities and stores them. The clock
    (`now`), the date string and the opportunity finder are parameters. */
module FadeAlerts {
  import opened Common
  import opened GameProcessing
  import opened GameRepo
  import opened Formatters
  import opened AlertRepo

  // ---------------------------------------------------------------------
  // Shared lookups
  // ---------------------------------------------------------------------

  /** The final (home, away) points when the boxscore holds both. */
  function FinalScores(g: Game): (r: Option<(int, int)>)
    ensures r.Some? <==> g.boxscore.Some? && g.boxscore.value.homePoints.Val? && g.boxscore.value.awayPoints.Val?
    ensures r.Some? ==> r.value == (g.boxscore.value.homePoints.value, g.boxscore.value.awayPoints.value)
  {
    if g.boxscore.Some? && g.boxscore.value.homePoints.Val? && g.boxscore.value.awayPoints.Val?
    then Some((g.boxscore.value.homePoints.value, g.boxscore.value.awayPoints.value))
    else None
  }

  /** Both side ids as `game.get('<side>_team_id') or game.get('<side>_team', {}).get('id')`;
      None when either expression raises (a null team object). */
  function SideIds(g: Game): (r: Option<(Option<int>, Option<int>)>)
    ensures r.Some? <==> SideTeamId(g, true).LookupOk? && SideTeamId(g, false).LookupOk?
    ensures r.Some? ==> r.value == (SideTeamId(g, true).id, SideTeamId(g, false).id)
  {
    match (SideTeamId(g, true), SideTeamId(g, false))
    case (LookupOk(h), LookupOk(a)) => Some((h, a))
    case _ => None
  }

  predicate IsHomeAway(side: Option<string>) {
    side == Some("Home") || side == Some("Away")
  }

  predicate IsOverUnder(side: Option<string>) {
    side == Some("Over") || side == Some("Under")
  }

  /** The faded side's margin: home minus away when fading 'Home', away minus
      home otherwise. */
  function FadedMargin(side: Option<string>, scores: (int, int)): int {
    if side == Some("Home") then scores.0 - scores.1 else scores.1 - scores.0
  }

  // ---------------------------------------------------------------------
  // determine_spread_fade_result
  // ---------------------------------------------------------------------

  /** The spread result: a push (None) when the faded side's margin equals
      the line; otherwise the fade wins exactly when the margin is below the
      line. None as well for a side other than Home/Away, a missing line,
      missing scores or a missing team id. */
  function SpreadFadeResult(g: Game, alert: AlertDoc): (r: Option<bool>)
    ensures !IsHomeAway(alert.fadedOutcomeLabel) || alert.fadedValue.None? ==> r.None?
    ensures FinalScores(g).None? || SideIds(g).None? ==> r.None?
    ensures r.Some? ==>
              var m := FadedMargin(alert.fadedOutcomeLabel, FinalScores(g).value) as real;
              m != alert.fadedValue.value && (r.value <==> m < alert.fadedValue.value)
    ensures (IsHomeAway(alert.fadedOutcomeLabel) && alert.fadedValue.Some? &&
             FinalScores(g).Some? && SideIds(g).Some? &&
             SideIds(g).value.0.Some? && SideIds(g).value.1.Some?) ==>
              (r.None? <==> FadedMargin(alert.fadedOutcomeLabel, FinalScores(g).value) as real == alert.fadedValue.value)
  {
    if !IsHomeAway(alert.fadedOutcomeLabel) || alert.fadedValue.None? then None
    else if g.boxscore.None? then None
    else
      var b := g.boxscore.value;
      match SideIds(g)
      case None => None
      case Some((homeId, awayId)) =>
        if !b.homePoints.Val? || !b.awayPoints.Val? || homeId.None? || awayId.None? then None
        else
          var margin := FadedMargin(alert.fadedOutcomeLabel, (b.homePoints.value, b.awayPoints.value));
          var line := alert.fadedValue.value;
          if margin as real == line then None
          else
            var covered := margin as real > line;
            Some(!covered)
  }

  // ---------------------------------------------------------------------
  // determine_total_fade_result
  // ---------------------------------------------------------------------

  /** The total result: a push (None) when the combined score equals the
      line; fading 'Over' wins when the total is below the line and fading
      'Under' when it is above. */
  function TotalFadeResult(g: Game, alert: AlertDoc): (r: Option<bool>)
    ensures !IsOverUnder(alert.fadedOutcomeLabel) || alert.fadedValue.None? ==> r.None?
    ensures FinalScores(g).None? ==> r.None?
    ensures (IsOverUnder(alert.fadedOutcomeLabel) && alert.fadedValue.Some? && FinalScores(g).Some?) ==>
              var total := (FinalScores(g).value.0 + FinalScores(g).value.1) as real;
              var line := alert.fadedValue.value;
              && (r.None? <==> total == line)
              && (r.Some? && alert.fadedOutcomeLabel == Some("Over") ==> (r.value <==> total < line))
              && (r.Some? && alert.fadedOutcomeLabel == Some("Under") ==> (r.value <==> total > line))
  {
    if !IsOverUnder(alert.fadedOutcomeLabel) || alert.fadedValue.None? then None
    else if g.boxscore.None? then None
    else
      var b := g.boxscore.value;
      if !b.homePoints.Val? || !b.awayPoints.Val? then None
      else
        var total := (b.homePoints.value + b.awayPoints.value) as real;
        var line := alert.fadedValue.value;
        if total == line then None
        else if alert.fadedOutcomeLabel == Some("Over") then Some(total < line)
        else Some(total > line)
  }

  /** A total fade on 'Over' and one on 'Under' at the same line never both
      win: outside a push, exactly one of them wins. */
  lemma TotalFadeSidesOpposite(g: Game, over: AlertDoc, under: AlertDoc)
    requires over.fadedOutcomeLabel == Some("Over") && under.fadedOutcomeLabel == Some("Under")
    requires over.fadedValue.Some? && over.fadedValue == under.fadedValue
    requires TotalFadeResult(g, over).Some?
    ensures TotalFadeResult(g, under).Some?
    ensures TotalFadeResult(g, over).value != TotalFadeResult(g, under).value
  {
  }

  // ---------------------------------------------------------------------
  // determine_moneyline_fade_result
  // ---------------------------------------------------------------------

  /** The moneyline result: fading 'Home' wins exactly when the winner's id
      is the away id, fading 'Away' exactly when it is the home id; None when
      no winner can be determined or a team id is missing. */
  function MoneylineFadeResult(g: Game, alert: AlertDoc): (r: Option<bool>)
    ensures !IsHomeAway(alert.fadedOutcomeLabel) ==> r.None?
    ensures DetermineWinner(g).None? ==> r.None?
    ensures r.Some? ==>
              && DetermineWinner(g).Some? && SideIds(g).Some?
              && IntTruthy(SideIds(g).value.0) && IntTruthy(SideIds(g).value.1)
              && (alert.fadedOutcomeLabel == Some("Home") ==>
                    (r.value <==> DetermineWinner(g).value.id == SideIds(g).value.1))
              && (alert.fadedOutcomeLabel == Some("Away") ==>
                    (r.value <==> DetermineWinner(g).value.id == SideIds(g).value.0))
    ensures (IsHomeAway(alert.fadedOutcomeLabel) && DetermineWinner(g).Some? && SideIds(g).Some? &&
             IntTruthy(SideIds(g).value.0) && IntTruthy(SideIds(g).value.1)) ==> r.Some?
  {
    if !IsHomeAway(alert.fadedOutcomeLabel) then None
    else
      match DetermineWinner(g)
      case None => None
      case Some(winner) =>
        match SideIds(g)
        case None => None
        case Some((homeId, awayId)) =>
          if !IntTruthy(homeId) || !IntTruthy(awayId) then None
          else if alert.fadedOutcomeLabel == Some("Home") then Some(winner.id == awayId)
          else Some(winner.id == homeId)
  }

  // ---------------------------------------------------------------------
  // determine_spread_coverage
  // ---------------------------------------------------------------------

  /** A boxscore score read with a default of 0: a missing key is 0, a null
      value is None. */
  function ScoreOrZero(f: Field<int>): Option<int> {
    match f
    case Missing => Some(0)
    case Null => None
    case Val(v) => Some(v)
  }

  /** The inputs `determine_spread_coverage` compares: the faded team's line
      and its margin (a missing score counting as 0). The margin is home
      minus away when the faded id is the home id and away minus home for
      any other id. */
  function CoverageInputs(g: Game, fadedTeamId: int): (r: Option<(real, int)>)
    ensures r.None? <==>
              || GetSpreadInfo(g, fadedTeamId).0.None?
              || !HasTruthyBoxscore(g)
              || SideIds(g).None?
              || !IntTruthy(SideIds(g).value.0) || !IntTruthy(SideIds(g).value.1)
              || g.boxscore.value.homePoints.Null? || g.boxscore.value.awayPoints.Null?
    ensures r.Some? ==> GetSpreadInfo(g, fadedTeamId).0 == Some(r.value.0)
    ensures r.Some? ==>
              var hs := ScoreOrZero(g.boxscore.value.homePoints).value;
              var as_ := ScoreOrZero(g.boxscore.value.awayPoints).value;
              r.value.1 == if Some(fadedTeamId) == SideIds(g).value.0 then hs - as_ else as_ - hs
  {
    var (spread, _) := GetSpreadInfo(g, fadedTeamId);
    if spread.None? || !HasTruthyBoxscore(g) then None
    else
      match SideIds(g)
      case None => None
      case Some((homeId, awayId)) =>
        if !IntTruthy(homeId) || !IntTruthy(awayId) then None
        else
          var b := g.boxscore.value;
          var hs, as_ := ScoreOrZero(b.homePoints), ScoreOrZero(b.awayPoints);
          if hs.None? || as_.None? then None
          else
            var margin := if Some(fadedTeamId) == homeId then hs.value - as_.value else as_.value - hs.value;
            Some((spread.value, margin))
  }

  /** A truthy boxscore without either score key counts as a 0-0 game: the
      coverage check decides on a margin of 0, where the spread resolver,
      which needs both scores, decides nothing. */
  lemma MissingScoresCountAsZero(g: Game, fadedTeamId: int, line: real, alert: AlertDoc)
    requires g.boxscore == Some(Boxscore(Missing, Missing, true))
    requires GetSpreadInfo(g, fadedTeamId).0 == Some(line)
    requires SideIds(g).Some? && IntTruthy(SideIds(g).value.0) && IntTruthy(SideIds(g).value.1)
    ensures CoverageInputs(g, fadedTeamId) == Some((line, 0))
    ensures SpreadCoverage(g, fadedTeamId) == Some(0.0 <= line)
    ensures SpreadFadeResult(g, alert).None?
  {
  }

  /** `determine_spread_coverage` as written: the fade succeeds unless the
      margin exceeds the line, so a margin equal to the line counts as a
      successful fade. (Its `winning_team_id` parameter is unused.) */
  function SpreadCoverage(g: Game, fadedTeamId: int): (r: Option<bool>)
    ensures r.Some? <==> CoverageInputs(g, fadedTeamId).Some?
    ensures r.Some? ==>
              var (line, margin) := CoverageInputs(g, fadedTeamId).value;
              (r.value <==> margin as real <= line)
  {
    match CoverageInputs(g, fadedTeamId)
    case None => None
    case Some((line, margin)) =>
      var fadedTeamCovered := margin as real > line;
      Some(!fadedTeamCovered)
  }

  /** The coverage rule the function's own comments describe: a team listed
      at -5.5 covers only by winning by 6 or more, one at +5.5 by losing by 5
      or less, i.e. the team covers when its margin plus its line is
      positive. */
  function CorrectedSpreadCoverage(g: Game, fadedTeamId: int): (r: Option<bool>)
    ensures r.Some? <==> CoverageInputs(g, fadedTeamId).Some?
    ensures r.Some? ==>
              var (line, margin) := CoverageInputs(g, fadedTeamId).value;
              (r.value <==> margin as real + line <= 0.0)
  {
    match CoverageInputs(g, fadedTeamId)
    case None => None
    case Some((line, margin)) =>
      var fadedTeamCovered := margin as real + line > 0.0;
      Some(!fadedTeamCovered)
  }

  /** A home favourite listed at -5.5 that wins 100-95 did not cover, so the
      fade succeeded; the rule as written reports a failed fade. */
  lemma SpreadCoverageFavouriteCounterexample()
    ensures var home := Team(Some(1), Some("Home"));
            var away := Team(Some(2), Some("Away"));
            var g := Game(IntId(7), Some("closed"), Some(Boxscore(Val(100), Val(95), false)),
                          Some(1), Some("nba"), None, Some(home), Some(away), None, None,
                          Some([MarketEntry(Some(1), Some(-5.5), Some(-110))]), Some([]), Some([]), Some([]));
            SpreadCoverage(g, 1) == Some(false) && CorrectedSpreadCoverage(g, 1) == Some(true)
  {
    var home := Team(Some(1), Some("Home"));
    var away := Team(Some(2), Some("Away"));
    var g := Game(IntId(7), Some("closed"), Some(Boxscore(Val(100), Val(95), false)),
                  Some(1), Some("nba"), None, Some(home), Some(away), None, None,
                  Some([MarketEntry(Some(1), Some(-5.5), Some(-110))]), Some([]), Some([]), Some([]));
    assert GetSpreadInfo(g, 1) == (Some(-5.5), Some(-110));
    assert CoverageInputs(g, 1) == Some((-5.5, 5));
  }

  /** The corrected rule agrees with the opponent-cover rule of the game
      helpers wherever that one decides. */
  lemma CorrectedCoverageAgreesWithOpponentRule(g: Game, fadedTeamId: int, line: real, b: bool)
    requires g.homeTeamId.None? && g.awayTeamId.None?
    requires GetSpreadInfo(g, fadedTeamId).0 == Some(line)
    requires g.homeTeam.Some? && g.awayTeam.Some?
    requires IntTruthy(g.homeTeam.value.id) && IntTruthy(g.awayTeam.value.id)
    requires OpponentSpreadResult(g, fadedTeamId, line) == Some(b)
    ensures CorrectedSpreadCoverage(g, fadedTeamId) == Some(b)
  {
    var bx := g.boxscore.value;
    assert bx.homePoints.Val? && bx.awayPoints.Val?;
    var hs, as_ := bx.homePoints.value, bx.awayPoints.value;
    if g.homeTeam.value.id == Some(fadedTeamId) {
      assert CoverageInputs(g, fadedTeamId) == Some((line, hs - as_));
    } else {
      assert g.awayTeam.value.id == Some(fadedTeamId);
      assert CoverageInputs(g, fadedTeamId) == Some((line, as_ - hs));
    }
  }

  // ---------------------------------------------------------------------
  // update_fade_alerts: the status machine
  // ---------------------------------------------------------------------

  /** What an update pass concludes about one pending alert. */
  datatype Outcome =
    | Incomplete          // a required field is missing: mark "error"
    | Skipped             // game not found, not finished, or unknown market
    | Undecided           // push or unusable data: stays pending
    | Decided(fadeWon: bool)

  /** `all([game_id, sport, market, faded_outcome_label, _id])`. */
  predicate HasRequiredFields(alert: AlertDoc) {
    alert.gameId.Some? && KeyTruthy(alert.gameId.value) && StrTruthy(alert.sport) &&
    StrTruthy(alert.market) && StrTruthy(alert.fadedOutcomeLabel) && KeyTruthy(alert.id)
  }

  /** The game an alert refers to, looked up in the collection of its
      sport ("nba", anything else is NCAAB). */
  function AlertGame(alert: AlertDoc, nba: seq<RawGame>, ncaab: seq<RawGame>): Option<Game>
    requires alert.gameId.Some?
  {
    GetGameById(if alert.sport == Some("nba") then nba else ncaab, alert.gameId.value)
  }

  /** A game counts as finished when its status lowercases to complete,
      closed or final; a null status is not finished. */
  predicate Finished(g: Game) {
    StatusIn(g, {"complete", "closed", "final"})
  }

  predicate KnownMarket(market: Option<string>) {
    market == Some("Spread") || market == Some("Total") || market == Some("Moneyline")
  }

  /** The resolver of the alert's market. */
  function MarketResult(g: Game, alert: AlertDoc): Option<bool>
    requires KnownMarket(alert.market)
  {
    if alert.market == Some("Spread") then SpreadFadeResult(g, alert)
    else if alert.market == Some("Total") then TotalFadeResult(g, alert)
    else MoneylineFadeResult(g, alert)
  }

  /** The decision for one pending alert. */
  function Resolve(alert: AlertDoc, nba: seq<RawGame>, ncaab: seq<RawGame>): (r: Outcome)
    ensures r.Incomplete? <==> !HasRequiredFields(alert)
    ensures r.Skipped? <==>
              HasRequiredFields(alert) &&
              (AlertGame(alert, nba, ncaab).None? || !Finished(AlertGame(alert, nba, ncaab).value) ||
               !KnownMarket(alert.market))
    ensures r.Decided? || r.Undecided? ==>
              && HasRequiredFields(alert) && AlertGame(alert, nba, ncaab).Some?
              && Finished(AlertGame(alert, nba, ncaab).value) && KnownMarket(alert.market)
              && MarketResult(AlertGame(alert, nba, ncaab).value, alert) ==
                   (if r.Decided? then Some(r.fadeWon) else None)
  {
    if !HasRequiredFields(alert) then Incomplete
    else
      match AlertGame(alert, nba, ncaab)
      case None => Skipped
      case Some(g) =>
        if !Finished(g) || !KnownMarket(alert.market) then Skipped
        else
          match MarketResult(g, alert)
          case None => Undecided
          case Some(b) => Decided(b)
  }

  /** The status written for an outcome: "error" for an incomplete alert,
      "won" when the fade won, "lost" when it lost, nothing otherwise. */
  function NewStatus(o: Outcome): (r: Option<string>)
    ensures r == Some("error") <==> o.Incomplete?
    ensures r == Some("won") <==> o == Decided(true)
    ensures r == Some("lost") <==> o == Decided(false)
    ensures r.None? <==> o.Skipped? || o.Undecided?
  {
    match o
    case Incomplete => Some("error")
    case Decided(b) => Some(if b then "won" else "lost")
    case _ => None
  }

  /** One alert's effect on the table and on the count of updated alerts:
      the new status is written with the alert's `_id` as the update key;
      only a won/lost update that modified a document is counted. */
  function Step(docs: seq<AlertDoc>, alert: AlertDoc, nba: seq<RawGame>, ncaab: seq<RawGame>, now: int): (r: (seq<AlertDoc>, nat))
    ensures r.1 <= 1
    ensures |r.0| == |docs|
  {
    var outcome := Resolve(alert, nba, ncaab);
    match NewStatus(outcome)
    case None => (docs, 0)
    case Some(status) =>
      var (next, modified) := ApplyResult(docs, alert.id, status, now);
      (next, if modified && !outcome.Incomplete? then 1 else 0)
  }

  /** Only a won/lost update that modified a document is counted; an alert
      without a new status changes nothing. */
  lemma StepCounts(docs: seq<AlertDoc>, alert: AlertDoc, nba: seq<RawGame>, ncaab: seq<RawGame>, now: int)
    ensures var r := Step(docs, alert, nba, ncaab, now);
            var status := NewStatus(Resolve(alert, nba, ncaab));
            && (status.None? ==> r == (docs, 0))
            && (status.Some? ==> r.0 == ApplyResult(docs, alert.id, status.value, now).0)
            && (r.1 == 1 <==> Resolve(alert, nba, ncaab).Decided? && ApplyResult(docs, alert.id, status.value, now).1)
  {
  }

  /** The table and count after handling `alerts` in order. */
  function ApplyAlerts(docs: seq<AlertDoc>, alerts: seq<AlertDoc>, nba: seq<RawGame>, ncaab: seq<RawGame>, now: int): (r: (seq<AlertDoc>, nat))
    decreases |alerts|
  {
    if alerts == [] then (docs, 0)
    else
      var prev := ApplyAlerts(docs, alerts[..|alerts| - 1], nba, ncaab, now);
      var step := Step(prev.0, alerts[|alerts| - 1], nba, ncaab, now);
      (step.0, prev.1 + step.1)
  }

  /** Handling one more alert is one more step. */
  lemma {:induction false} ApplyAlertsSnoc(docs: seq<AlertDoc>, alerts: seq<AlertDoc>, a: AlertDoc, nba: seq<RawGame>, ncaab: seq<RawGame>, now: int)
    ensures var prev := ApplyAlerts(docs, alerts, nba, ncaab, now);
            var step := Step(prev.0, a, nba, ncaab, now);
            ApplyAlerts(docs, alerts + [a], nba, ncaab, now) == (step.0, prev.1 + step.1)
  {
    var s := alerts + [a];
    assert s[..|s| - 1] == alerts;
    assert s[|s| - 1] == a;
  }

  /** At most one update is counted per alert. */
  lemma {:induction false} ApplyAlertsCountBound(docs: seq<AlertDoc>, alerts: seq<AlertDoc>, nba: seq<RawGame>, ncaab: seq<RawGame>, now: int)
    ensures ApplyAlerts(docs, alerts, nba, ncaab, now).1 <= |alerts|
    ensures |ApplyAlerts(docs, alerts, nba, ncaab, now).0| == |docs|
    decreases |alerts|
  {
    if alerts != [] {
      ApplyAlertsCountBound(docs, alerts[..|alerts| - 1], nba, ncaab, now);
    }
  }

  /** The alerts' `_id`s are database object ids, and no alert has an
      object id as its game id: then every update filters on a game id that
      no document has, so an update pass changes nothing and counts
      nothing. */
  lemma {:induction false} ObjectIdAlertsAreNeverUpdated(docs: seq<AlertDoc>, alerts: seq<AlertDoc>, nba: seq<RawGame>, ncaab: seq<RawGame>, now: int)
    requires forall a :: a in alerts ==> a.id.ObjId?
    requires forall d :: d in docs ==> d.gameId.None? || !d.gameId.value.ObjId?
    ensures ApplyAlerts(docs, alerts, nba, ncaab, now) == (docs, 0)
    decreases |alerts|
  {
    if alerts != [] {
      var init := alerts[..|alerts| - 1];
      assert forall a :: a in init ==> a in alerts;
      ObjectIdAlertsAreNeverUpdated(docs, init, nba, ncaab, now);
      var last := alerts[|alerts| - 1];
      assert last in alerts;
      ObjectIdStepChangesNothing(docs, last, nba, ncaab, now);
    }
  }

  /** One alert with an object id as `_id` changes nothing. */
  lemma ObjectIdStepChangesNothing(docs: seq<AlertDoc>, alert: AlertDoc, nba: seq<RawGame>, ncaab: seq<RawGame>, now: int)
    requires alert.id.ObjId?
    requires forall d :: d in docs ==> d.gameId.None? || !d.gameId.value.ObjId?
    ensures Step(docs, alert, nba, ncaab, now) == (docs, 0)
  {
    var st := NewStatus(Resolve(alert, nba, ncaab));
    if st.Some? {
      ObjectIdUpdateMissesEveryAlert(docs, alert.id.oid, st.value, now);
    }
  }

  /** The body of the update loop for one alert: resolve it, write the new
      status if there is one, and report whether a won/lost update landed. */
  method HandleAlert(table: AlertCollection, alert: AlertDoc, nba: seq<RawGame>, ncaab: seq<RawGame>, now: int)
    returns (counted: nat)
    modifies table
    ensures (table.docs, counted) == Step(old(table.docs), alert, nba, ncaab, now)
  {
    var outcome := Resolve(alert, nba, ncaab);
    var status := NewStatus(outcome);
    counted := 0;
    if status.Some? {
      var success := table.UpdateResult(alert.id, status.value, now);
      if success && !outcome.Incomplete? {
        counted := 1;
      }
    }
  }

  /** `update_fade_alerts`: takes the pending alerts once, then handles each
      in turn; returns how many alerts were moved to won/lost. */
  method UpdateFadeAlerts(table: AlertCollection, nba: seq<RawGame>, ncaab: seq<RawGame>, now: int)
    returns (updatedCount: nat)
    modifies table
    ensures (table.docs, updatedCount) ==
              ApplyAlerts(old(table.docs), PendingAlerts(old(table.docs)), nba, ncaab, now)
  {
    var pending := PendingAlerts(table.docs);
    ghost var start := table.docs;
    updatedCount := 0;
    if pending == [] {
      return;
    }
    var i := 0;
    while i < |pending|
      invariant 0 <= i <= |pending|
      invariant table.docs == ApplyAlerts(start, pending[..i], nba, ncaab, now).0
      invariant updatedCount == ApplyAlerts(start, pending[..i], nba, ncaab, now).1
    {
      ghost var before := pending[..i];
      ApplyAlertsSnoc(start, before, pending[i], nba, ncaab, now);
      var counted := HandleAlert(table, pending[i], nba, ncaab, now);
      updatedCount := updatedCount + counted;
      i := i + 1;
      assert pending[..i] == before + [pending[i - 1]];
    }
    assert pending[..i] == pending;
  }

  // ---------------------------------------------------------------------
  // analyze_fade_performance
  // ---------------------------------------------------------------------

  /** Number of alerts whose status is exactly `status`. */
  function CountStatus(alerts: seq<AlertDoc>, status: string): (r: nat)
    ensures r <= |alerts|
  {
    if alerts == [] then 0
    else (if alerts[0].status == Some(status) then 1 else 0) + CountStatus(alerts[1..], status)
  }

  /** Number of alerts whose status is neither "won" nor "lost" (pending,
      error, missing or anything else). */
  function CountUndecided(alerts: seq<AlertDoc>): (r: nat)
    ensures r <= |alerts|
  {
    if alerts == [] then 0
    else
      (if alerts[0].status != Some("won") && alerts[0].status != Some("lost") then 1 else 0) +
      CountUndecided(alerts[1..])
  }

  /** Total minus won minus lost counts exactly the undecided alerts. */
  lemma {:induction false} PendingIsUndecided(alerts: seq<AlertDoc>)
    ensures |alerts| - CountStatus(alerts, "won") - CountStatus(alerts, "lost") == CountUndecided(alerts)
  {
    if alerts != [] {
      PendingIsUndecided(alerts[1..]);
    }
  }

  /** The alerts that satisfy `p`, in their order (a list comprehension with
      an `if`). */
  function Where(alerts: seq<AlertDoc>, p: AlertDoc -> bool): (r: seq<AlertDoc>)
    ensures |r| <= |alerts|
    ensures forall a :: a in r <==> a in alerts && p(a)
  {
    if alerts == [] then []
    else
      var rest := Where(alerts[1..], p);
      assert alerts == [alerts[0]] + alerts[1..];
      if p(alerts[0]) then [alerts[0]] + rest else rest
  }

  /** Each alert satisfying `p` is kept as often as it occurs, and no other
      alert is kept. */
  lemma {:induction false} WhereCounts(alerts: seq<AlertDoc>, p: AlertDoc -> bool)
    ensures forall a :: multiset(Where(alerts, p))[a] == if p(a) then multiset(alerts)[a] else 0
  {
    if alerts != [] {
      WhereCounts(alerts[1..], p);
      assert alerts == [alerts[0]] + alerts[1..];
    }
  }

  /** Filtering a concatenation filters each part: the kept alerts stay in
      their order. */
  lemma {:induction false} WhereAppend(a: seq<AlertDoc>, b: seq<AlertDoc>, p: AlertDoc -> bool)
    ensures Where(a + b, p) == Where(a, p) + Where(b, p)
  {
    if a != [] {
      assert (a + b)[0] == a[0];
      assert (a + b)[1..] == a[1..] + b;
      WhereAppend(a[1..], b, p);
      if p(a[0]) {
        assert [a[0]] + (Where(a[1..], p) + Where(b, p)) == ([a[0]] + Where(a[1..], p)) + Where(b, p);
      }
    } else {
      assert a + b == b;
    }
  }

  function OfRating(alerts: seq<AlertDoc>, rating: int): seq<AlertDoc> {
    Where(alerts, (a: AlertDoc) => a.rating == Some(rating))
  }

  function OfSportName(alerts: seq<AlertDoc>, sport: string): seq<AlertDoc> {
    Where(alerts, (a: AlertDoc) => a.sport == Some(sport))
  }

  /** won / (won + lost) in percent, 0 when nothing is decided. */
  function WinPercentage(won: nat, lost: nat): (r: real)
    ensures 0.0 <= r <= 100.0
    ensures won + lost == 0 ==> r == 0.0
    ensures won + lost > 0 ==> r * (won + lost) as real == won as real * 100.0
  {
    if won + lost > 0 then won as real / (won + lost) as real * 100.0 else 0.0
  }

  /** The counts of one group of alerts. */
  datatype Summary = Summary(total: nat, won: nat, lost: nat, pending: int, winPercentage: real)

  function Summarize(alerts: seq<AlertDoc>): (r: Summary)
    ensures r.total == |alerts|
    ensures r.won == CountStatus(alerts, "won") && r.lost == CountStatus(alerts, "lost")
    ensures r.pending == CountUndecided(alerts) && r.pending >= 0
    ensures r.winPercentage == WinPercentage(r.won, r.lost)
  {
    var won, lost := CountStatus(alerts, "won"), CountStatus(alerts, "lost");
    PendingIsUndecided(alerts);
    Summary(|alerts|, won, lost, |alerts| - won - lost, WinPercentage(won, lost))
  }

  predicate HasDecided(alerts: seq<AlertDoc>) {
    CountStatus(alerts, "won") + CountStatus(alerts, "lost") > 0
  }

  datatype Performance = Performance(
    overall: Summary,
    byRating: map<int, Summary>,
    bySport: map<string, Summary>)

  const Sports: set<string> := {"nba", "ncaab"}

  /** The performance summary of the alerts of the last 30 days: None for
      an empty list; otherwise the overall counts (undecided alerts, errors
      included, count as pending) and a per-rating (1 to 5) and per-sport
      (nba, ncaab) summary for each group with at least one decided alert. */
  function AnalyzePerformance(alerts: seq<AlertDoc>): (r: Option<Performance>)
    ensures r.None? <==> alerts == []
    ensures r.Some? ==> r.value.overall == Summarize(alerts)
    ensures r.Some? ==> forall i :: i in r.value.byRating <==> 1 <= i <= 5 && HasDecided(OfRating(alerts, i))
    ensures r.Some? ==> forall i :: i in r.value.byRating ==> r.value.byRating[i] == Summarize(OfRating(alerts, i))
    ensures r.Some? ==> forall s :: s in r.value.bySport <==> s in Sports && HasDecided(OfSportName(alerts, s))
    ensures r.Some? ==> forall s :: s in r.value.bySport ==> r.value.bySport[s] == Summarize(OfSportName(alerts, s))
  {
    if alerts == [] then None
    else
      Some(Performance(
        Summarize(alerts),
        map i | 1 <= i <= 5 && HasDecided(OfRating(alerts, i)) :: Summarize(OfRating(alerts, i)),
        map s | s in Sports && HasDecided(OfSportName(alerts, s)) :: Summarize(OfSportName(alerts, s))))
  }

  /** An alert moved to "error" counts as pending, and so does every
      alert the resolver has not decided. */
  lemma {:induction false} ErrorAlertsCountAsPending(alerts: seq<AlertDoc>, a: AlertDoc)
    requires a in alerts && a.status == Some("error")
    ensures CountUndecided(alerts) > 0
  {
    if alerts[0] != a {
      ErrorAlertsCountAsPending(alerts[1..], a);
    }
  }

  // ---------------------------------------------------------------------
  // process_new_fade_alerts
  // ---------------------------------------------------------------------

  /** One fade opportunity as the finder returns it. `present` is the set of
      keys the dictionary has; indexing a key outside it raises. */
  datatype Opportunity = Opportunity(
    present: set<string>,
    gameId: Option<Key>,
    sport: Option<string>,
    market: Option<string>,
    fadedOutcomeLabel: Option<string>,
    fadedValue: Option<real>,
    odds: Option<int>,
    impliedProbability: Option<real>,
    ticketsPercent: Option<real>,
    moneyPercent: Option<real>,
    rating: Option<int>,
    reason: Option<string>)

  /** The keys the alert data reads with `opp[...]`. */
  const OpportunityKeys: set<string> :=
    {"game_id", "sport", "market", "faded_outcome_label", "odds", "implied_probability",
     "T%", "M%", "rating", "reason"}

  /** The keys of the alert data passed as `store_fade_alert(**alert_data)`. */
  const AlertDataKeys: set<string> :=
    {"game_id", "sport", "date", "market", "faded_outcome_label", "faded_value", "odds",
     "implied_probability", "tickets_percent", "money_percent", "rating", "reason",
     "status", "created_at"}

  /** The parameters of `format_fade_alert`, those without a default, and
      the keywords it is called with. */
  const FormatParams: set<string> := {"game", "sport", "completed", "winner_covered_spread"}
  const FormatRequired: set<string> := {"game"}
  const FormatCallKeywords: set<string> := {"game", "opportunity", "result_status"}

  /** A call with keyword arguments `passed` binds to a function with
      parameters `params`, of which `required` have no default, exactly when
      every keyword names a parameter and every required parameter is
      given. */
  predicate KwargsBind(passed: set<string>, params: set<string>, required: set<string>) {
    passed <= params && required <= passed
  }

  /** `store_fade_alert(**alert_data)` cannot bind: 'market' is no parameter
      of it (and 'team_id', 'spread_value' are not passed). */
  lemma StoreCallCannotBind()
    ensures !KwargsBind(AlertDataKeys, StoreParams, StoreRequired)
  {
    assert "market" in AlertDataKeys && "market" !in StoreParams;
  }

  /** `format_fade_alert(game=..., opportunity=..., result_status=...)`
      cannot bind: 'opportunity' is no parameter of it. */
  lemma FormatCallCannotBind()
    ensures !KwargsBind(FormatCallKeywords, FormatParams, FormatRequired)
  {
    assert "opportunity" in FormatCallKeywords && "opportunity" !in FormatParams;
  }

  /** The alert data built from an opportunity. */
  datatype AlertData = AlertData(keys: set<string>, opp: Opportunity, date: string, createdAt: int)

  /** The stored fields the call would pass if it bound. */
  function StoreArgsOf(data: AlertData): StoreArgs {
    StoreArgs(data.opp.gameId, data.opp.sport, Some(data.date), None, None,
              data.opp.ticketsPercent, data.opp.moneyPercent, data.opp.rating, DefaultStatus)
  }

  /** `store_wrapper`: calls the store with the data as keyword arguments;
      a call that does not bind raises, which is caught, and the result is
      false with nothing stored. */
  method StoreWrapper(table: AlertCollection, data: AlertData, now: int) returns (ok: bool)
    modifies table
    ensures !KwargsBind(data.keys, StoreParams, StoreRequired) ==> !ok && table.docs == old(table.docs)
    ensures KwargsBind(data.keys, StoreParams, StoreRequired) ==>
              ok && table.docs == Upsert(old(table.docs), StoreArgsOf(data), now)
  {
    if KwargsBind(data.keys, StoreParams, StoreRequired) {
      ok := table.Store(StoreArgsOf(data), now);
    } else {
      ok := false;
    }
  }

  /** `format_fade_alert` called with the given keywords: a call that does
      not bind raises (caught by the caller: no message). */
  function FormatCall(keywords: set<string>, g: Game): (r: Option<FadeView>)
    ensures !KwargsBind(keywords, FormatParams, FormatRequired) ==> r.None?
    ensures KwargsBind(keywords, FormatParams, FormatRequired) ==> r == FormatFadeAlert(g)
  {
    if KwargsBind(keywords, FormatParams, FormatRequired) then FormatFadeAlert(g) else None
  }

  /** A pending alert for the same game, market, faded side and date. */
  predicate SameOpportunity(d: AlertDoc, opp: Opportunity, date: string) {
    d.gameId == opp.gameId && d.market == opp.market &&
    d.fadedOutcomeLabel == opp.fadedOutcomeLabel && d.date == Some(date) && d.status == Some("pending")
  }

  /** The duplicate check: the first matching pending alert, if any. */
  function ExistingAlert(docs: seq<AlertDoc>, opp: Opportunity, date: string): (r: Option<AlertDoc>)
    ensures r.Some? ==> r.value in docs && SameOpportunity(r.value, opp, date)
    ensures r.None? <==> forall d :: d in docs ==> !SameOpportunity(d, opp, date)
  {
    match FirstIndex(docs, (d: AlertDoc) => SameOpportunity(d, opp, date))
    case None => None
    case Some(i) => Some(docs[i])
  }

  /** What happens to one opportunity before formatting. */
  datatype Action = KeyMissing | Reuse(existing: AlertDoc) | AttemptStore(data: AlertData)

  /** An opportunity missing an indexed key raises and is skipped; otherwise
      an existing pending alert for it is reused, and only when there is none
      is a store attempted. */
  function OpportunityAction(docs: seq<AlertDoc>, opp: Opportunity, date: string, now: int): (r: Action)
    ensures r.KeyMissing? <==> !(OpportunityKeys <= opp.present)
    ensures r.AttemptStore? <==>
              OpportunityKeys <= opp.present && forall d :: d in docs ==> !SameOpportunity(d, opp, date)
    ensures r.Reuse? ==> r.existing in docs && SameOpportunity(r.existing, opp, date)
    ensures r.AttemptStore? ==> r.data.keys == AlertDataKeys && r.data.opp == opp && r.data.date == date
  {
    if !(OpportunityKeys <= opp.present) then KeyMissing
    else
      match ExistingAlert(docs, opp, date)
      case Some(d) => Reuse(d)
      case None => AttemptStore(AlertData(AlertDataKeys, opp, date, now))
  }

  /** The statuses for which no new alerts are looked for. */
  predicate Terminal(g: Game) {
    g.status.None? || StatusIn(g, {"complete", "closed", "final"})
  }

  /** `process_new_fade_alerts`: for each game that is not finished, each
      opportunity found is deduplicated against the pending alerts and
      stored if new, and the alert message is formatted. As written, the
      store call and the format call never bind, so nothing is stored and no
      message is produced. */
  method ProcessNewFadeAlerts(table: AlertCollection, games: seq<Game>, sport: string,
                              find: (Game, string) -> seq<Opportunity>, date: string, now: int)
    returns (messages: seq<FadeView>)
    modifies table
    ensures messages == []
    ensures table.docs == old(table.docs)
  {
    StoreCallCannotBind();
    FormatCallCannotBind();
    messages := [];
    var i := 0;
    while i < |games|
      invariant 0 <= i <= |games|
      invariant messages == []
      invariant table.docs == old(table.docs)
    {
      var game := games[i];
      i := i + 1;
      if Terminal(game) {
        continue;
      }
      var opportunities := find(game, sport);
      var j := 0;
      while j < |opportunities|
        invariant 0 <= j <= |opportunities|
        invariant messages == []
        invariant table.docs == old(table.docs)
      {
        var opp := opportunities[j];
        j := j + 1;
        var toFormat: bool;
        match OpportunityAction(table.docs, opp, date, now) {
          case KeyMissing =>
            continue;
          case Reuse(_) =>
            toFormat := true;
          case AttemptStore(data) =>
            toFormat := StoreWrapper(table, data, now);
        }
        if toFormat {
          match FormatCall(FormatCallKeywords, game) {
            case Some(view) =>
              messages := messages + [view];
            case None =>
          }
        }
      }
    }
  }
}
