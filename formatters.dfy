/** The decisions of the message formatters: the status label, the fade
    rating, and when a fade alert is produced and which team it fades. The
    rendered message text itself is not modelled. */
module Formatters {
  import opened Common
  import opened GameProcessing

  // ---------------------------------------------------------------------
  // get_game_status_icon
  // ---------------------------------------------------------------------

  predicate IsSeparator(c: char) {
    c == '_' || c == '-'
  }

  /** The status as looked up: lowercased, with every '_' and '-' removed. */
  function NormalizeStatus(s: string): (r: string)
    ensures |r| <= |s|
    ensures forall i :: 0 <= i < |r| ==> !IsSeparator(r[i]) && !('A' <= r[i] <= 'Z')
    ensures (forall i :: 0 <= i < |s| ==> !IsSeparator(s[i])) ==> r == Lower(s)
  {
    if s == [] then []
    else
      var rest := NormalizeStatus(s[1..]);
      if IsSeparator(s[0]) then rest
      else
        assert (forall i :: 0 <= i < |s| ==> !IsSeparator(s[i])) ==> [LowerChar(s[0])] + rest == Lower(s) by {
          if forall i :: 0 <= i < |s| ==> !IsSeparator(s[i]) {
            assert forall i :: 0 <= i < |s[1..]| ==> !IsSeparator(s[1..][i]);
          }
        }
        [LowerChar(s[0])] + rest
  }

  /** Normalisation works character by character: a separator vanishes, any
      other character is lowercased, and the pieces of a concatenation are
      normalised separately. */
  lemma {:induction false} NormalizeStatusConcat(a: string, b: string)
    ensures NormalizeStatus(a + b) == NormalizeStatus(a) + NormalizeStatus(b)
  {
    if a == [] {
      assert a + b == b;
    } else {
      assert (a + b)[0] == a[0];
      assert (a + b)[1..] == a[1..] + b;
      NormalizeStatusConcat(a[1..], b);
    }
  }

  lemma NormalizeStatusChar(c: char)
    ensures NormalizeStatus([c]) == if IsSeparator(c) then [] else [LowerChar(c)]
  {
    assert [c][1..] == [];
  }

  /** Normalising twice is normalising once. */
  lemma {:induction false} NormalizeStatusIdempotent(s: string)
    ensures NormalizeStatus(NormalizeStatus(s)) == NormalizeStatus(s)
  {
    if s != [] {
      NormalizeStatusIdempotent(s[1..]);
      var rest := NormalizeStatus(s[1..]);
      if !IsSeparator(s[0]) {
        var r := [LowerChar(s[0])] + rest;
        assert r[0] == LowerChar(s[0]) && r[1..] == rest;
      }
    }
  }

  const StatusLabels: map<string, string> := map[
    "scheduled" := "⏳ Scheduled",
    "inprogress" := "🔴 LIVE",
    "complete" := "✅ Completed",
    "closed" := "✅ Final",
    "postponed" := "⏰ Postponed",
    "cancelled" := "❌ Cancelled",
    "suspended" := "⏸️ Suspended",
    "delayed" := "⏳ Delayed"
  ]

  /** An ASCII approximation of `str.title()`: a letter is uppercased when it
      follows a non-letter (or starts the string) and lowercased otherwise. */
  function TitleFrom(s: string, afterLetter: bool): (r: string)
    ensures |r| == |s|
  {
    if s == [] then []
    else
      var c := if !IsLetter(s[0]) then s[0] else if afterLetter then LowerChar(s[0]) else UpperChar(s[0]);
      [c] + TitleFrom(s[1..], IsLetter(s[0]))
  }

  function Title(s: string): string {
    TitleFrom(s, false)
  }

  /** The label of a status: the mapped label when the normalised status is
      known, otherwise "❓ " followed by the title-cased original. */
  function GameStatusIcon(status: string): (r: string)
    ensures NormalizeStatus(status) in StatusLabels ==> r == StatusLabels[NormalizeStatus(status)]
    ensures NormalizeStatus(status) !in StatusLabels ==> r == "❓ " + Title(status)
  {
    var key := NormalizeStatus(status);
    if key in StatusLabels then StatusLabels[key] else "❓ " + Title(status)
  }

  lemma NormalizeIn()
    ensures NormalizeStatus("In") == "in"
  {
    assert Lower("In") == "in";
  }

  lemma NormalizeProgress()
    ensures NormalizeStatus("Progress") == "progress"
  {
    assert forall i :: 0 <= i < |"Progress"| ==> !IsSeparator("Progress"[i]);
    assert Lower("Progress") == "progress";
  }

  lemma NormalizeSeparatedProgress()
    ensures NormalizeStatus("_Progress") == "progress"
  {
    NormalizeStatusChar('_');
    NormalizeProgress();
    NormalizeStatusConcat("_", "Progress");
    assert "_" + "Progress" == "_Progress";
  }

  lemma NormalizeInProgress(s: string)
    requires s == "In" + "_Progress"
    ensures NormalizeStatus(s) == "in" + "progress"
  {
    NormalizeSeparatedProgress();
    NormalizeIn();
    NormalizeStatusConcat("In", "_Progress");
  }

  /** The provider's "In_Progress" (written here as the concatenation
      "In" + "_Progress") is shown as live. */
  lemma InProgressIsLive(status: string)
    requires status == "In" + "_Progress"
    ensures GameStatusIcon(status) == "🔴 LIVE"
  {
    NormalizeInProgress(status);
    assert "in" + "progress" == "inprogress";
  }

  /** Two statuses with the same normal form get the same label when that
      form is known. */
  lemma SameNormalFormSameLabel(a: string, b: string)
    requires NormalizeStatus(a) == NormalizeStatus(b)
    requires NormalizeStatus(a) in StatusLabels
    ensures GameStatusIcon(a) == GameStatusIcon(b) == StatusLabels[NormalizeStatus(a)]
  {
  }

  /** Looking up a status that is already normalised gives the same known
      label: case and separators do not matter. */
  lemma StatusIconOfNormalized(status: string)
    requires NormalizeStatus(status) in StatusLabels
    ensures GameStatusIcon(NormalizeStatus(status)) == GameStatusIcon(status)
  {
    NormalizeStatusIdempotent(status);
  }

  // ---------------------------------------------------------------------
  // calculate_fade_rating
  // ---------------------------------------------------------------------

  /** The fade rating from ticket and money percentages: 5 when both are
      under 10, 4 when one is under 10 and the other under 20, 3 when both
      are under 20, 0 otherwise or without data. */
  function FadeRating(bet: Option<real>, money: Option<real>): (r: int)
    ensures r == 0 || r == 3 || r == 4 || r == 5
    ensures bet.None? || money.None? ==> r == 0
    ensures bet.Some? && money.Some? ==>
              var b, m := bet.value, money.value;
              && (r == 5 <==> b < 10.0 && m < 10.0)
              && (r == 4 <==> ((b < 10.0 && m < 20.0) || (m < 10.0 && b < 20.0)) && !(b < 10.0 && m < 10.0))
              && (r == 3 <==> b < 20.0 && m < 20.0 && b >= 10.0 && m >= 10.0)
              && (r == 0 <==> b >= 20.0 || m >= 20.0)
              && (r >= 3 <==> b < 20.0 && m < 20.0)
  {
    if bet.None? || money.None? then 0
    else
      var b, m := bet.value, money.value;
      if b < 10.0 && m < 10.0 then 5
      else if (b < 10.0 && m < 20.0) || (m < 10.0 && b < 20.0) then 4
      else if b < 20.0 && m < 20.0 then 3
      else 0
  }

  /** Swapping tickets and money does not change the rating. */
  lemma FadeRatingSymmetric(bet: Option<real>, money: Option<real>)
    ensures FadeRating(bet, money) == FadeRating(money, bet)
  {
  }

  // ---------------------------------------------------------------------
  // format_fade_alert: whether an alert is produced, and about whom
  // ---------------------------------------------------------------------

  /** The facts a fade alert is built from. `plusSign` says whether the
      spread is shown with a leading '+'. */
  datatype FadeView = FadeView(
    fadeHome: bool,
    fadeTeamId: int,
    tickets: real,
    money: real,
    spread: real,
    plusSign: bool,
    spreadOdds: Option<int>,
    rating: int)

  const MinRatingThreshold: int := 2
  const CandidateCeiling: real := 20.0

  /** `team.get('id') or game.get('<side>_team_id')`. */
  function TeamIdOf(team: Team, own: Option<int>): Option<int> {
    if IntTruthy(team.id) then team.id else own
  }

  /** Both percentages present and under 20. */
  predicate LowInterest(tickets: Option<real>, money: Option<real>) {
    tickets.Some? && money.Some? && tickets.value < CandidateCeiling && money.value < CandidateCeiling
  }

  /** The decision part of `format_fade_alert`: None when a team object or a
      team id is missing, when any of the four percentages is missing, when
      neither side has both percentages under 20, or when the faded team has
      no spread value; otherwise the home team is faded if it qualifies and
      the away team if only it qualifies. The rendered text (which also
      depends on completion and the cover result) is not modelled. */
  function FormatFadeAlert(g: Game): (r: Option<FadeView>)
    ensures g.homeTeam.None? || g.awayTeam.None? ==> r.None?
    ensures (g.homeTeam.Some? && g.awayTeam.Some? &&
             (!IntTruthy(TeamIdOf(g.homeTeam.value, g.homeTeamId)) ||
              !IntTruthy(TeamIdOf(g.awayTeam.value, g.awayTeamId)))) ==> r.None?
    ensures r.Some? ==>
              var homeId := TeamIdOf(g.homeTeam.value, g.homeTeamId).value;
              var awayId := TeamIdOf(g.awayTeam.value, g.awayTeamId).value;
              var (ht, hm) := GetBetPercentages(g, homeId);
              var (at, am) := GetBetPercentages(g, awayId);
              && ht.Some? && hm.Some? && at.Some? && am.Some?
              && (r.value.fadeHome <==> LowInterest(ht, hm))
              && (!r.value.fadeHome ==> LowInterest(at, am))
              && r.value.fadeTeamId == (if r.value.fadeHome then homeId else awayId)
              && (r.value.tickets, r.value.money) ==
                   (if r.value.fadeHome then (ht.value, hm.value) else (at.value, am.value))
              && Some(r.value.spread) == GetSpreadInfo(g, r.value.fadeTeamId).0
              && r.value.spreadOdds == GetSpreadInfo(g, r.value.fadeTeamId).1
    ensures r.Some? ==> (r.value.plusSign <==> r.value.spread > 0.0)
    ensures r.Some? ==>
              r.value.rating == FadeRating(Some(r.value.tickets), Some(r.value.money)) &&
              r.value.rating >= 3
    ensures (g.homeTeam.Some? && g.awayTeam.Some? &&
             IntTruthy(TeamIdOf(g.homeTeam.value, g.homeTeamId)) &&
             IntTruthy(TeamIdOf(g.awayTeam.value, g.awayTeamId))) ==>
              var homeId := TeamIdOf(g.homeTeam.value, g.homeTeamId).value;
              var awayId := TeamIdOf(g.awayTeam.value, g.awayTeamId).value;
              var (ht, hm) := GetBetPercentages(g, homeId);
              var (at, am) := GetBetPercentages(g, awayId);
              (r.Some? <==>
                 (&& ht.Some? && hm.Some? && at.Some? && am.Some?
                  && (LowInterest(ht, hm) || LowInterest(at, am))
                  && GetSpreadInfo(g, if LowInterest(ht, hm) then homeId else awayId).0.Some?))
  {
    if g.homeTeam.None? || g.awayTeam.None? then None
    else
      var homeOpt := TeamIdOf(g.homeTeam.value, g.homeTeamId);
      var awayOpt := TeamIdOf(g.awayTeam.value, g.awayTeamId);
      if !IntTruthy(homeOpt) || !IntTruthy(awayOpt) then None
      else
        var homeId, awayId := homeOpt.value, awayOpt.value;
        var (ht, hm) := GetBetPercentages(g, homeId);
        var (at, am) := GetBetPercentages(g, awayId);
        if ht.None? || hm.None? || at.None? || am.None? then None
        else
          var candidate :=
            if ht.value < CandidateCeiling && hm.value < CandidateCeiling then Some((true, homeId, ht.value, hm.value))
            else if at.value < CandidateCeiling && am.value < CandidateCeiling then Some((false, awayId, at.value, am.value))
            else None;
          if candidate.None? then None
          else
            var (fadeHome, teamId, tickets, money) := candidate.value;
            var (spreadValue, spreadOdds) := GetSpreadInfo(g, teamId);
            if spreadValue.None? then None
            else
              var rating := FadeRating(Some(tickets), Some(money));
              if rating < MinRatingThreshold then None
              else Some(FadeView(fadeHome, teamId, tickets, money, spreadValue.value,
                                 spreadValue.value > 0.0, spreadOdds, rating))
  }
}
