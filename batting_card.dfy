/** The live batting card (frontend/src/components/BattingCard.jsx): each
    batter's figures and dismissal, and which players the striker and
    non-striker menus offer. */
module BattingCard {
  import opened Models
  import opened Stats
  import History

  /** `getDismissalInfo`: nothing for a player not out, otherwise the same
      wicket text as the history page. */
  function GetDismissalInfo(log: seq<Delivery>, bowlingPlayers: seq<Player>, p: Id): Option<string> {
    match History.FirstOutBall(log, p)
    case None => None
    case Some(d) => Some(History.HowOut(d, bowlingPlayers))
  }

  /** `getStats`: all zeros when the innings carries no delivery list. */
  function GetStats(deliveries: Option<seq<Delivery>>, p: Id): BatLine {
    match deliveries
    case None => NoBatting()
    case Some(log) => Batting(log, p)
  }

  /** `outPlayerIds`: the player out of every wicket ball naming one, in
      delivery order. */
  function OutPlayerIds(log: seq<Delivery>): seq<Id> {
    if log == [] then []
    else OutPlayerIds(Init(log)) + (if Last(log).isWicket && Last(log).playerOut.Some? then [Last(log).playerOut.value] else [])
  }

  /** The striker menu offers every player not yet out. */
  predicate StrikerSelectable(log: seq<Delivery>, p: Id) {
    p !in OutPlayerIds(log)
  }

  /** The non-striker menu also withholds the current striker. */
  predicate NonStrikerSelectable(log: seq<Delivery>, striker: Option<Player>, p: Id) {
    !(striker.Some? && striker.value.id == p) && p !in OutPlayerIds(log)
  }

  /** The "Batting" label: at the crease and not dismissed. */
  predicate ShowsBatting(log: seq<Delivery>, bowlingPlayers: seq<Player>, striker: Option<Player>, nonStriker: Option<Player>, p: Id) {
    GetDismissalInfo(log, bowlingPlayers, p).None?
      && ((striker.Some? && striker.value.id == p) || (nonStriker.Some? && nonStriker.value.id == p))
  }

  /** The list keeps delivery order: the players out of a log followed by
      more balls are those of the log, then those of the new balls. */
  lemma {:induction false} OutPlayerIdsAppend(s: seq<Delivery>, t: seq<Delivery>)
    ensures OutPlayerIds(s + t) == OutPlayerIds(s) + OutPlayerIds(t)
  {
    if t == [] {
      assert s + t == s;
    } else {
      OutPlayerIdsAppend(s, Init(t));
      assert s + t == (s + Init(t)) + [Last(t)];
      InitOfAppend(s + Init(t), Last(t));
    }
  }

  /** The list of players out has one entry per fall of wicket and no more
      entries than wickets, and names exactly the players some ball put out. */
  lemma {:induction false} OutPlayerIdsMatchFalls(log: seq<Delivery>, battingPlayers: seq<Player>)
    ensures |OutPlayerIds(log)| == |History.Falls(log, battingPlayers)| <= WicketCount(log)
    ensures forall p :: p in OutPlayerIds(log) <==> exists i :: 0 <= i < |log| && History.OutBall(log[i], p)
  {
    History.FallsProperties(log, battingPlayers);
    if log != [] {
      var s, d := Init(log), Last(log);
      OutPlayerIdsMatchFalls(s, battingPlayers);
      assert log == s + [d];
      forall p
        ensures p in OutPlayerIds(log) <==> exists i :: 0 <= i < |log| && History.OutBall(log[i], p)
      {
        if exists i :: 0 <= i < |s| && History.OutBall(s[i], p) {
          var i :| 0 <= i < |s| && History.OutBall(s[i], p);
          assert log[i] == s[i];
        }
        if exists i :: 0 <= i < |log| && History.OutBall(log[i], p) {
          var i :| 0 <= i < |log| && History.OutBall(log[i], p);
          if i < |s| {
            assert s[i] == log[i];
          }
        }
      }
    }
  }

  /** A player is listed as out exactly when the card shows a dismissal,
      and then the dismissal reads as on the history page; a player not out
      reads "not out" there. */
  lemma DismissalAgrees(log: seq<Delivery>, bowlingPlayers: seq<Player>, battingPlayers: seq<Player>, p: Id)
    ensures p in OutPlayerIds(log) <==> GetDismissalInfo(log, bowlingPlayers, p).Some?
    ensures GetDismissalInfo(log, bowlingPlayers, p).Some? ==>
      GetDismissalInfo(log, bowlingPlayers, p).value == History.DismissalText(log, bowlingPlayers, p)
    ensures GetDismissalInfo(log, bowlingPlayers, p).None? <==> History.DismissalText(log, bowlingPlayers, p) == "not out"
  {
    OutPlayerIdsMatchFalls(log, battingPlayers);
    History.FirstOutBallIsFirst(log, p);
    History.DismissalTextCredits(log, bowlingPlayers, p);
  }

  /** With a delivery list the card's figures are the history page's; the
      strike rate reads "0.0" exactly when no ball was faced; and the
      figures never exceed the innings'. */
  lemma GetStatsAgrees(log: seq<Delivery>, p: Id)
    ensures var s := GetStats(Some(log), p);
      && s.runs == History.CalcBatting(log, p).runs && s.balls == History.CalcBatting(log, p).ballCount
      && s.fours == History.CalcBatting(log, p).fours && s.sixes == History.CalcBatting(log, p).sixes
      && (StrikeRateCell(s) == Fixed("0.0") <==> s.balls == 0)
      && s.runs <= TotalRuns(log) && s.balls <= |log|
    ensures GetStats(None, p) == BatLine(0, 0, 0, 0) && StrikeRateCell(GetStats(None, p)) == Fixed("0.0")
  {
    BattingBounds(log, p);
  }

  /** Two picks from the menus give a crease of two different players,
      neither of them out; only a player not out is labelled "Batting". */
  lemma SelectionKeepsCreaseApart(log: seq<Delivery>, bowlingPlayers: seq<Player>, battingPlayers: seq<Player>,
                                   striker: Player, nonStriker: Player, p: Id)
    requires StrikerSelectable(log, striker.id)
    requires NonStrikerSelectable(log, Some(striker), nonStriker.id)
    ensures striker.id != nonStriker.id
    ensures GetDismissalInfo(log, bowlingPlayers, striker.id).None? && GetDismissalInfo(log, bowlingPlayers, nonStriker.id).None?
    ensures ShowsBatting(log, bowlingPlayers, Some(striker), Some(nonStriker), p) <==>
      (p == striker.id || p == nonStriker.id) && p !in OutPlayerIds(log)
  {
    DismissalAgrees(log, bowlingPlayers, battingPlayers, striker.id);
    DismissalAgrees(log, bowlingPlayers, battingPlayers, nonStriker.id);
    DismissalAgrees(log, bowlingPlayers, battingPlayers, p);
  }
}
