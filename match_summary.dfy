/** The end-of-match summary (frontend/src/components/MatchSummary.jsx):
    figures pooled over every innings, the award holders' lines and the
    result margin. */
module MatchSummary {
  import opened Models
  import opened Stats
  import Views
  import Awards
  import History

  /** Every innings' deliveries, in innings order. */
  function AllDeliveries(innings: seq<Views.Innings>): seq<Delivery> {
    if innings == [] then [] else AllDeliveries(Init(innings)) + Last(innings).log
  }

  /** For a two-innings match the pool is the log the server computes the
      awards from, and a player's pooled batting and bowling are the sums of
      the two innings' figures. */
  lemma PooledOverTwoInnings(first: Views.Innings, second: Views.Innings, p: Id)
    ensures AllDeliveries([first, second]) == first.log + second.log
    ensures Batting(AllDeliveries([first, second]), p) == AddBat(Batting(first.log, p), Batting(second.log, p))
    ensures Bowling(AllDeliveries([first, second]), p) == AddBowl(Bowling(first.log, p), Bowling(second.log, p))
  {
    assert Init([first, second]) == [first];
    assert Init([first]) == [];
    assert AllDeliveries([first]) == [] + first.log;
    assert [] + first.log == first.log;
    BattingAppend(first.log, second.log, p);
    BowlingAppend(first.log, second.log, p);
  }

  /** A bowler's line on the summary. */
  datatype SummaryBowling = SummaryBowling(wickets: nat, conceded: nat, overs: string, econ: RateCell)

  /** `bowlerStats`: one pass over the pooled deliveries with three
      counters, counting only the player's own balls. */
  method BowlerStats(all: seq<Delivery>, p: Id) returns (row: SummaryBowling)
    ensures row.wickets == Bowling(all, p).wickets && row.conceded == Bowling(all, p).conceded
    ensures row.overs == OversText(Bowling(all, p).legal)
    ensures row.econ == EconomyCell(Bowling(all, p))
  {
    var wickets: nat, conceded: nat, legal: nat := 0, 0, 0;
    var i := 0;
    while i < |all|
      invariant 0 <= i <= |all|
      invariant Bowling(all[..i], p) == BowlLine(legal, conceded, wickets)
    {
      var d := all[i];
      ghost var before := BowlLine(legal, conceded, wickets);
      if d.bowler == p {
        if d.isWicket && d.wicketType != RunOut {
          wickets := wickets + 1;
        }
        var cost := d.runsBatter;
        if d.extraType == WD || d.extraType == NB {
          cost := cost + d.extras;
        }
        conceded := conceded + cost;
        if d.extraType != WD && d.extraType != NB {
          legal := legal + 1;
        }
      }
      assert BowlLine(legal, conceded, wickets) == AddBowl(before, BowlBall(d, p));
      History.BowlingSnoc(all[..i], d, p);
      assert all[..i + 1] == all[..i] + [d];
      i := i + 1;
    }
    assert all[..i] == all;
    assert BowlLine(legal, conceded, wickets) == Bowling(all, p);
    row := SummaryBowling(wickets, conceded, OversText(legal), EconomyCell(BowlLine(legal, conceded, wickets)));
  }

  /** An award id the summary shows a line for (0 reads as no id). */
  predicate Present(id: Option<Id>) {
    id.Some? && id.value != 0
  }

  datatype Summary = Summary(
    margin: Option<string>,
    bestBatsman: Option<History.BattingRow>,
    bestBowler: Option<SummaryBowling>,
    momBatting: Option<History.BattingRow>,
    momBowling: Option<SummaryBowling>)

  /** The summary: nothing before the match is completed; otherwise the
      margin and a line for each award that has a holder. */
  method ShowSummary(status: Status, innings: seq<Views.Innings>, winnerId: Option<Id>, teamA: Team, teamB: Team,
                     manOfMatch: Option<Id>, bestBatsman: Option<Id>, bestBowler: Option<Id>)
    returns (view: Option<Summary>)
    ensures view.None? <==> status != Completed
    ensures view.Some? ==> view.value.margin == History.ResultText(innings, winnerId, teamA, teamB)
    ensures view.Some? ==>
      && (view.value.bestBatsman.Some? <==> Present(bestBatsman))
      && (view.value.bestBowler.Some? <==> Present(bestBowler))
      && (view.value.momBatting.Some? <==> Present(manOfMatch))
      && (view.value.momBowling.Some? <==> Present(manOfMatch))
    ensures view.Some? && Present(bestBatsman) ==>
      view.value.bestBatsman.value == History.CalcBatting(AllDeliveries(innings), bestBatsman.value)
    ensures view.Some? && Present(manOfMatch) ==>
      view.value.momBatting.value == History.CalcBatting(AllDeliveries(innings), manOfMatch.value)
    ensures view.Some? && Present(bestBowler) ==>
      var line := Bowling(AllDeliveries(innings), bestBowler.value);
      view.value.bestBowler.value == SummaryBowling(line.wickets, line.conceded, OversText(line.legal), EconomyCell(line))
    ensures view.Some? && Present(manOfMatch) ==>
      var line := Bowling(AllDeliveries(innings), manOfMatch.value);
      view.value.momBowling.value == SummaryBowling(line.wickets, line.conceded, OversText(line.legal), EconomyCell(line))
  {
    if status != Completed {
      return None;
    }
    var all := AllDeliveries(innings);
    var bb: Option<History.BattingRow> := None;
    var bw: Option<SummaryBowling> := None;
    var momBat: Option<History.BattingRow> := None;
    var momBowl: Option<SummaryBowling> := None;
    if Present(bestBatsman) {
      bb := Some(History.CalcBatting(all, bestBatsman.value));
    }
    if Present(bestBowler) {
      var row := BowlerStats(all, bestBowler.value);
      bw := Some(row);
    }
    if Present(manOfMatch) {
      momBat := Some(History.CalcBatting(all, manOfMatch.value));
      var row := BowlerStats(all, manOfMatch.value);
      momBowl := Some(row);
    }
    view := Some(Summary(History.ResultText(innings, winnerId, teamA, teamB), bb, bw, momBat, momBowl));
  }

  /** With the holders the server picks from the two innings, the best
      batsman's line shows the most runs of anyone who batted, the best
      bowler's the most wickets of anyone who bowled, and the man of the
      match's lines the most points. */
  lemma AwardLinesShowBest(first: Views.Innings, second: Views.Innings)
    ensures var all := AllDeliveries([first, second]);
      Awards.BestBatsman(all).Some? ==>
        forall q :: q in BatsmanIds(all) ==>
          History.CalcBatting(all, q).runs <= History.CalcBatting(all, Awards.BestBatsman(all).value).runs
    ensures var all := AllDeliveries([first, second]);
      Awards.BestBowler(all).Some? ==>
        forall q :: q in BowlerIds(all) ==> Bowling(all, q).wickets <= Bowling(all, Awards.BestBowler(all).value).wickets
    ensures var all := AllDeliveries([first, second]);
      Awards.ManOfMatch(all).Some? ==>
        var m := Awards.ManOfMatch(all).value;
        forall q :: q in BatsmanIds(all) || q in BowlerIds(all) ==>
          History.CalcBatting(all, q).runs + 20 * Bowling(all, q).wickets
            <= History.CalcBatting(all, m).runs + 20 * Bowling(all, m).wickets
  {
    var all := AllDeliveries([first, second]);
    Awards.BestBatsmanIsBest(all);
    Awards.BestBowlerIsBest(all);
    Awards.ManOfMatchIsBest(all);
  }
}
