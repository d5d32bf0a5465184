/** Figures derived from a delivery log: the innings totals the backend caches,
    and the batting and bowling figures every scorecard recomputes. All
    functions recurse on the LAST delivery, so that appending a ball (what the
    scorer does) unfolds them by one step. */
module Stats {
  import opened Models
  import Text

  function Last<T>(s: seq<T>): T
    requires s != []
  {
    s[|s| - 1]
  }

  function Init<T>(s: seq<T>): seq<T>
    requires s != []
  {
    s[..|s| - 1]
  }

  lemma InitOfAppend<T>(s: seq<T>, x: T)
    ensures Init(s + [x]) == s && Last(s + [x]) == x
  {
    assert (s + [x])[..|s|] == s;
  }

  /** `[...s].reverse()`. */
  function Reversed<T>(s: seq<T>): seq<T> {
    if s == [] then [] else [Last(s)] + Reversed(Init(s))
  }

  lemma {:induction false} ReversedAt<T>(s: seq<T>)
    ensures |Reversed(s)| == |s|
    ensures forall k :: 0 <= k < |s| ==> Reversed(s)[k] == s[|s| - 1 - k]
  {
    if s != [] {
      ReversedAt(Init(s));
    }
  }

  // ---------------------------------------------------------------- innings totals

  /** total_runs: every run of every ball, off the bat or extra. */
  function TotalRuns(log: seq<Delivery>): nat
  {
    if log == [] then 0 else TotalRuns(Init(log)) + BallRuns(Last(log))
  }

  /** total_wickets: every wicket ball, whatever its kind (run-outs included). */
  function WicketCount(log: seq<Delivery>): (n: nat)
    ensures n <= |log|
  {
    if log == [] then 0 else WicketCount(Init(log)) + (if Last(log).isWicket then 1 else 0)
  }

  /** Legal balls: neither wide nor no-ball. */
  function LegalCount(log: seq<Delivery>): (n: nat)
    ensures n <= |log|
  {
    if log == [] then 0 else LegalCount(Init(log)) + (if IsLegal(Last(log)) then 1 else 0)
  }

  lemma AppendOne(log: seq<Delivery>, d: Delivery)
    ensures TotalRuns(log + [d]) == TotalRuns(log) + BallRuns(d)
    ensures WicketCount(log + [d]) == WicketCount(log) + (if d.isWicket then 1 else 0)
    ensures LegalCount(log + [d]) == LegalCount(log) + (if IsLegal(d) then 1 else 0)
  {
    InitOfAppend(log, d);
  }

  lemma {:induction false} TotalsAppend(s: seq<Delivery>, t: seq<Delivery>)
    ensures TotalRuns(s + t) == TotalRuns(s) + TotalRuns(t)
    ensures WicketCount(s + t) == WicketCount(s) + WicketCount(t)
    ensures LegalCount(s + t) == LegalCount(s) + LegalCount(t)
    decreases |t|
  {
    if t == [] {
      assert s + t == s;
    } else {
      assert s + t == (s + Init(t)) + [Last(t)];
      TotalsAppend(s, Init(t));
      AppendOne(s + Init(t), Last(t));
      AppendOne(Init(t), Last(t));
      assert Init(t) + [Last(t)] == t;
    }
  }

  /** The last legal delivery of the log, if any: a legal ball with no
      legal ball after it. */
  function LastLegal(log: seq<Delivery>): (r: Option<Delivery>)
    ensures r == None <==> LegalCount(log) == 0
    ensures r.Some? ==> r.value in log && IsLegal(r.value)
    ensures r.Some? ==>
      exists k :: 0 <= k < |log| && log[k] == r.value && forall j :: k < j < |log| ==> !IsLegal(log[j])
  {
    if log == [] then None
    else if IsLegal(Last(log)) then Some(Last(log))
    else LastLegal(Init(log))
  }

  // ---------------------------------------------------------------- overs

  /** Overs as the scorer shows them: whole overs and the balls of the current one. */
  datatype Overs = Overs(whole: nat, balls: nat)

  function OversOf(legal: nat): (o: Overs)
    ensures o.balls < 6 && 6 * o.whole + o.balls == legal
  {
    Overs(legal / 6, legal % 6)
  }

  /** `${Math.floor(legal / 6)}.${legal % 6}`, the overs column of the bowling figures. */
  function OversText(legal: nat): string
  {
    Text.NatToString(legal / 6) + "." + Text.NatToString(legal % 6)
  }

  lemma OversTextZero(legal: nat)
    ensures OversText(legal) == "0.0" <==> legal == 0
  {
    var w, b := Text.NatToString(legal / 6), Text.NatToString(legal % 6);
    assert |b| == 1;
    if OversText(legal) == "0.0" {
      assert |w| == 1;
      assert w == "0" by { assert w == OversText(legal)[..1]; }
      assert b == "0" by { assert b == OversText(legal)[2..]; }
      Text.NatToStringInjective(legal / 6, 0);
      Text.NatToStringInjective(legal % 6, 0);
    }
  }

  // ---------------------------------------------------------------- batting figures

  datatype BatLine = BatLine(runs: nat, balls: nat, fours: nat, sixes: nat)

  function NoBatting(): BatLine { BatLine(0, 0, 0, 0) }

  function AddBat(a: BatLine, b: BatLine): BatLine {
    BatLine(a.runs + b.runs, a.balls + b.balls, a.fours + b.fours, a.sixes + b.sixes)
  }

  /** What one ball adds to `player`'s batting: runs off the bat, a ball faced
      unless it is a wide (no-balls are faced), a four, a six. */
  function BatBall(d: Delivery, player: Id): BatLine {
    if d.batsman != player then NoBatting()
    else BatLine(d.runsBatter,
                 if d.extraType != WD then 1 else 0,
                 if d.runsBatter == 4 then 1 else 0,
                 if d.runsBatter == 6 then 1 else 0)
  }

  function Batting(log: seq<Delivery>, player: Id): BatLine
  {
    if log == [] then NoBatting() else AddBat(Batting(Init(log), player), BatBall(Last(log), player))
  }

  /** A batter's figures are bounded by the innings: runs by the team total,
      balls faced and boundaries by the balls bowled, and boundaries by runs. */
  lemma {:induction false} BattingBounds(log: seq<Delivery>, player: Id)
    ensures Batting(log, player).runs <= TotalRuns(log)
    ensures Batting(log, player).balls <= |log|
    ensures Batting(log, player).fours + Batting(log, player).sixes <= |log|
    ensures 4 * Batting(log, player).fours + 6 * Batting(log, player).sixes <= Batting(log, player).runs
  {
    if log != [] {
      BattingBounds(Init(log), player);
    }
  }

  // ---------------------------------------------------------------- bowling figures

  datatype BowlLine = BowlLine(legal: nat, conceded: nat, wickets: nat)

  function NoBowling(): BowlLine { BowlLine(0, 0, 0) }

  function AddBowl(a: BowlLine, b: BowlLine): BowlLine {
    BowlLine(a.legal + b.legal, a.conceded + b.conceded, a.wickets + b.wickets)
  }

  /** Wickets credited to the bowler: every kind except run-outs. */
  predicate Credited(d: Delivery) {
    d.isWicket && d.wicketType != RunOut
  }

  /** Runs charged to the bowler: off the bat, plus the extras of wides and no-balls. */
  function Cost(d: Delivery): nat {
    d.runsBatter + (if d.extraType == WD || d.extraType == NB then d.extras else 0)
  }

  function BowlBall(d: Delivery, player: Id): BowlLine {
    if d.bowler != player then NoBowling()
    else BowlLine(if IsLegal(d) then 1 else 0, Cost(d), if Credited(d) then 1 else 0)
  }

  function Bowling(log: seq<Delivery>, player: Id): BowlLine
  {
    if log == [] then NoBowling() else AddBowl(Bowling(Init(log), player), BowlBall(Last(log), player))
  }

  /** A bowler's figures never exceed the innings': legal balls, runs, wickets. */
  lemma {:induction false} BowlingBounds(log: seq<Delivery>, player: Id)
    ensures Bowling(log, player).legal <= LegalCount(log)
    ensures Bowling(log, player).conceded <= TotalRuns(log)
    ensures Bowling(log, player).wickets <= CreditedCount(log)
  {
    if log != [] {
      BowlingBounds(Init(log), player);
    }
  }

  /** Figures over two logs in a row are the sums of the figures over each. */
  lemma {:induction false} BattingAppend(s: seq<Delivery>, t: seq<Delivery>, player: Id)
    ensures Batting(s + t, player) == AddBat(Batting(s, player), Batting(t, player))
    decreases |t|
  {
    if t == [] {
      assert s + t == s;
    } else {
      var u, d := Init(t), Last(t);
      assert s + t == (s + u) + [d];
      InitOfAppend(s + u, d);
      BattingAppend(s, u, player);
    }
  }

  lemma {:induction false} BowlingAppend(s: seq<Delivery>, t: seq<Delivery>, player: Id)
    ensures Bowling(s + t, player) == AddBowl(Bowling(s, player), Bowling(t, player))
    decreases |t|
  {
    if t == [] {
      assert s + t == s;
    } else {
      var u, d := Init(t), Last(t);
      assert s + t == (s + u) + [d];
      InitOfAppend(s + u, d);
      BowlingAppend(s, u, player);
    }
  }

  // ---------------------------------------------------------------- who batted, who bowled

  function BatsmanIds(log: seq<Delivery>): (ids: seq<Id>)
    ensures |ids| == |log|
  {
    if log == [] then [] else BatsmanIds(Init(log)) + [Last(log).batsman]
  }

  function BowlerIds(log: seq<Delivery>): (ids: seq<Id>)
    ensures |ids| == |log|
  {
    if log == [] then [] else BowlerIds(Init(log)) + [Last(log).bowler]
  }

  lemma {:induction false} NeverBatted(log: seq<Delivery>, player: Id)
    requires player !in BatsmanIds(log)
    ensures Batting(log, player) == NoBatting()
  {
    if log != [] {
      assert BatsmanIds(log) == BatsmanIds(Init(log)) + [Last(log).batsman];
      NeverBatted(Init(log), player);
      AddNoBatting(log, player);
    }
  }

  lemma AddNoBatting(log: seq<Delivery>, player: Id)
    requires log != [] && Last(log).batsman != player
    requires Batting(Init(log), player) == NoBatting()
    ensures Batting(log, player) == NoBatting()
  {
  }

  lemma {:induction false} NeverBowled(log: seq<Delivery>, player: Id)
    requires player !in BowlerIds(log)
    ensures Bowling(log, player) == NoBowling()
  {
    if log != [] {
      assert BowlerIds(log) == BowlerIds(Init(log)) + [Last(log).bowler];
      NeverBowled(Init(log), player);
      AddNoBowling(log, player);
    }
  }

  lemma AddNoBowling(log: seq<Delivery>, player: Id)
    requires log != [] && Last(log).bowler != player
    requires Bowling(Init(log), player) == NoBowling()
    ensures Bowling(log, player) == NoBowling()
  {
  }

  predicate Distinct(ids: seq<Id>) {
    forall i, j :: 0 <= i < j < |ids| ==> ids[i] != ids[j]
  }

  /** The ids in order of first appearance, each once (the key order of a
      Python dict filled in that order). */
  function FirstSeen(ids: seq<Id>): seq<Id>
  {
    if ids == [] then []
    else
      var r0 := FirstSeen(Init(ids));
      if Last(ids) in r0 then r0 else r0 + [Last(ids)]
  }

  /** One more id is appended to FirstSeen exactly when it is new. */
  lemma FirstSeenStep(ids: seq<Id>, x: Id)
    ensures FirstSeen(ids + [x]) == if x in FirstSeen(ids) then FirstSeen(ids) else FirstSeen(ids) + [x]
  {
    InitOfAppend(ids, x);
  }

  /** FirstSeen keeps every id and repeats none. */
  lemma {:induction false} FirstSeenSpec(ids: seq<Id>)
    ensures Distinct(FirstSeen(ids))
    ensures forall x :: x in FirstSeen(ids) <==> x in ids
  {
    if ids != [] {
      var r0 := FirstSeen(Init(ids));
      FirstSeenSpec(Init(ids));
      assert forall x :: x in ids <==> x in Init(ids) || x == Last(ids) by {
        assert ids == Init(ids) + [Last(ids)];
      }
    }
  }

  // ---------------------------------------------------------------- summing over players

  function SumBowlerWickets(log: seq<Delivery>, players: seq<Id>): nat
  {
    if players == [] then 0 else SumBowlerWickets(log, Init(players)) + Bowling(log, Last(players)).wickets
  }

  function CreditedCount(log: seq<Delivery>): (n: nat)
    ensures n <= WicketCount(log)
  {
    if log == [] then 0 else CreditedCount(Init(log)) + (if Credited(Last(log)) then 1 else 0)
  }

  /** What one ball adds to the wickets summed over a list of distinct bowlers. */
  lemma {:induction false} SumBowlerWicketsStep(log: seq<Delivery>, d: Delivery, players: seq<Id>)
    requires Distinct(players)
    ensures SumBowlerWickets(log + [d], players)
         == SumBowlerWickets(log, players) + (if Credited(d) && d.bowler in players then 1 else 0)
  {
    InitOfAppend(log, d);
    if players != [] {
      var p := Last(players);
      assert Distinct(Init(players));
      SumBowlerWicketsStep(log, d, Init(players));
      assert d.bowler in players <==> d.bowler in Init(players) || d.bowler == p by {
        assert players == Init(players) + [p];
      }
      assert d.bowler == p ==> d.bowler !in Init(players);
    }
  }

  /** Summed over any list of distinct bowlers, credited wickets never exceed
      the credited wickets of the innings; over a list naming every bowler
      they add up to it exactly. */
  lemma {:induction false} BowlerWicketsSum(log: seq<Delivery>, players: seq<Id>)
    requires Distinct(players)
    ensures SumBowlerWickets(log, players) <= CreditedCount(log) <= WicketCount(log)
    ensures (forall i :: 0 <= i < |log| ==> log[i].bowler in players)
            ==> SumBowlerWickets(log, players) == CreditedCount(log)
  {
    if log == [] {
      ZeroSum(players);
    } else {
      var s, d := Init(log), Last(log);
      assert log == s + [d];
      BowlerWicketsSum(s, players);
      SumBowlerWicketsStep(s, d, players);
    }
  }

  lemma {:induction false} ZeroSum(players: seq<Id>)
    ensures SumBowlerWickets([], players) == 0
  {
    if players != [] {
      ZeroSum(Init(players));
    }
  }

  // ---------------------------------------------------------------- the batting card adds up

  /** Runs off the bat over the whole log. */
  function BatRuns(log: seq<Delivery>): nat {
    if log == [] then 0 else BatRuns(Init(log)) + Last(log).runsBatter
  }

  /** Extras over the whole log. */
  function ExtraRuns(log: seq<Delivery>): nat {
    if log == [] then 0 else ExtraRuns(Init(log)) + Last(log).extras
  }

  function SumBatterRuns(log: seq<Delivery>, players: seq<Id>): nat {
    if players == [] then 0 else SumBatterRuns(log, Init(players)) + Batting(log, Last(players)).runs
  }

  lemma {:induction false} SumBatterRunsStep(log: seq<Delivery>, d: Delivery, players: seq<Id>)
    requires Distinct(players)
    ensures SumBatterRuns(log + [d], players)
         == SumBatterRuns(log, players) + (if d.batsman in players then d.runsBatter else 0)
  {
    InitOfAppend(log, d);
    if players != [] {
      var p := Last(players);
      assert Distinct(Init(players));
      SumBatterRunsStep(log, d, Init(players));
      assert d.batsman in players <==> d.batsman in Init(players) || d.batsman == p by {
        assert players == Init(players) + [p];
      }
      assert d.batsman == p ==> d.batsman !in Init(players);
    }
  }

  lemma {:induction false} ZeroRuns(players: seq<Id>)
    ensures SumBatterRuns([], players) == 0
  {
    if players != [] {
      ZeroRuns(Init(players));
    }
  }

  /** The team total is the runs off the bat plus the extras; summed over any
      list of distinct batters the batting column never exceeds the runs off
      the bat, and over a list naming every striker it adds up to them. */
  lemma {:induction false} BatterRunsSum(log: seq<Delivery>, players: seq<Id>)
    requires Distinct(players)
    ensures TotalRuns(log) == BatRuns(log) + ExtraRuns(log)
    ensures SumBatterRuns(log, players) <= BatRuns(log)
    ensures (forall i :: 0 <= i < |log| ==> log[i].batsman in players)
            ==> SumBatterRuns(log, players) == BatRuns(log)
  {
    if log == [] {
      ZeroRuns(players);
    } else {
      var s, d := Init(log), Last(log);
      assert log == s + [d];
      BatterRunsSum(s, players);
      SumBatterRunsStep(s, d, players);
    }
  }

  // ---------------------------------------------------------------- rate columns

  /** A strike-rate or economy cell: the fixed text shown when nothing has
      been faced or bowled, else the quotient `numerator / denominator`
      (its decimal rendering is not modelled). */
  datatype RateCell = Fixed(text: string) | Quotient(numerator: nat, denominator: nat)

  /** Strike rate: runs per 100 balls faced, "0.0" before the first ball faced. */
  function StrikeRateCell(line: BatLine): (c: RateCell)
    ensures c == Fixed("0.0") <==> line.balls == 0
    ensures c.Quotient? ==> c.denominator > 0 && c.denominator == line.balls
  {
    if line.balls > 0 then Quotient(100 * line.runs, line.balls) else Fixed("0.0")
  }

  /** Economy: runs per six legal balls, "0.00" before the first legal ball. */
  function EconomyCell(line: BowlLine): (c: RateCell)
    ensures c == Fixed("0.00") <==> line.legal == 0
    ensures c.Quotient? ==> c.denominator > 0 && c.denominator == line.legal
  {
    if line.legal > 0 then Quotient(6 * line.conceded, line.legal) else Fixed("0.00")
  }
}
