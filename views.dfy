/** The match state machine of MatchViewSet (backend/api/views.py): creating a
    match, the toss, recording a ball and undoing the last one. The database
    rows of one match become a `Match` object whose innings hold their
    delivery logs and cached totals. */
module Views {
  import opened Models
  import opened Stats
  import Awards

  // ---------------------------------------------------------------- records

  /** An Innings row with its deliveries. `overs` is the cached
      `overs_bowled`, kept as whole overs and balls (see OversReached). */
  datatype Innings = Innings(
    number: int,
    battingTeam: Id,
    bowlingTeam: Id,
    log: seq<Delivery>,
    totalRuns: int,
    totalWickets: int,
    overs: Overs,
    isCompleted: bool,
    isDeclared: bool)

  /** The cached totals agree with the deliveries. */
  predicate Cached(inn: Innings) {
    && inn.totalRuns == TotalRuns(inn.log)
    && inn.totalWickets == WicketCount(inn.log)
    && inn.overs == OversOf(LegalCount(inn.log))
  }

  /** The `number`-th innings of its match, with consistent totals; nothing in
      views.py sets `is_declared`. */
  predicate Consistent(inn: Innings, number: int) {
    inn.number == number && Cached(inn) && !inn.isDeclared
  }

  /** A fresh Innings row: every total at its default (models.py:60-66). */
  function NewInnings(number: int, batting: Id, bowling: Id): (inn: Innings)
    ensures Cached(inn) && inn.log == []
    ensures inn.totalRuns == 0 && inn.totalWickets == 0 && inn.overs == Overs(0, 0)
    ensures !inn.isCompleted && !inn.isDeclared
    ensures inn.number == number && inn.battingTeam == batting && inn.bowlingTeam == bowling
  {
    Innings(number, batting, bowling, [], 0, 0, Overs(0, 0), false, false)
  }

  /** The body of a `bowl` request; `None` marks a key the client left out. */
  datatype BowlRequest = BowlRequest(
    overNumber: int,
    ballNumber: int,
    batsman: Id,
    nonStriker: Option<Id>,
    bowler: Id,
    runsBatter: Option<nat>,
    extras: Option<nat>,
    extraType: Option<ExtraType>,
    isWicket: Option<bool>,
    wicketType: Option<WicketType>,
    playerOut: Option<Id>,
    catcher: Option<Id>,
    declare: Option<bool>)

  /** The delivery `bowl` stores: every missing key takes the model default. */
  function RequestDelivery(req: BowlRequest, nonStriker: Id): (d: Delivery)
    ensures req.runsBatter == None && req.extras == None ==> BallRuns(d) == 0
    ensures req.extraType == None ==> IsLegal(d)
    ensures req.isWicket == None ==> !d.isWicket
  {
    Delivery(req.overNumber, req.ballNumber, req.batsman, nonStriker, req.bowler,
             req.runsBatter.GetOr(0), req.extras.GetOr(0), req.extraType.GetOr(NoExtra),
             req.isWicket.GetOr(false), req.wicketType.GetOr(NoWicket), req.playerOut, req.catcher)
  }

  datatype ApiError =
    | NoActiveInnings       // bowl: no innings yet, or the latest one is completed
    | ConsecutiveOvers      // bowl: the previous over's bowler opens the next over
    | NonStrikerMissing     // bowl: the non_striker column is NOT NULL, so the insert fails
    | NoInningsFound        // undo: the toss has not happened
    | NoDeliveriesToUndo    // undo: the latest innings is empty

  datatype Reply = Ok | Error(error: ApiError)

  // ---------------------------------------------------------------- the rules

  /** The toss: the winner bats if it chose to, otherwise the other side bats. */
  function FirstBatting(winner: Id, decision: TossDecision, teamA: Id, teamB: Id): (bat: Id)
    ensures decision == Bat ==> bat == winner
    ensures decision == Bowl && teamA != teamB && (winner == teamA || winner == teamB) ==>
      bat != winner && (bat == teamA || bat == teamB)
  {
    if decision == Bat then winner else if teamB == winner then teamA else teamB
  }

  /** The side that does not bat. */
  function OtherTeam(batting: Id, teamA: Id, teamB: Id): (bowl: Id)
    ensures teamA != teamB && (batting == teamA || batting == teamB) ==>
      bowl != batting && (bowl == teamA || bowl == teamB)
  {
    if batting == teamA then teamB else teamA
  }

  /** Wickets that end the innings: the whole side with last man standing,
      else one fewer than the side (never below 0). */
  function AllOutThreshold(teamSize: nat, lastManStanding: bool): (t: nat)
    ensures lastManStanding ==> t == teamSize
    ensures !lastManStanding && teamSize > 0 ==> t + 1 == teamSize
    ensures t <= teamSize
  {
    if lastManStanding then teamSize else if teamSize == 0 then 0 else teamSize - 1
  }

  /** `match.custom_overs if match.custom_overs else 20`: unset and 0 both mean 20. */
  function MaxOvers(customOvers: Option<int>): (m: int)
    ensures customOvers == None ==> m == 20
    ensures customOvers.Some? && customOvers.value != 0 ==> m == customOvers.value
    ensures m != 0
  {
    match customOvers
    case Some(c) => if c != 0 then c else 20
    case None => 20
  }

  /** `overs_bowled >= max_overs` on the float `whole.balls`. */
  predicate OversReached(o: Overs, maxOvers: int) {
    o.whole as real + o.balls as real / 10.0 >= maxOvers as real
  }

  /** The float comparison is exact: the limit is reached exactly when the
      legal balls fill `maxOvers` whole overs. */
  lemma OversReachedExactly(legal: nat, maxOvers: int)
    ensures OversReached(OversOf(legal), maxOvers) <==> legal >= 6 * maxOvers
  {
    var o := OversOf(legal);
    assert 0.0 <= o.balls as real / 10.0 < 1.0;
    if o.whole >= maxOvers {
      assert legal >= 6 * maxOvers;
    } else {
      assert o.whole as real + 1.0 <= maxOvers as real;
      assert legal < 6 * maxOvers;
    }
  }

  /** The innings is over: all out, the overs cap of a T20 match, the target
      passed in the second innings, or a declaration. */
  predicate InningsEnds(inn: Innings, teamSize: nat, lastManStanding: bool, format: Format,
                        customOvers: Option<int>, firstInningsRuns: int, declare: bool)
  {
    || inn.totalWickets >= AllOutThreshold(teamSize, lastManStanding)
    || (format == T20 && OversReached(inn.overs, MaxOvers(customOvers)))
    || (inn.number == 2 && inn.totalRuns > firstInningsRuns)
    || declare
  }

  /** With consistent totals the end of an innings is a statement about its
      deliveries alone. */
  lemma InningsEndsByLog(inn: Innings, teamSize: nat, lastManStanding: bool, format: Format,
                         customOvers: Option<int>, firstInningsRuns: int, declare: bool)
    requires Cached(inn)
    ensures InningsEnds(inn, teamSize, lastManStanding, format, customOvers, firstInningsRuns, declare) <==>
      || WicketCount(inn.log) >= AllOutThreshold(teamSize, lastManStanding)
      || (format == T20 && LegalCount(inn.log) >= 6 * MaxOvers(customOvers))
      || (inn.number == 2 && TotalRuns(inn.log) > firstInningsRuns)
      || declare
  {
    OversReachedExactly(LegalCount(inn.log), MaxOvers(customOvers));
  }

  /** The winner of a finished match: the side with strictly more runs. */
  function Winner(first: Innings, second: Innings): (w: Option<Id>)
    ensures w == None <==> first.totalRuns == second.totalRuns
    ensures w.Some? ==> w.value == first.battingTeam || w.value == second.battingTeam
    ensures first.battingTeam != second.battingTeam ==>
      && (w == Some(first.battingTeam) <==> first.totalRuns > second.totalRuns)
      && (w == Some(second.battingTeam) <==> second.totalRuns > first.totalRuns)
  {
    if first.totalRuns > second.totalRuns then Some(first.battingTeam)
    else if second.totalRuns > first.totalRuns then Some(second.battingTeam)
    else None
  }

  /** The over-change rule: at the start of an over the bowler of the last
      legal ball may not bowl again. */
  predicate ConsecutiveOver(log: seq<Delivery>, bowler: Id) {
    LegalCount(log) % 6 == 0 && LastLegal(log).Some? && LastLegal(log).value.bowler == bowler
  }

  /** Any bowler may open the innings, and within an over anyone may bowl;
      the rule only ever refuses the previous over's bowler. */
  lemma ConsecutiveOverOnlyRefusesPrevious(log: seq<Delivery>, bowler: Id)
    ensures LegalCount(log) == 0 ==> !ConsecutiveOver(log, bowler)
    ensures LegalCount(log) % 6 != 0 ==> !ConsecutiveOver(log, bowler)
    ensures ConsecutiveOver(log, bowler) ==>
      exists i :: 0 <= i < |log| && IsLegal(log[i]) && log[i].bowler == bowler
  {
    if ConsecutiveOver(log, bowler) {
      var d := LastLegal(log).value;
      var i :| 0 <= i < |log| && log[i] == d;
    }
  }

  /** Undo subtracts the last ball from consistent totals; the floor at 0 in
      views.py never applies. */
  lemma UndoSubtracts(log: seq<Delivery>)
    requires log != []
    ensures TotalRuns(Init(log)) == TotalRuns(log) - BallRuns(Last(log)) >= 0
    ensures WicketCount(Init(log)) == WicketCount(log) - (if Last(log).isWicket then 1 else 0) >= 0
  {
    AppendOne(Init(log), Last(log));
    assert Init(log) + [Last(log)] == log;
  }

  function Max0(x: int): (r: nat)
    ensures r >= x && (x >= 0 ==> r == x)
  {
    if x < 0 then 0 else x
  }

  /** The innings row after `bowl` stores `d`: the run and wicket totals grow
      by the ball, and a legal ball recounts the overs from the stored legal
      deliveries (views.py:102-122). */
  function Record(cur: Innings, d: Delivery): (inn: Innings)
    ensures inn.log == cur.log + [d]
    ensures inn.number == cur.number && inn.battingTeam == cur.battingTeam && inn.bowlingTeam == cur.bowlingTeam
    ensures inn.isCompleted == cur.isCompleted && inn.isDeclared == cur.isDeclared
  {
    var log := cur.log + [d];
    var overs := if IsLegal(d) then OversOf(LegalCount(log)) else cur.overs;
    cur.(log := log,
         totalRuns := cur.totalRuns + d.runsBatter + d.extras,
         totalWickets := cur.totalWickets + (if d.isWicket then 1 else 0),
         overs := overs)
  }

  /** Recording a ball keeps the cached totals equal to the derived ones. */
  lemma RecordKeepsCached(cur: Innings, d: Delivery)
    requires Cached(cur)
    ensures Cached(Record(cur, d))
    ensures Record(cur, d).totalRuns == cur.totalRuns + BallRuns(d)
    ensures Record(cur, d).totalWickets == cur.totalWickets + (if d.isWicket then 1 else 0)
    ensures Record(cur, d).overs == OversOf(LegalCount(cur.log) + (if IsLegal(d) then 1 else 0))
  {
    AppendOne(cur.log, d);
  }

  /** The innings row after `undo` drops its last delivery: the totals lose
      that ball (never below 0) and the overs are recounted (views.py:243-252). */
  function Unrecord(cur: Innings): (inn: Innings)
    requires cur.log != []
    ensures inn.log == Init(cur.log)
    ensures inn.number == cur.number && inn.battingTeam == cur.battingTeam && inn.bowlingTeam == cur.bowlingTeam
    ensures inn.isCompleted == cur.isCompleted && inn.isDeclared == cur.isDeclared
  {
    var gone := Last(cur.log);
    var log := Init(cur.log);
    var legalBalls := LegalCount(log);
    cur.(log := log,
         totalRuns := Max0(cur.totalRuns - (gone.runsBatter + gone.extras)),
         totalWickets := if gone.isWicket then Max0(cur.totalWickets - 1) else cur.totalWickets,
         overs := Overs(legalBalls / 6, legalBalls % 6))
  }

  /** Dropping the last ball keeps the cached totals equal to the derived ones. */
  lemma UnrecordKeepsCached(cur: Innings)
    requires Cached(cur) && cur.log != []
    ensures Cached(Unrecord(cur))
    ensures Unrecord(cur).totalRuns == cur.totalRuns - BallRuns(Last(cur.log))
    ensures Unrecord(cur).totalWickets == cur.totalWickets - (if Last(cur.log).isWicket then 1 else 0)
  {
    UndoSubtracts(cur.log);
  }

  /** Undo after bowl gives back the innings as it was. */
  lemma {:induction false} UnrecordUndoesRecord(cur: Innings, d: Delivery)
    requires Cached(cur)
    ensures Unrecord(Record(cur, d)) == cur
  {
    var r := Record(cur, d);
    InitOfAppend(cur.log, d);
    RecordKeepsCached(cur, d);
    UnrecordKeepsCached(r);
  }

  // ---------------------------------------------------------------- the match

  class Match {
    const format: Format
    const customOvers: Option<int>
    const lastManStanding: bool
    const teamA: Team
    const teamB: Team
    var tossWinner: Option<Id>
    var tossDecision: Option<TossDecision>
    var status: Status
    var innings: seq<Innings>
    var winner: Option<Id>
    var bestBatsman: Option<Id>
    var bestBowler: Option<Id>
    var manOfMatch: Option<Id>

    predicate IsTeam(id: Id) {
      id == teamA.id || id == teamB.id
    }

    /** `batting_team.players.count()`. */
    function TeamSize(id: Id): nat {
      if id == teamA.id then |teamA.players| else |teamB.players|
    }

    ghost predicate Valid()
      reads this
    {
      && teamA.id != teamB.id
      && |innings| <= 2
      && (status == Setup <==> innings == [])
      && (status == Setup <==> tossWinner == None)
      && (|innings| >= 1 ==> Consistent(innings[0], 1))
      && (|innings| == 2 ==> Consistent(innings[1], 2))
      && (|innings| >= 1 ==>
            IsTeam(innings[0].battingTeam)
            && innings[0].bowlingTeam == OtherTeam(innings[0].battingTeam, teamA.id, teamB.id))
      // a completed first innings of a T20 match always has a successor
      && (|innings| == 1 && innings[0].isCompleted ==> format == Test)
      && (|innings| == 2 ==>
            && format == T20
            && innings[0].isCompleted
            && innings[1].battingTeam == innings[0].bowlingTeam
            && innings[1].bowlingTeam == innings[0].battingTeam)
      && (status == Completed <==> |innings| == 2 && innings[1].isCompleted)
      && (status != Completed ==>
            winner == None && bestBatsman == None && bestBowler == None && manOfMatch == None)
    }

    /** `create`: both teams and a match in SETUP. */
    constructor (format: Format, customOvers: Option<int>, lastManStanding: Option<bool>, teamA: Team, teamB: Team)
      requires teamA.id != teamB.id
      ensures Valid()
      ensures this.format == format && this.customOvers == customOvers
      ensures this.lastManStanding == lastManStanding.GetOr(false)
      ensures this.teamA == teamA && this.teamB == teamB
      ensures status == Setup && innings == [] && tossDecision == None
    {
      this.format := format;
      this.customOvers := customOvers;
      this.lastManStanding := lastManStanding.GetOr(false);
      this.teamA := teamA;
      this.teamB := teamB;
      tossWinner := None;
      tossDecision := None;
      status := Setup;
      innings := [];
      winner := None;
      bestBatsman := None;
      bestBowler := None;
      manOfMatch := None;
    }

    /** `toss`: record the toss, go LIVE and open the first innings. */
    method Toss(winnerId: Id, decision: TossDecision)
      requires Valid() && status == Setup && IsTeam(winnerId)
      modifies this
      ensures Valid()
      ensures status == Live && tossWinner == Some(winnerId) && tossDecision == Some(decision)
      ensures |innings| == 1
      ensures innings[0] == NewInnings(1, innings[0].battingTeam, innings[0].bowlingTeam)
      ensures (innings[0].battingTeam == winnerId) <==> (decision == Bat)
      ensures IsTeam(innings[0].battingTeam) && IsTeam(innings[0].bowlingTeam)
      ensures innings[0].battingTeam != innings[0].bowlingTeam
      ensures winner == old(winner) && bestBatsman == old(bestBatsman)
      ensures bestBowler == old(bestBowler) && manOfMatch == old(manOfMatch)
    {
      tossWinner := Some(winnerId);
      tossDecision := Some(decision);
      status := Live;
      var batting := FirstBatting(winnerId, decision, teamA.id, teamB.id);
      var bowling := OtherTeam(batting, teamA.id, teamB.id);
      innings := [NewInnings(1, batting, bowling)];
    }

    /** The state change of an accepted ball `d`: the latest innings records
        it and closes when InningsEnds holds; a closed T20 first innings is
        followed by the second, and a closed second innings finishes the
        match with its winner and awards. */
    twostate predicate Bowled(d: Delivery, declare: bool)
      reads this
    {
      var n := |old(innings)|;
      && 1 <= n
      && var row := Record(old(innings[n - 1]), d);
      && (|innings| == n || |innings| == n + 1)
      && innings[..n - 1] == old(innings[..n - 1])
      && innings[n - 1] == row.(isCompleted := InningsEnds(row, TeamSize(row.battingTeam), lastManStanding, format,
                                                           customOvers, innings[0].totalRuns, declare))
      // the next innings opens exactly when a T20 first innings ends
      && (|innings| == n + 1 <==> innings[n - 1].isCompleted && format == T20 && n == 1)
      && (|innings| == n + 1 ==> innings[n] == NewInnings(2, row.bowlingTeam, row.battingTeam))
      // the match finishes exactly when a T20 second innings ends
      && (status == Completed <==> old(status) == Completed || (innings[n - 1].isCompleted && format == T20 && n == 2))
      && (old(status) != Completed && status == Completed ==>
            && winner == Winner(innings[0], innings[1])
            && bestBatsman == Awards.BestBatsman(innings[0].log + innings[1].log)
            && bestBowler == Awards.BestBowler(innings[0].log + innings[1].log)
            && manOfMatch == Awards.ManOfMatch(innings[0].log + innings[1].log))
      && (old(status) == Completed || status != Completed ==>
            && status == old(status) && winner == old(winner) && bestBatsman == old(bestBatsman)
            && bestBowler == old(bestBowler) && manOfMatch == old(manOfMatch))
      && tossWinner == old(tossWinner) && tossDecision == old(tossDecision)
    }

    /** `bowl`: validate, then store the delivery and settle the innings. */
    method Bowl(req: BowlRequest) returns (reply: Reply)
      requires Valid()
      modifies this
      ensures Valid()
      ensures old(innings == [] || Last(innings).isCompleted) <==> reply == Error(NoActiveInnings)
      ensures reply != Error(NoActiveInnings) ==>
        (reply == Error(ConsecutiveOvers) <==> old(ConsecutiveOver(Last(innings).log, req.bowler)))
      ensures reply == Error(NonStrikerMissing) <==>
        old(innings != [] && !Last(innings).isCompleted && !ConsecutiveOver(Last(innings).log, req.bowler))
        && req.nonStriker == None
      ensures reply.Error? ==> unchanged(this)
      ensures reply == Ok ==> Bowled(RequestDelivery(req, req.nonStriker.value), req.declare.GetOr(false))
    {
      if innings == [] || Last(innings).isCompleted {
        return Error(NoActiveInnings);
      }
      var cur := Last(innings);

      // the over-change rule, from the legal balls already bowled
      var legalBallsBefore := LegalCount(cur.log);
      var startOfOver := legalBallsBefore % 6 == 0;
      var lastLegal := LastLegal(cur.log);
      if startOfOver && lastLegal.Some? && req.bowler == lastLegal.value.bowler {
        return Error(ConsecutiveOvers);
      }
      if req.nonStriker == None {
        return Error(NonStrikerMissing);
      }
      Accept(RequestDelivery(req, req.nonStriker.value), req.declare.GetOr(false));
      reply := Ok;
    }

    /** The accepted part of `bowl`: store the delivery, update the cached
        totals, then close the innings, open the next or finish the match. */
    method Accept(d: Delivery, declare: bool)
      requires Valid() && innings != [] && !Last(innings).isCompleted
      modifies this
      ensures Valid()
      ensures Bowled(d, declare)
    {
      var n := |innings|;
      var cur := innings[n - 1];
      var updated := Record(cur, d);
      RecordKeepsCached(cur, d);

      // all out, overs cap, target passed or declared
      var completed := InningsEnds(updated, TeamSize(cur.battingTeam), lastManStanding, format, customOvers,
                                   innings[0].totalRuns, declare);
      updated := updated.(isCompleted := completed);
      innings := innings[n - 1 := updated];
      assert innings[..n - 1] == old(innings[..n - 1]);
      assert Consistent(updated, cur.number);

      if completed {
        if format == T20 && cur.number == 1 {
          OpenSecondInnings();
        } else if format == T20 && cur.number == 2 {
          FinishMatch();
        }
      }
    }

    /** Completing a T20 first innings opens the second with the sides swapped. */
    method OpenSecondInnings()
      requires |innings| == 1
      modifies this`innings
      ensures innings == old(innings) + [NewInnings(2, old(innings[0].bowlingTeam), old(innings[0].battingTeam))]
    {
      var first := innings[0];
      innings := innings + [NewInnings(2, first.bowlingTeam, first.battingTeam)];
    }

    /** Completing the second innings finishes the match: the side with more
        runs wins (nobody on a tie) and the awards are computed. */
    method FinishMatch()
      requires |innings| == 2 && winner == None
      modifies this`status, this`winner, this`bestBatsman, this`bestBowler, this`manOfMatch
      ensures status == Completed
      ensures winner == Winner(innings[0], innings[1])
      ensures bestBatsman == Awards.BestBatsman(innings[0].log + innings[1].log)
      ensures bestBowler == Awards.BestBowler(innings[0].log + innings[1].log)
      ensures manOfMatch == Awards.ManOfMatch(innings[0].log + innings[1].log)
    {
      status := Completed;
      var first, second := innings[0], innings[1];
      if first.totalRuns > second.totalRuns {
        winner := Some(first.battingTeam);
      } else if second.totalRuns > first.totalRuns {
        winner := Some(second.battingTeam);
      }
      bestBatsman, bestBowler, manOfMatch := Awards.ComputeAwards(first.log + second.log);
    }

    /** A finished match goes back to LIVE and forgets its result. */
    method Reopen()
      modifies this`status, this`winner, this`bestBatsman, this`bestBowler, this`manOfMatch
      ensures status == Live && winner == None && bestBatsman == None && bestBowler == None && manOfMatch == None
    {
      status := Live;
      winner := None;
      bestBatsman := None;
      bestBowler := None;
      manOfMatch := None;
    }

    /** `undo`: drop the last delivery of the latest innings, subtract it from
        the totals and reopen the innings (and the match) when nothing ends
        it any more. */
    method Undo() returns (reply: Reply)
      requires Valid()
      modifies this
      ensures Valid()
      ensures reply == Error(NoInningsFound) <==> old(innings) == []
      ensures reply == Error(NoDeliveriesToUndo) <==> old(innings) != [] && old(Last(innings).log) == []
      ensures reply.Error? ==> unchanged(this)
      ensures reply == Ok ==>
        var n := |old(innings)|;
        var cur := old(innings[n - 1]);
        var gone := Last(cur.log);
        && |innings| == n
        && innings[..n - 1] == old(innings[..n - 1])
        && innings[n - 1].log == Init(cur.log)
        && innings[n - 1].totalRuns == cur.totalRuns - BallRuns(gone)
        && innings[n - 1].totalWickets == cur.totalWickets - (if gone.isWicket then 1 else 0)
        && innings[n - 1].overs == OversOf(LegalCount(Init(cur.log)))
        // an innings stays closed only while something still ends it
        && innings[n - 1].isCompleted ==
             (cur.isCompleted && InningsEnds(innings[n - 1], TeamSize(cur.battingTeam), lastManStanding,
                                             format, customOvers, innings[0].totalRuns, false))
      // reopening the last innings of a finished match clears the result
      ensures reply == Ok && old(status) == Completed && status != Completed ==>
        status == Live && winner == None && bestBatsman == None && bestBowler == None && manOfMatch == None
      ensures !(old(status) == Completed && status != Completed) ==>
        status == old(status) && winner == old(winner) && bestBatsman == old(bestBatsman)
        && bestBowler == old(bestBowler) && manOfMatch == old(manOfMatch)
      ensures tossWinner == old(tossWinner) && tossDecision == old(tossDecision)
    {
      if innings == [] {
        return Error(NoInningsFound);
      }
      var n := |innings|;
      var cur := innings[n - 1];
      if cur.log == [] {
        return Error(NoDeliveriesToUndo);
      }
      var updated := Unrecord(cur);
      UnrecordKeepsCached(cur);

      // all out, overs cap or target passed; a declaration does not survive an undo
      var stillEnds := InningsEnds(updated, TeamSize(cur.battingTeam), lastManStanding, format, customOvers,
                                   innings[0].totalRuns, false);
      if cur.isCompleted && !stillEnds {
        updated := updated.(isCompleted := false);
        if status == Completed {
          Reopen();
        }
      }
      innings := innings[n - 1 := updated];
      assert innings[..n - 1] == old(innings[..n - 1]);
      assert Consistent(updated, cur.number);
      reply := Ok;
    }
  }
}
