/** The live scoreboard of the scorer's client
    (frontend/src/components/Scoreboard.jsx): who is at the crease and who
    bowls, how a ball is numbered and posted, how strike rotates and a wicket
    leaves a vacancy, the streak banners, the chase figures and the recent
    ball labels. */
module Scoreboard {
  import opened Models
  import opened Stats
  import Text
  import opened ControlPanel
  import Views

  // ---------------------------------------------------------------- numbering

  /** `over_number` of the next ball: whole overs bowled so far (0-based). */
  function OverNumber(legal: nat): nat {
    legal / 6
  }

  /** `ball_number` of the next ball: its place in the current over (1-based). */
  function BallNumber(legal: nat): nat {
    legal % 6 + 1
  }

  /** The numbering is a one-to-one encoding of the legal count. */
  lemma NumberingRoundTrip(legal: nat)
    ensures 1 <= BallNumber(legal) <= 6
    ensures 6 * OverNumber(legal) + (BallNumber(legal) - 1) == legal
  {
  }

  /** Every ball of the log carries the number the client gives it: from the
      legal balls before it. */
  ghost predicate ClientNumbered(log: seq<Delivery>) {
    forall i :: 0 <= i < |log| ==>
      log[i].overNumber == OverNumber(LegalCount(log[..i])) && log[i].ballNumber == BallNumber(LegalCount(log[..i]))
  }

  lemma {:induction false} LegalCountPrefix(log: seq<Delivery>, i: nat, j: nat)
    requires i <= j <= |log|
    ensures LegalCount(log[..i]) <= LegalCount(log[..j])
    ensures i < j && IsLegal(log[i]) ==> LegalCount(log[..i]) < LegalCount(log[..j])
    decreases j - i
  {
    if i < j {
      LegalCountPrefix(log, i + 1, j);
      assert log[..i + 1] == log[..i] + [log[i]];
      AppendOne(log[..i], log[i]);
    }
  }

  /** Numbering by the legal count is monotone: the client's log is already
      in the (over, ball) order the database sorts by, and a legal ball comes
      strictly before every later ball. */
  lemma NumberingFollowsLog(log: seq<Delivery>, i: nat, j: nat)
    requires ClientNumbered(log) && i < j < |log|
    ensures OrderedBefore(log[i], log[j])
    ensures IsLegal(log[i]) ==> !OrderedBefore(log[j], log[i])
  {
    LegalCountPrefix(log, i, j);
    var a, b := LegalCount(log[..i]), LegalCount(log[..j]);
    assert a / 6 <= b / 6;
    if a / 6 == b / 6 {
      assert a % 6 <= b % 6;
    }
  }

  /** A ball numbered from the current log extends a client-numbered log. */
  lemma NumberingExtends(log: seq<Delivery>, d: Delivery)
    requires ClientNumbered(log)
    requires d.overNumber == OverNumber(LegalCount(log)) && d.ballNumber == BallNumber(LegalCount(log))
    ensures ClientNumbered(log + [d])
  {
    var log' := log + [d];
    forall i | 0 <= i < |log'|
      ensures log'[i].overNumber == OverNumber(LegalCount(log'[..i]))
      ensures log'[i].ballNumber == BallNumber(LegalCount(log'[..i]))
    {
      if i < |log| {
        assert log'[..i] == log[..i];
      } else {
        assert log'[..i] == log;
      }
    }
  }

  // ---------------------------------------------------------------- the pre-checks

  /** Solo batting is allowed once the side is down to its last batter and
      last man standing is on. */
  predicate SoloAllowed(lastManStanding: bool, totalWickets: int, teamSize: int) {
    lastManStanding && totalWickets >= (if teamSize - 1 > 0 then teamSize - 1 else 0)
  }

  /** Solo batting is allowed exactly when the wickets reach the all-out
      threshold that applies without last man standing. */
  lemma SoloAllowedThreshold(lastManStanding: bool, totalWickets: int, teamSize: nat)
    ensures SoloAllowed(lastManStanding, totalWickets, teamSize) <==>
      lastManStanding && totalWickets >= Views.AllOutThreshold(teamSize, false)
  {
  }

  /** The client's over-change rule: at the start of an over the bowler of
      the last legal ball is refused (an id of 0 would read as absent). */
  predicate RefusesBowler(log: seq<Delivery>, bowlerId: Id) {
    var prev := LastLegal(log);
    LegalCount(log) % 6 == 0 && prev.Some? && prev.value.bowler != 0 && bowlerId == prev.value.bowler
  }

  /** The client refuses exactly the bowlers the server refuses. */
  lemma RefusalMatchesServer(log: seq<Delivery>, bowlerId: Id)
    requires bowlerId != 0
    ensures RefusesBowler(log, bowlerId) <==> Views.ConsecutiveOver(log, bowlerId)
  {
  }

  // ---------------------------------------------------------------- rotation

  /** Strike after a non-wicket ball with both batters in, as written: both
      swap blocks exchange the values captured before the ball, so odd runs
      and the end of the over together still give one exchange. */
  function Exchange(striker: Option<Player>, nonStriker: Option<Player>, oddRuns: bool, overEnds: bool)
    : (Option<Player>, Option<Player>)
  {
    if oddRuns || overEnds then (nonStriker, striker) else (striker, nonStriker)
  }

  /** Strike as the two rules mean it: the batters cross on odd runs, and
      then change ends at the end of the over. */
  function Crossings(striker: Option<Player>, nonStriker: Option<Player>, oddRuns: bool, overEnds: bool)
    : (Option<Player>, Option<Player>)
  {
    var afterRuns := if oddRuns then (nonStriker, striker) else (striker, nonStriker);
    if overEnds then (afterRuns.1, afterRuns.0) else afterRuns
  }

  /** The two rules compose: strike changes when exactly one of them applies,
      so the batter who takes a single off the last ball keeps the strike. */
  lemma CrossingsParity(striker: Option<Player>, nonStriker: Option<Player>, oddRuns: bool, overEnds: bool)
    ensures Crossings(striker, nonStriker, oddRuns, overEnds) ==
      if oddRuns != overEnds then (nonStriker, striker) else (striker, nonStriker)
    ensures Crossings(striker, nonStriker, true, true) == (striker, nonStriker)
  {
  }

  /** As written and as meant agree except on odd runs off the last ball of
      the over, where the client hands the strike to the other batter. */
  lemma ExchangeDiffersOnlyOnOddLastBall(striker: Option<Player>, nonStriker: Option<Player>, oddRuns: bool, overEnds: bool)
    requires striker != nonStriker
    ensures Exchange(striker, nonStriker, oddRuns, overEnds) != Crossings(striker, nonStriker, oddRuns, overEnds)
            <==> oddRuns && overEnds
    ensures Exchange(striker, nonStriker, true, true) == (nonStriker, striker)
  {
  }

  /** The crease after a wicket ball: the end named by the incoming end (by
      default the end of the batter who is out) is vacated and the survivor
      stands at the other; a wicket naming nobody vacates the striker's end. */
  function AfterWicket(striker: Option<Player>, nonStriker: Option<Player>, playerOut: Option<Id>, incomingEnd: Option<End>)
    : (Option<Player>, Option<Player>)
  {
    match playerOut
    case None => (None, nonStriker)
    case Some(out) =>
      var strikerOut := striker.Some? && out == striker.value.id;
      var survivor := if strikerOut then nonStriker else striker;
      var end := incomingEnd.GetOr(if strikerOut then StrikerEnd else NonStrikerEnd);
      if end == StrikerEnd then (None, survivor) else (survivor, None)
  }

  /** A wicket always leaves a vacancy and never brings in anyone new: the
      batter who is out leaves, the other stays in at one of the ends. */
  lemma AfterWicketVacancy(striker: Option<Player>, nonStriker: Option<Player>, playerOut: Option<Id>, incomingEnd: Option<End>)
    requires striker.Some?
    ensures var (s, n) := AfterWicket(striker, nonStriker, playerOut, incomingEnd);
      && (s == None || n == None)
      && (s.Some? ==> s == striker || s == nonStriker)
      && (n.Some? ==> n == striker || n == nonStriker)
      && (playerOut == Some(striker.value.id) && nonStriker != striker ==> s != striker && n != striker)
      && (playerOut == Some(striker.value.id) && nonStriker.Some? && nonStriker != striker ==>
            nonStriker == s || nonStriker == n)
      && (nonStriker.Some? && playerOut == Some(nonStriker.value.id) && nonStriker.value.id != striker.value.id ==>
            (s == striker || n == striker) && s != nonStriker && n != nonStriker)
  {
  }

  // ---------------------------------------------------------------- streaks

  /** The striker's legal deliveries, in order. */
  function LegalFaced(log: seq<Delivery>, p: Id): seq<Delivery> {
    if log == [] then []
    else LegalFaced(Init(log), p) + (if Last(log).batsman == p && IsLegal(Last(log)) then [Last(log)] else [])
  }

  /** The bowler's legal deliveries, in order. */
  function LegalBowled(log: seq<Delivery>, p: Id): seq<Delivery> {
    if log == [] then []
    else LegalBowled(Init(log), p) + (if Last(log).bowler == p && IsLegal(Last(log)) then [Last(log)] else [])
  }

  /** "On fire": the batter's last three legal deliveries were all sixes. */
  predicate OnFire(log: seq<Delivery>, p: Id) {
    var b := LegalFaced(log, p);
    |b| >= 3 && forall k :: |b| - 3 <= k < |b| ==> b[k].runsBatter == 6
  }

  /** "Hat-trick": the bowler's last three legal deliveries all took wickets
      credited to the bowler. */
  predicate HatTrick(log: seq<Delivery>, p: Id) {
    var b := LegalBowled(log, p);
    |b| >= 3 && forall k :: |b| - 3 <= k < |b| ==> Credited(b[k])
  }

  /** One more ball: only a legal six by the batter can light the banner,
      and it does exactly when the batter's two previous legal balls were
      sixes; any other ball leaves the signal as it was. */
  lemma OnFireStep(log: seq<Delivery>, d: Delivery, p: Id)
    ensures var b := LegalFaced(log, p);
      if d.batsman == p && IsLegal(d) then
        OnFire(log + [d], p) <==>
          d.runsBatter == 6 && |b| >= 2 && b[|b| - 1].runsBatter == 6 && b[|b| - 2].runsBatter == 6
      else OnFire(log + [d], p) == OnFire(log, p)
  {
    InitOfAppend(log, d);
    var b, b' := LegalFaced(log, p), LegalFaced(log + [d], p);
    if d.batsman == p && IsLegal(d) {
      assert b' == b + [d];
      if OnFire(log + [d], p) {
        assert b'[|b'| - 1] == d && b'[|b'| - 2] == b[|b| - 1] && b'[|b'| - 3] == b[|b| - 2];
      }
    } else {
      assert b' == b;
    }
  }

  /** One more ball: only a legal credited wicket by the bowler can complete
      a hat-trick, exactly when the bowler's two previous legal balls took
      credited wickets; any other ball leaves the signal as it was. */
  lemma HatTrickStep(log: seq<Delivery>, d: Delivery, p: Id)
    ensures var b := LegalBowled(log, p);
      if d.bowler == p && IsLegal(d) then
        HatTrick(log + [d], p) <==> Credited(d) && |b| >= 2 && Credited(b[|b| - 1]) && Credited(b[|b| - 2])
      else HatTrick(log + [d], p) == HatTrick(log, p)
  {
    InitOfAppend(log, d);
    var b, b' := LegalBowled(log, p), LegalBowled(log + [d], p);
    if d.bowler == p && IsLegal(d) {
      assert b' == b + [d];
      if HatTrick(log + [d], p) {
        assert b'[|b'| - 1] == d && b'[|b'| - 2] == b[|b| - 1] && b'[|b'| - 3] == b[|b| - 2];
      }
    } else {
      assert b' == b;
    }
  }

  // ---------------------------------------------------------------- the chase

  /** `maxOvers`: the custom overs when set and non-zero, else 20 for T20,
      else no limit. */
  function ClientMaxOvers(format: Format, customOvers: Option<int>): Option<int> {
    if customOvers.Some? && customOvers.value != 0 then customOvers
    else if format == T20 then Some(20)
    else None
  }

  function Target(firstInningsRuns: int): int {
    firstInningsRuns + 1
  }

  function RunsNeeded(target: int, runs: int): nat {
    if target - runs > 0 then target - runs else 0
  }

  /** Balls left, shown only under an overs limit. */
  function BallsLeft(maxOvers: Option<int>, legal: nat): Option<nat> {
    match maxOvers
    case None => None
    case Some(m) => Some(if m * 6 - legal > 0 then m * 6 - legal else 0)
  }

  /** The chase figures reach zero exactly when the server ends the second
      innings: runs needed when the target is passed, balls left (in a T20
      match) when the overs cap is reached. */
  lemma ChaseMatchesServer(format: Format, customOvers: Option<int>, firstInningsRuns: int, runs: int, legal: nat)
    ensures RunsNeeded(Target(firstInningsRuns), runs) == 0 <==> runs > firstInningsRuns
    ensures format == T20 ==> ClientMaxOvers(format, customOvers) == Some(Views.MaxOvers(customOvers))
    ensures format == T20 ==>
      (BallsLeft(ClientMaxOvers(format, customOvers), legal) == Some(0) <==>
       Views.OversReached(OversOf(legal), Views.MaxOvers(customOvers)))
  {
    Views.OversReachedExactly(legal, Views.MaxOvers(customOvers));
  }

  // ---------------------------------------------------------------- recent balls

  /** The label of one ball: W for a wicket, else the extra, else the runs. */
  function BallLabel(d: Delivery): string {
    if d.isWicket then "W"
    else match d.extraType
      case WD => "WD"
      case NB => "NB"
      case B => "B"
      case LB => "LB"
      case NoExtra => Text.NatToString(d.runsBatter)
  }

  /** A label tells a wicket from other balls and an extra from runs, and
      the runs can be read back from it. */
  lemma BallLabelReadsBack(d: Delivery)
    ensures BallLabel(d) == "W" <==> d.isWicket
    ensures !d.isWicket && d.extraType == NoExtra ==>
      Text.AllDigits(BallLabel(d)) && Text.DigitsValue(BallLabel(d)) == d.runsBatter
    ensures !d.isWicket && d.extraType != NoExtra ==> !Text.AllDigits(BallLabel(d))
  {
    if !d.isWicket && d.extraType == NoExtra {
      Text.NatToStringRoundTrip(d.runsBatter);
      assert !Text.IsDigit('W');
    }
    if !d.isWicket && d.extraType != NoExtra {
      assert !Text.IsDigit(BallLabel(d)[0]);
    }
  }

  function Labels(log: seq<Delivery>): seq<string> {
    if log == [] then [] else [BallLabel(log[0])] + Labels(log[1..])
  }

  lemma {:induction false} LabelsAt(log: seq<Delivery>)
    ensures |Labels(log)| == |log|
    ensures forall k :: 0 <= k < |log| ==> Labels(log)[k] == BallLabel(log[k])
  {
    if log != [] {
      LabelsAt(log[1..]);
    }
  }

  /** The recent-balls strip: the last twelve balls, newest first. */
  function RecentLabels(log: seq<Delivery>): seq<string> {
    var newestFirst := Reversed(log);
    Labels(if |newestFirst| > 12 then newestFirst[..12] else newestFirst)
  }

  lemma RecentLabelsAt(log: seq<Delivery>)
    ensures |RecentLabels(log)| == if |log| > 12 then 12 else |log|
    ensures forall k :: 0 <= k < |RecentLabels(log)| ==> RecentLabels(log)[k] == BallLabel(log[|log| - 1 - k])
  {
    ReversedAt(log);
    var r := Reversed(log);
    LabelsAt(if |r| > 12 then r[..12] else r);
  }

  // ---------------------------------------------------------------- the innings on screen

  /** The innings the scoreboard shows: the first one not completed, else
      the last one. */
  function CurrentInnings(innings: seq<Views.Innings>): Option<nat> {
    if innings == [] then None
    else if !innings[0].isCompleted then Some(0)
    else match CurrentInnings(innings[1..])
      case None => Some(0)
      case Some(k) => Some(k + 1)
  }

  /** When every innings but the last is completed (as the server keeps
      them) the scoreboard shows the latest innings. */
  lemma {:induction false} CurrentIsLatest(innings: seq<Views.Innings>)
    requires forall k :: 0 <= k < |innings| - 1 ==> innings[k].isCompleted
    ensures CurrentInnings(innings) == if innings == [] then None else Some(|innings| - 1)
  {
    if |innings| > 1 {
      CurrentIsLatest(innings[1..]);
    }
  }

  // ---------------------------------------------------------------- posting a ball

  /** The request body `handleBowl` posts; a missing non-striker is sent as
      the striker. */
  function Request(input: BallInput, strikerId: Id, nonStrikerId: Option<Id>, bowlerId: Id, legal: nat): (req: Views.BowlRequest)
  {
    Views.BowlRequest(OverNumber(legal), BallNumber(legal), strikerId, Some(nonStrikerId.GetOr(strikerId)), bowlerId,
                      Some(input.runsBatter), Some(input.extras), Some(input.extraType), Some(input.isWicket),
                      input.wicketType, input.playerOut, input.catcher, None)
  }

  /** The ball the server stores for a posted request carries the panel's
      fields, the crease and the client's numbering, and is never refused
      for a missing non-striker. */
  lemma RequestStores(input: BallInput, strikerId: Id, nonStrikerId: Option<Id>, bowlerId: Id, legal: nat)
    ensures var req := Request(input, strikerId, nonStrikerId, bowlerId, legal);
      var d := Views.RequestDelivery(req, req.nonStriker.value);
      && req.nonStriker.Some?
      && d.overNumber == OverNumber(legal) && d.ballNumber == BallNumber(legal)
      && d.batsman == strikerId && d.bowler == bowlerId
      && d.nonStriker == (if nonStrikerId.Some? then nonStrikerId.value else strikerId)
      && d.runsBatter == input.runsBatter && d.extras == input.extras && d.extraType == input.extraType
      && d.isWicket == input.isWicket && d.playerOut == input.playerOut && d.catcher == input.catcher
      && d.wicketType == input.wicketType.GetOr(NoWicket)
  {
  }

  /** The deliveries the streak checks read: the log with the new ball as
      the server stores it. */
  function NextLog(log: seq<Delivery>, input: BallInput, strikerId: Id, nonStrikerId: Option<Id>, bowlerId: Id): seq<Delivery> {
    var req := Request(input, strikerId, nonStrikerId, bowlerId, LegalCount(log));
    log + [Views.RequestDelivery(req, req.nonStriker.value)]
  }

  datatype Outcome =
    | MissingPlayers                         // striker or bowler unset, or non-striker unset outside solo mode
    | SameBowlerNewOver                      // the previous over's bowler chosen to open the next
    | PostFailed(request: Views.BowlRequest) // the server refused the ball or could not be reached
    | Recorded(request: Views.BowlRequest)

  /** `name || default`. */
  function NameOr(p: Player, default: string): string {
    if p.name == [] then default else p.name
  }

  /** The scoreboard's selection and banner state. */
  class Crease {
    var striker: Option<Player>
    var nonStriker: Option<Player>
    var bowler: Option<Player>
    var showEndOfOver: bool
    var showFire: bool
    var fireName: string
    var showHattrick: bool
    var hattrickName: string

    /** The two batters are different players. */
    ghost predicate Valid()
      reads this
    {
      striker.Some? && nonStriker.Some? ==> striker.value.id != nonStriker.value.id
    }

    constructor ()
      ensures Valid()
      ensures striker == None && nonStriker == None && bowler == None
      ensures !showEndOfOver && !showFire && !showHattrick && fireName == "" && hattrickName == ""
    {
      striker, nonStriker, bowler := None, None, None;
      showEndOfOver, showFire, showHattrick := false, false, false;
      fireName, hattrickName := "", "";
    }

    /** The crease after a recorded ball: a wicket vacates an end and keeps
        the bowler; any other ball rotates strike (once, see Exchange) when
        there is a non-striker, and the last ball of an over clears the
        bowler and raises the end-of-over banner. The streak banners rise
        on the log with the new ball. */
    twostate predicate Settled(log: seq<Delivery>, input: BallInput)
      reads this
    {
      var s, n, b := old(striker), old(nonStriker), old(bowler);
      && s.Some? && b.Some?
      && var legal := LegalCount(log);
      var overEnds := IsLegalType(input.extraType) && (legal + 1) % 6 == 0;
      var next := NextLog(log, input, s.value.id, if n.Some? then Some(n.value.id) else None, b.value.id);
      && (striker, nonStriker) ==
           (if input.isWicket then AfterWicket(s, n, input.playerOut, input.incomingEnd)
            else if n.Some? then Exchange(s, n, input.runsBatter % 2 != 0, overEnds)
            else (s, n))
      && bowler == (if !input.isWicket && overEnds then None else b)
      && showEndOfOver == (if !input.isWicket && overEnds then true else old(showEndOfOver))
      && (showFire, fireName) ==
           (if OnFire(next, s.value.id) then (true, NameOr(s.value, "Batsman")) else (old(showFire), old(fireName)))
      && (showHattrick, hattrickName) ==
           (if HatTrick(next, b.value.id) then (true, NameOr(b.value, "Bowler")) else (old(showHattrick), old(hattrickName)))
    }

    /** `handleBowl`: check the crease, number the ball from the legal balls
        of `log`, post it (`posted` is the server's answer) and settle the
        crease. `totalWickets` and `teamSize` are the innings' and the
        batting side's, as the scoreboard reads them. */
    method HandleBowl(log: seq<Delivery>, totalWickets: int, teamSize: int, lastManStanding: bool,
                      input: BallInput, posted: bool) returns (outcome: Outcome)
      modifies this
      ensures outcome == MissingPlayers <==>
        old(striker == None || (nonStriker == None && !SoloAllowed(lastManStanding, totalWickets, teamSize)) || bowler == None)
      ensures outcome == SameBowlerNewOver <==>
        outcome != MissingPlayers && old(RefusesBowler(log, bowler.value.id))
      ensures outcome.PostFailed? || outcome.Recorded? ==>
        outcome.request == old(Request(input, striker.value.id, if nonStriker.Some? then Some(nonStriker.value.id) else None,
                                       bowler.value.id, LegalCount(log)))
      ensures outcome.Recorded? <==> outcome != MissingPlayers && outcome != SameBowlerNewOver && posted
      ensures !outcome.Recorded? ==> unchanged(this)
      ensures outcome.Recorded? ==> Settled(log, input)
      ensures old(Valid()) ==> Valid()
    {
      var soloAllowed := SoloAllowed(lastManStanding, totalWickets, teamSize);
      if striker == None || (nonStriker == None && !soloAllowed) || bowler == None {
        return MissingPlayers;
      }
      // the same bowler may not open the next over
      if RefusesBowler(log, bowler.value.id) {
        return SameBowlerNewOver;
      }
      var legalBalls := LegalCount(log);
      var s, n, b := striker, nonStriker, bowler;
      var nonStrikerId := if n.Some? then Some(n.value.id) else None;
      var req := Request(input, s.value.id, nonStrikerId, b.value.id, legalBalls);
      if !posted {
        return PostFailed(req);
      }

      MoveCrease(input, legalBalls);
      RaiseBanners(NextLog(log, input, s.value.id, nonStrikerId, b.value.id), s.value, b.value);
      outcome := Recorded(req);
    }

    /** The crease moves of a recorded ball (the wicket and rotation blocks of
        `handleBowl`). */
    method MoveCrease(input: BallInput, legalBalls: nat)
      requires striker.Some? && bowler.Some?
      modifies this`striker, this`nonStriker, this`bowler, this`showEndOfOver
      ensures var s, n, b := old(striker), old(nonStriker), old(bowler);
        var overEnds := IsLegalType(input.extraType) && (legalBalls + 1) % 6 == 0;
        && (striker, nonStriker) ==
             (if input.isWicket then AfterWicket(s, n, input.playerOut, input.incomingEnd)
              else if n.Some? then Exchange(s, n, input.runsBatter % 2 != 0, overEnds)
              else (s, n))
        && bowler == (if !input.isWicket && overEnds then None else b)
        && showEndOfOver == (if !input.isWicket && overEnds then true else old(showEndOfOver))
      ensures old(Valid()) ==> Valid()
    {
      var s, n := striker, nonStriker;
      var overEnds := IsLegalType(input.extraType) && (legalBalls + 1) % 6 == 0;
      if input.isWicket {
        if input.playerOut.Some? {
          var strikerOut := input.playerOut.value == s.value.id;
          var survivor := if strikerOut then n else s;
          var incomingEnd := input.incomingEnd.GetOr(if strikerOut then StrikerEnd else NonStrikerEnd);
          if incomingEnd == StrikerEnd {
            striker := None;
            nonStriker := survivor;
          } else {
            nonStriker := None;
            striker := survivor;
          }
        } else {
          striker := None;
        }
      } else if n.Some? {
        // both swap blocks set the values read before the ball
        if input.runsBatter % 2 != 0 {
          striker := n;
          nonStriker := s;
        }
        if overEnds {
          striker := n;
          nonStriker := s;
          bowler := None;
          showEndOfOver := true;
        }
      } else if overEnds {
        bowler := None;
        showEndOfOver := true;
      }
    }

    /** The streak banners of `handleBowl`, checked on the log with the new
        ball for the batter who faced it and the bowler who bowled it. */
    method RaiseBanners(next: seq<Delivery>, s: Player, b: Player)
      modifies this`showFire, this`fireName, this`showHattrick, this`hattrickName
      ensures (showFire, fireName) ==
        (if OnFire(next, s.id) then (true, NameOr(s, "Batsman")) else (old(showFire), old(fireName)))
      ensures (showHattrick, hattrickName) ==
        (if HatTrick(next, b.id) then (true, NameOr(b, "Bowler")) else (old(showHattrick), old(hattrickName)))
    {
      if OnFire(next, s.id) {
        fireName := NameOr(s, "Batsman");
        showFire := true;
      }
      if HatTrick(next, b.id) {
        hattrickName := NameOr(b, "Bowler");
        showHattrick := true;
      }
    }

    /** `handleUndo`: after the server drops the last ball only the banners
        are cleared; the crease is not put back. */
    method HandleUndo(posted: bool)
      modifies this
      ensures striker == old(striker) && nonStriker == old(nonStriker) && bowler == old(bowler)
      ensures fireName == old(fireName) && hattrickName == old(hattrickName)
      ensures posted ==> !showEndOfOver && !showFire && !showHattrick
      ensures !posted ==> unchanged(this)
    {
      if posted {
        showEndOfOver := false;
        showFire := false;
        showHattrick := false;
      }
    }
  }
}
