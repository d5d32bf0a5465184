/** The match history page (frontend/src/pages/History.jsx): the list of
    finished matches and, for every innings, its batting and bowling cards,
    dismissals, fall of wickets and result line. */
module History {
  import opened Models
  import opened Stats
  import opened Text
  import Views

  // ---------------------------------------------------------------- finding things

  /** `players.find(p => p.id === id)`. */
  function FindPlayer(players: seq<Player>, id: Id): (r: Option<Player>)
    ensures r.Some? ==> r.value in players && r.value.id == id
    ensures r == None <==> forall k :: 0 <= k < |players| ==> players[k].id != id
  {
    if players == [] then None
    else if players[0].id == id then Some(players[0])
    else FindPlayer(players[1..], id)
  }

  /** A wicket ball naming `p` as the player out. */
  predicate OutBall(d: Delivery, p: Id) {
    d.isWicket && d.playerOut == Some(p)
  }

  /** `deliveries.find(d => d.is_wicket && d.player_out === p)`. */
  function FirstOutBall(log: seq<Delivery>, p: Id): (r: Option<Delivery>)
  {
    if log == [] then None
    else if OutBall(log[0], p) then Some(log[0])
    else FirstOutBall(log[1..], p)
  }

  /** The first wicket ball naming `p`, if there is one: no earlier ball names
      `p`. */
  lemma {:induction false} FirstOutBallIsFirst(log: seq<Delivery>, p: Id)
    ensures FirstOutBall(log, p) == None <==> forall i :: 0 <= i < |log| ==> !OutBall(log[i], p)
    ensures FirstOutBall(log, p).Some? ==>
      exists i :: 0 <= i < |log| && log[i] == FirstOutBall(log, p).value && OutBall(log[i], p)
                  && forall j :: 0 <= j < i ==> !OutBall(log[j], p)
  {
    if log != [] && !OutBall(log[0], p) {
      FirstOutBallIsFirst(log[1..], p);
      if FirstOutBall(log, p).Some? {
        var i :| 0 <= i < |log[1..]| && log[1..][i] == FirstOutBall(log, p).value && OutBall(log[1..][i], p)
                 && forall j :: 0 <= j < i ==> !OutBall(log[1..][j], p);
        assert log[i + 1] == log[1..][i];
        forall j | 0 <= j < i + 1
          ensures !OutBall(log[j], p)
        {
          if j > 0 { assert log[j] == log[1..][j - 1]; }
        }
      }
    } else if log != [] {
      assert OutBall(log[0], p);
    }
  }

  // ---------------------------------------------------------------- dismissals

  /** The bowler's name for a dismissal, "bowler" when not in the bowling side. */
  function BowlerName(bowlingPlayers: seq<Player>, bowler: Id): string {
    match FindPlayer(bowlingPlayers, bowler)
    case Some(p) => p.name
    case None => "bowler"
  }

  /** The catcher's name, when the ball names a catcher of the bowling side. */
  function CatcherName(bowlingPlayers: seq<Player>, catcher: Option<Id>): Option<string> {
    if catcher.None? then None
    else match FindPlayer(bowlingPlayers, catcher.value)
      case Some(p) => Some(p.name)
      case None => None
  }

  /** How a wicket ball reads on the card. */
  function HowOut(d: Delivery, bowlingPlayers: seq<Player>): string {
    var bowler := BowlerName(bowlingPlayers, d.bowler);
    match d.wicketType
    case Bowled => "b " + bowler
    case Caught =>
      var catcher := CatcherName(bowlingPlayers, d.catcher);
      if catcher.Some? && catcher.value != "" then "c " + catcher.value + " b " + bowler else "c b " + bowler
    case Lbw => "lbw b " + bowler
    case Stumped => "st b " + bowler
    case RunOut => "run out"
    case HitWicket => "hit wicket b " + bowler
    case NoWicket => "out"
  }

  /** `dismissalText`: "not out", or how the first wicket ball naming the
      player reads. */
  function DismissalText(log: seq<Delivery>, bowlingPlayers: seq<Player>, p: Id): string {
    match FirstOutBall(log, p)
    case None => "not out"
    case Some(d) => HowOut(d, bowlingPlayers)
  }

  predicate EndsWith(s: string, suffix: string) {
    |suffix| <= |s| && s[|s| - |suffix|..] == suffix
  }

  lemma NoLetterB(s: string, suffix: string)
    requires forall k :: 0 <= k < |s| ==> s[k] != 'b'
    requires |suffix| > 0 && suffix[0] == 'b'
    ensures !EndsWith(s, suffix)
  {
    if |suffix| <= |s| {
      assert s[|s| - |suffix|..][0] == s[|s| - |suffix|];
    }
  }

  /** A wicket ball's text credits the bowler exactly for the kinds the
      bowler is credited with, and never reads "not out". */
  lemma HowOutCredits(d: Delivery, bowlingPlayers: seq<Player>)
    requires d.isWicket
    ensures EndsWith(HowOut(d, bowlingPlayers), "b " + BowlerName(bowlingPlayers, d.bowler))
      <==> Credited(d) && d.wicketType != NoWicket
    ensures HowOut(d, bowlingPlayers) != "not out"
  {
    var t := HowOut(d, bowlingPlayers);
    var suffix := "b " + BowlerName(bowlingPlayers, d.bowler);
    if d.wicketType == RunOut || d.wicketType == NoWicket {
      NoLetterB(t, suffix);
      assert t[0] != 'n';
    } else {
      assert t[|t| - |suffix|..] == suffix;
      NoLetterB("not out", suffix);
    }
  }

  /** The card says "not out" exactly when no wicket ball names the player,
      and otherwise credits the bowler ("... b <bowler>") exactly for the
      wickets the awards credit to the bowler. */
  lemma DismissalTextCredits(log: seq<Delivery>, bowlingPlayers: seq<Player>, p: Id)
    ensures DismissalText(log, bowlingPlayers, p) == "not out" <==> forall i :: 0 <= i < |log| ==> !OutBall(log[i], p)
    ensures FirstOutBall(log, p).Some? ==>
      (EndsWith(DismissalText(log, bowlingPlayers, p), "b " + BowlerName(bowlingPlayers, FirstOutBall(log, p).value.bowler))
       <==> Credited(FirstOutBall(log, p).value) && FirstOutBall(log, p).value.wicketType != NoWicket)
  {
    FirstOutBallIsFirst(log, p);
    if FirstOutBall(log, p).Some? {
      HowOutCredits(FirstOutBall(log, p).value, bowlingPlayers);
    }
  }

  // ---------------------------------------------------------------- batting and bowling rows

  datatype BattingRow = BattingRow(runs: nat, ballCount: nat, fours: nat, sixes: nat, sr: RateCell)

  /** `calcBatting`: the player's balls as striker; wides are not faced. */
  function CalcBatting(log: seq<Delivery>, p: Id): BattingRow {
    var line := Batting(log, p);
    BattingRow(line.runs, line.balls, line.fours, line.sixes, StrikeRateCell(line))
  }

  /** The batting column adds up: every row is bounded by the innings, and
      over the distinct strikers of the innings the runs add up to the total
      less the extras. */
  lemma CalcBattingAddsUp(log: seq<Delivery>, p: Id, players: seq<Id>)
    requires Distinct(players) && forall i :: 0 <= i < |log| ==> log[i].batsman in players
    ensures CalcBatting(log, p).runs <= TotalRuns(log) && CalcBatting(log, p).ballCount <= |log|
    ensures CalcBatting(log, p).sr == Fixed("0.0") <==> CalcBatting(log, p).ballCount == 0
    ensures SumBatterRuns(log, players) == TotalRuns(log) - ExtraRuns(log)
  {
    BattingBounds(log, p);
    BatterRunsSum(log, players);
  }

  datatype BowlingRow = BowlingRow(wickets: nat, conceded: nat, overs: string, econ: RateCell, ballsBowled: nat)

  /** `deliveries.filter(d => d.bowler === p)`. */
  function BowledBy(log: seq<Delivery>, p: Id): seq<Delivery> {
    if log == [] then [] else BowledBy(Init(log), p) + (if Last(log).bowler == p then [Last(log)] else [])
  }

  lemma BowlingSnoc(s: seq<Delivery>, d: Delivery, p: Id)
    ensures Bowling(s + [d], p) == AddBowl(Bowling(s, p), BowlBall(d, p))
  {
    InitOfAppend(s, d);
  }

  lemma {:induction false} BowledByOwn(log: seq<Delivery>, p: Id)
    ensures forall k :: 0 <= k < |BowledBy(log, p)| ==> BowledBy(log, p)[k].bowler == p
  {
    if log != [] {
      BowledByOwn(Init(log), p);
    }
  }

  /** The bowler's own balls give the bowler's figures. */
  lemma {:induction false} BowlingOfOwnBalls(log: seq<Delivery>, p: Id)
    ensures Bowling(BowledBy(log, p), p) == Bowling(log, p)
  {
    if log != [] {
      BowlingOfOwnBalls(Init(log), p);
      var b, d := BowledBy(Init(log), p), Last(log);
      assert Bowling(log, p) == AddBowl(Bowling(Init(log), p), BowlBall(d, p));
      if d.bowler == p {
        assert BowledBy(log, p) == b + [d];
        BowlingSnoc(b, d, p);
      } else {
        assert BowledBy(log, p) == b;
      }
    }
  }

  /** `calcBowling`: one pass over the bowler's balls with three counters,
      then the overs and economy cells. */
  method CalcBowling(log: seq<Delivery>, p: Id) returns (row: BowlingRow)
    ensures row.wickets == Bowling(log, p).wickets
    ensures row.conceded == Bowling(log, p).conceded
    ensures row.ballsBowled == Bowling(log, p).legal
    ensures row.overs == OversText(Bowling(log, p).legal)
    ensures row.econ == EconomyCell(Bowling(log, p))
  {
    var balls := BowledBy(log, p);
    BowlingOfOwnBalls(log, p);
    BowledByOwn(log, p);
    var wickets, conceded, legal := TallyBowling(balls, p);
    row := BowlingRow(wickets, conceded, OversText(legal), EconomyCell(BowlLine(legal, conceded, wickets)), legal);
  }

  /** The loop of `calcBowling` over balls all bowled by `p`. */
  method TallyBowling(balls: seq<Delivery>, p: Id) returns (wickets: nat, conceded: nat, legal: nat)
    requires forall k :: 0 <= k < |balls| ==> balls[k].bowler == p
    ensures BowlLine(legal, conceded, wickets) == Bowling(balls, p)
  {
    wickets, conceded, legal := 0, 0, 0;
    var i := 0;
    while i < |balls|
      invariant 0 <= i <= |balls|
      invariant Bowling(balls[..i], p) == BowlLine(legal, conceded, wickets)
    {
      var d := balls[i];
      ghost var before := BowlLine(legal, conceded, wickets);
      if d.isWicket && d.wicketType != RunOut {
        wickets := wickets + 1;
      }
      var cost := d.runsBatter;
      if d.extraType == WD || d.extraType == NB {
        cost := cost + d.extras;
      }
      conceded := conceded + cost;
      if d.extraType != WD && d.extraType != NB {
        legal := legal + 1;
      }
      assert BowlLine(legal, conceded, wickets) == AddBowl(before, BowlBall(d, p));
      BowlingSnoc(balls[..i], d, p);
      assert balls[..i + 1] == balls[..i] + [d];
      i := i + 1;
    }
    assert balls[..i] == balls;
  }

  /** A batting row is shown once the player has faced a ball or is named
      as out on any ball. */
  predicate BattingRowShown(log: seq<Delivery>, p: Id) {
    CalcBatting(log, p).ballCount > 0 || exists i :: 0 <= i < |log| && log[i].playerOut == Some(p)
  }

  /** A bowling row is shown once the player has bowled a legal ball. */
  predicate BowlingRowShown(log: seq<Delivery>, p: Id) {
    Bowling(log, p).legal > 0
  }

  /** Every dismissed player has a row, and a bowler's row is shown exactly
      when the overs column would read other than "0.0". */
  lemma RowsShown(log: seq<Delivery>, bowlingPlayers: seq<Player>, p: Id)
    ensures DismissalText(log, bowlingPlayers, p) != "not out" ==> BattingRowShown(log, p)
    ensures BowlingRowShown(log, p) <==> OversText(Bowling(log, p).legal) != "0.0"
  {
    DismissalTextCredits(log, bowlingPlayers, p);
    OversTextZero(Bowling(log, p).legal);
  }

  // ---------------------------------------------------------------- fall of wickets

  /** One fall-of-wickets entry: the score when the wicket fell, the wicket
      number, who was out and the ball's number. */
  datatype FallEntry = FallEntry(score: nat, count: nat, name: string, overNumber: int, ballNumber: int)

  /** `${score}-${count} (${name}, ${over}.${ball})`. */
  function FallText(e: FallEntry): string {
    Concat([NatToString(e.score), "-", NatToString(e.count), " (", e.name, ", ",
            IntToString(e.overNumber), ".", IntToString(e.ballNumber), ")"])
  }

  /** The strings one after another. */
  function Concat(parts: seq<string>): string {
    if parts == [] then "" else parts[0] + Concat(parts[1..])
  }

  function FallTexts(entries: seq<FallEntry>): seq<string> {
    if entries == [] then [] else FallTexts(Init(entries)) + [FallText(Last(entries))]
  }

  /** The name of the player out, "Player" when not in the batting side. */
  function OutName(battingPlayers: seq<Player>, out: Id): string {
    match FindPlayer(battingPlayers, out)
    case Some(p) => p.name
    case None => "Player"
  }

  /** The fall of wickets: one entry per wicket ball naming a player out,
      with the score including that ball. */
  function Falls(log: seq<Delivery>, battingPlayers: seq<Player>): seq<FallEntry> {
    if log == [] then []
    else
      var before := Falls(Init(log), battingPlayers);
      var d := Last(log);
      if d.isWicket && d.playerOut.Some? then
        before + [FallEntry(TotalRuns(log), |before| + 1, OutName(battingPlayers, d.playerOut.value), d.overNumber, d.ballNumber)]
      else before
  }

  lemma FallsSnoc(s: seq<Delivery>, d: Delivery, battingPlayers: seq<Player>)
    ensures TotalRuns(s + [d]) == TotalRuns(s) + d.runsBatter + d.extras
    ensures Falls(s + [d], battingPlayers) ==
      Falls(s, battingPlayers)
        + if d.isWicket && d.playerOut.Some? then
            [FallEntry(TotalRuns(s + [d]), |Falls(s, battingPlayers)| + 1, OutName(battingPlayers, d.playerOut.value), d.overNumber, d.ballNumber)]
          else []
  {
    InitOfAppend(s, d);
  }

  lemma FallTextsSnoc(entries: seq<FallEntry>, e: FallEntry)
    ensures FallTexts(entries + [e]) == FallTexts(entries) + [FallText(e)]
  {
    InitOfAppend(entries, e);
  }

  /** `fallOfWickets`: a running score and wicket count over the log. */
  method FallOfWickets(log: seq<Delivery>, battingPlayers: seq<Player>) returns (entries: seq<string>)
    ensures entries == FallTexts(Falls(log, battingPlayers))
  {
    var score, count := 0, 0;
    entries := [];
    var i := 0;
    while i < |log|
      invariant 0 <= i <= |log|
      invariant score == TotalRuns(log[..i])
      invariant count == |Falls(log[..i], battingPlayers)|
      invariant entries == FallTexts(Falls(log[..i], battingPlayers))
    {
      var d := log[i];
      assert log[..i + 1] == log[..i] + [d];
      FallsSnoc(log[..i], d, battingPlayers);
      ghost var before := Falls(log[..i], battingPlayers);
      score := score + (d.runsBatter + d.extras);
      assert score == TotalRuns(log[..i + 1]);
      if d.isWicket && d.playerOut.Some? {
        count := count + 1;
        var name := OutName(battingPlayers, d.playerOut.value);
        var e := FallEntry(score, count, name, d.overNumber, d.ballNumber);
        assert Falls(log[..i + 1], battingPlayers) == before + [e];
        FallTextsSnoc(before, e);
        entries := entries + [FallText(e)];
      } else {
        assert Falls(log[..i + 1], battingPlayers) == before;
      }
      i := i + 1;
    }
    assert log[..i] == log;
  }

  /** The entries are numbered 1, 2, ... in order, their scores never go
      down and never pass the innings total, there are no more of them than
      wickets, and an innings ending on a wicket ends on its total. */
  lemma {:induction false} FallsProperties(log: seq<Delivery>, battingPlayers: seq<Player>)
    ensures var f := Falls(log, battingPlayers);
      && |f| <= WicketCount(log)
      && (forall k :: 0 <= k < |f| ==> f[k].count == k + 1 && f[k].score <= TotalRuns(log))
      && (forall j, k :: 0 <= j <= k < |f| ==> f[j].score <= f[k].score)
      && (log != [] && Last(log).isWicket && Last(log).playerOut.Some? ==> f != [] && Last(f).score == TotalRuns(log))
  {
    if log != [] {
      var s := Init(log);
      FallsProperties(s, battingPlayers);
      assert s + [Last(log)] == log;
      AppendOne(s, Last(log));
    }
  }

  // ---------------------------------------------------------------- the result line

  /** `innings.find(i => i.innings_number === n)`. */
  function FindInnings(innings: seq<Views.Innings>, n: int): (r: Option<Views.Innings>)
    ensures r.Some? ==> r.value in innings && r.value.number == n
    ensures r.None? <==> forall k :: 0 <= k < |innings| ==> innings[k].number != n
    ensures r.Some? ==>
      exists k :: 0 <= k < |innings| && innings[k] == r.value && forall j :: 0 <= j < k ==> innings[j].number != n
  {
    if innings == [] then None
    else if innings[0].number == n then Some(innings[0])
    else FindInnings(innings[1..], n)
  }

  /** `resultText`: the tie, the runs margin of a side defending, the
      wickets in hand of a side chasing; nothing without both innings or a
      winner. Team sizes come from the side batting second. */
  function ResultText(innings: seq<Views.Innings>, winnerId: Option<Id>, teamA: Team, teamB: Team): Option<string> {
    var inn1, inn2 := FindInnings(innings, 1), FindInnings(innings, 2);
    if inn1.None? || inn2.None? then None
    else if inn1.value.totalRuns == inn2.value.totalRuns then Some("Match tied")
    else if winnerId.None? || winnerId.value == 0 then None
    else if winnerId.value == inn1.value.battingTeam then
      Some("Won by " + IntToString(inn1.value.totalRuns - inn2.value.totalRuns) + " runs")
    else if winnerId.value == inn2.value.battingTeam then
      var side := if teamA.id == inn2.value.battingTeam then teamA else teamB;
      var left := |side.players| - inn2.value.totalWickets;
      Some("Won by " + NatToString(if left > 0 then left else 0) + " wickets")
    else None
  }

  /** With the winner the server picks, the line names the margin of the
      side with more runs: runs ahead when defending, wickets in hand when
      chasing. */
  lemma ResultMatchesWinner(first: Views.Innings, second: Views.Innings, teamA: Team, teamB: Team)
    requires first.number == 1 && second.number == 2
    requires first.battingTeam != second.battingTeam && first.battingTeam != 0 && second.battingTeam != 0
    ensures var w := Views.Winner(first, second);
      var side := if teamA.id == second.battingTeam then teamA else teamB;
      ResultText([first, second], w, teamA, teamB) ==
        if first.totalRuns == second.totalRuns then Some("Match tied")
        else if first.totalRuns > second.totalRuns then
          Some("Won by " + IntToString(first.totalRuns - second.totalRuns) + " runs")
        else Some("Won by " + NatToString(if |side.players| - second.totalWickets > 0 then |side.players| - second.totalWickets else 0) + " wickets")
  {
    assert FindInnings([first, second], 1) == Some(first);
    assert [first, second][1..] == [second];
    assert FindInnings([first, second], 2) == Some(second);
  }

  // ---------------------------------------------------------------- the list

  /** A match as listed: its id and status. */
  datatype Listing = Listing(id: Id, status: Status)

  function Completed(ms: seq<Listing>): seq<Listing> {
    if ms == [] then [] else Completed(Init(ms)) + (if Last(ms).status == Models.Completed then [Last(ms)] else [])
  }

  /** The history: finished matches only, the last fetched first. */
  function HistoryList(ms: seq<Listing>): seq<Listing> {
    Reversed(Completed(ms))
  }

  /** The filter keeps fetch order: the completed matches of a longer list
      are those of its first part, then those of the rest. */
  lemma {:induction false} CompletedAppend(a: seq<Listing>, b: seq<Listing>)
    ensures Completed(a + b) == Completed(a) + Completed(b)
  {
    if b == [] {
      assert a + b == a;
    } else {
      CompletedAppend(a, Init(b));
      assert a + b == (a + Init(b)) + [Last(b)];
      InitOfAppend(a + Init(b), Last(b));
    }
  }

  lemma {:induction false} CompletedMembers(ms: seq<Listing>)
    ensures forall m :: m in Completed(ms) <==> m in ms && m.status == Models.Completed
  {
    if ms != [] {
      CompletedMembers(Init(ms));
      assert ms == Init(ms) + [Last(ms)];
    }
  }

  lemma ReversedMembers<T>(s: seq<T>)
    ensures forall x :: x in Reversed(s) <==> x in s
  {
    ReversedAt(s);
    forall x
      ensures x in Reversed(s) <==> x in s
    {
      if x in s {
        var k :| 0 <= k < |s| && s[k] == x;
        assert Reversed(s)[|s| - 1 - k] == x;
      }
      if x in Reversed(s) {
        var j :| 0 <= j < |s| && Reversed(s)[j] == x;
        assert s[|s| - 1 - j] == x;
      }
    }
  }

  /** Exactly the completed matches are listed, in reverse fetch order. */
  lemma HistoryListed(ms: seq<Listing>)
    ensures forall m :: m in HistoryList(ms) <==> m in ms && m.status == Models.Completed
    ensures |HistoryList(ms)| == |Completed(ms)|
    ensures forall k :: 0 <= k < |HistoryList(ms)| ==>
      HistoryList(ms)[k] == Completed(ms)[|Completed(ms)| - 1 - k]
  {
    CompletedMembers(ms);
    ReversedAt(Completed(ms));
    ReversedMembers(Completed(ms));
  }
}
