/** The live bowling card (frontend/src/components/BowlingCard.jsx): each
    bowler's figures, which rows are shown, and which players the bowler
    menu offers at the start of an over. */
module BowlingCard {
  import opened Models
  import opened Stats
  import Views
  import Scoreboard

  /** The bowler of the last legal ball, if any. */
  function PrevOverBowler(log: seq<Delivery>): Option<Id> {
    match LastLegal(log)
    case None => None
    case Some(d) => Some(d.bowler)
  }

  /** The next legal ball opens an over. */
  predicate StartOfOver(log: seq<Delivery>) {
    LegalCount(log) % 6 == 0
  }

  /** The menu leaves this player out: an over is starting and the player
      bowled the last one (an id of 0 reads as no bowler). */
  predicate Withheld(log: seq<Delivery>, id: Id) {
    StartOfOver(log) && PrevOverBowler(log).Some? && PrevOverBowler(log).value != 0 && id == PrevOverBowler(log).value
  }

  /** The players the bowler menu offers, in team order. */
  function SelectableBowlers(players: seq<Player>, log: seq<Delivery>): seq<Player> {
    if players == [] then []
    else (if Withheld(log, players[0].id) then [] else [players[0]]) + SelectableBowlers(players[1..], log)
  }

  /** The menu offers every player of the side except the previous over's
      bowler when an over is starting. */
  lemma {:induction false} SelectableMembers(players: seq<Player>, log: seq<Delivery>)
    ensures forall p :: p in SelectableBowlers(players, log) <==> p in players && !Withheld(log, p.id)
    ensures |SelectableBowlers(players, log)| <= |players|
  {
    if players != [] {
      SelectableMembers(players[1..], log);
      assert players == [players[0]] + players[1..];
    }
  }

  /** The menu keeps team order: the players offered from two lists joined
      are those offered from the first, then those from the second. */
  lemma {:induction false} SelectableAppend(a: seq<Player>, b: seq<Player>, log: seq<Delivery>)
    ensures SelectableBowlers(a + b, log) == SelectableBowlers(a, log) + SelectableBowlers(b, log)
  {
    if a == [] {
      assert a + b == b;
    } else {
      var head := if Withheld(log, a[0].id) then [] else [a[0]];
      assert (a + b)[1..] == a[1..] + b;
      assert SelectableBowlers(a + b, log) == head + SelectableBowlers(a[1..] + b, log);
      SelectableAppend(a[1..], b, log);
      assert SelectableBowlers(a, log) == head + SelectableBowlers(a[1..], log);
    }
  }

  /** The menu withholds exactly the bowler the scoreboard refuses before
      posting, and for a real player id exactly the one the server refuses. */
  lemma WithheldMatchesRefusals(log: seq<Delivery>, id: Id)
    ensures Withheld(log, id) <==> Scoreboard.RefusesBowler(log, id)
    ensures id != 0 ==> (Withheld(log, id) <==> Views.ConsecutiveOver(log, id))
  {
    if id != 0 {
      Scoreboard.RefusalMatchesServer(log, id);
    }
  }

  /** The overs cell: the number 0 when the innings has no delivery list,
      otherwise the overs text. */
  datatype OversCell = Count(n: nat) | Shown(text: string)

  datatype BowlingStats = BowlingStats(overs: OversCell, maidens: nat, runs: nat, wickets: nat)

  /** `getStats`. */
  function GetStats(deliveries: Option<seq<Delivery>>, p: Id): BowlingStats {
    match deliveries
    case None => BowlingStats(Count(0), 0, 0, 0)
    case Some(log) =>
      var mine := FiguresOf(log, p);
      BowlingStats(Shown(OversText(mine.legal)), 0, mine.conceded, mine.wickets)
  }

  /** The card's own one-pass reading of the bowler's balls. */
  function FiguresOf(log: seq<Delivery>, p: Id): BowlLine {
    if log == [] then NoBowling()
    else
      var d := log[0];
      var rest := FiguresOf(log[1..], p);
      if d.bowler != p then rest
      else BowlLine(rest.legal + (if d.extraType in {WD, NB} then 0 else 1),
                    rest.conceded + d.runsBatter + (if d.extraType in {WD, NB} then d.extras else 0),
                    rest.wickets + (if d.isWicket && d.wicketType != RunOut then 1 else 0))
  }

  lemma FiguresStep(log: seq<Delivery>, p: Id)
    requires log != []
    ensures FiguresOf(log, p) == AddBowl(BowlBall(log[0], p), FiguresOf(log[1..], p))
  {
  }

  lemma BowlingOne(d: Delivery, p: Id)
    ensures Bowling([d], p) == BowlBall(d, p)
  {
    assert Init([d]) == [];
  }

  /** The card's reading agrees with the bowling figures of the awards and
      the history page. */
  lemma {:induction false} FiguresOfIsBowling(log: seq<Delivery>, p: Id)
    ensures FiguresOf(log, p) == Bowling(log, p)
  {
    if log != [] {
      FiguresOfIsBowling(log[1..], p);
      assert log == [log[0]] + log[1..];
      BowlingAppend([log[0]], log[1..], p);
      BowlingOne(log[0], p);
      FiguresStep(log, p);
    }
  }

  /** With a delivery list the card shows the bowler's figures, never a
      maiden; without one every cell is zero. */
  lemma GetStatsAgrees(log: seq<Delivery>, p: Id)
    ensures GetStats(Some(log), p) ==
      BowlingStats(Shown(OversText(Bowling(log, p).legal)), 0, Bowling(log, p).conceded, Bowling(log, p).wickets)
    ensures Bowling(log, p).legal <= LegalCount(log) && Bowling(log, p).wickets <= WicketCount(log)
    ensures GetStats(None, p) == BowlingStats(Count(0), 0, 0, 0)
  {
    FiguresOfIsBowling(log, p);
    BowlingBounds(log, p);
  }

  /** A row is hidden when its overs read "0.0" and the player is not the
      current bowler. */
  predicate RowHidden(deliveries: Option<seq<Delivery>>, current: Option<Player>, p: Id) {
    GetStats(deliveries, p).overs == Shown("0.0") && !(current.Some? && current.value.id == p)
  }

  /** Without a delivery list no row is hidden; with one, exactly the
      players other than the current bowler who have bowled no legal ball
      (so a bowler of only wides and no-balls is hidden). */
  lemma RowHiddenIff(deliveries: Option<seq<Delivery>>, current: Option<Player>, p: Id)
    ensures deliveries.None? ==> !RowHidden(deliveries, current, p)
    ensures deliveries.Some? ==>
      (RowHidden(deliveries, current, p) <==> Bowling(deliveries.value, p).legal == 0 && !(current.Some? && current.value.id == p))
  {
    if deliveries.Some? {
      GetStatsAgrees(deliveries.value, p);
      OversTextZero(Bowling(deliveries.value, p).legal);
    }
  }
}
