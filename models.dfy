/** The records of the scorer (backend/api/models.py): teams, players, matches,
    innings and deliveries, with their enumerations and defaults. Database ids
    become integers; foreign keys become ids. */
module Models {

  datatype Option<+T> = None | Some(value: T) {
    function GetOr(default: T): T {
      match this
      case Some(v) => v
      case None => default
    }
  }

  /** Database ids of players and teams (never 0: the database starts at 1). */
  type Id = int

  /** Delivery.EXTRA_TYPES; NoExtra is the stored 'NONE'. */
  datatype ExtraType = WD | NB | B | LB | NoExtra

  /** Delivery.WICKET_TYPES; NoWicket is the stored 'NONE'. */
  datatype WicketType = Bowled | Caught | Lbw | RunOut | Stumped | HitWicket | NoWicket

  /** Match.STATUS_CHOICES. */
  datatype Status = Setup | Live | Completed

  /** Match.FORMAT_CHOICES. */
  datatype Format = T20 | Test

  /** Match.TOSS_DECISION_CHOICES. */
  datatype TossDecision = Bat | Bowl

  /** The crease end a new batter walks in to after a wicket ('STRIKER' / 'NON_STRIKER'). */
  datatype End = StrikerEnd | NonStrikerEnd

  datatype Player = Player(id: Id, name: string, isCaptain: bool)

  datatype Team = Team(id: Id, name: string, players: seq<Player>)

  /** One ball as stored. `overNumber` is 0-based and `ballNumber` 1-based
      within the over; both are supplied by the client. */
  datatype Delivery = Delivery(
    overNumber: int,
    ballNumber: int,
    batsman: Id,
    nonStriker: Id,
    bowler: Id,
    runsBatter: nat,
    extras: nat,
    extraType: ExtraType,
    isWicket: bool,
    wicketType: WicketType,
    playerOut: Option<Id>,
    catcher: Option<Id>)

  /** Wides and no-balls are re-bowled; every other ball counts towards the over. */
  predicate IsLegalType(t: ExtraType) {
    t != WD && t != NB
  }

  predicate IsLegal(d: Delivery) {
    IsLegalType(d.extraType)
  }

  /** Runs the ball adds to the team total: off the bat plus extras. */
  function BallRuns(d: Delivery): nat {
    d.runsBatter + d.extras
  }

  /** A delivery with every defaulted field left at its default (models.py:100-107). */
  function DefaultDelivery(over: int, ball: int, batsman: Id, nonStriker: Id, bowler: Id): (d: Delivery)
    ensures IsLegal(d) && BallRuns(d) == 0 && !d.isWicket
    ensures d.wicketType == NoWicket && d.playerOut == None && d.catcher == None
    ensures d.batsman == batsman && d.nonStriker == nonStriker && d.bowler == bowler
  {
    Delivery(over, ball, batsman, nonStriker, bowler, 0, 0, NoExtra, false, NoWicket, None, None)
  }

  /** Delivery.Meta.ordering within one innings: by over number, then ball number. */
  predicate OrderedBefore(a: Delivery, b: Delivery) {
    a.overNumber < b.overNumber || (a.overNumber == b.overNumber && a.ballNumber <= b.ballNumber)
  }

  lemma OrderedBeforeTotalPreorder(a: Delivery, b: Delivery, c: Delivery)
    ensures OrderedBefore(a, a)
    ensures OrderedBefore(a, b) || OrderedBefore(b, a)
    ensures OrderedBefore(a, b) && OrderedBefore(b, c) ==> OrderedBefore(a, c)
  {
  }
}
