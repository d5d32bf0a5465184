/** The end-of-match awards of MatchViewSet.bowl (backend/api/views.py:164-218):
    best batsman, best bowler and man of the match, picked from the deliveries
    of every innings of the match. */
module Awards {
  import opened Models
  import opened Stats

  // ---------------------------------------------------------------- choosing the first best

  /** Python's ordering of 2-tuples. */
  predicate LexLess(a: (int, int), b: (int, int)) {
    a.0 < b.0 || (a.0 == b.0 && a.1 < b.1)
  }

  /** Index `i` holds the FIRST smallest key: every earlier key is strictly
      larger and no later key is smaller. This is the head of a stable sort,
      `sorted(ids, key=k)[0]`, and, with negated keys, `max(d, key=d.get)`. */
  predicate IsFirstMin(keys: seq<(int, int)>, i: int) {
    && 0 <= i < |keys|
    && (forall j :: 0 <= j < i ==> LexLess(keys[i], keys[j]))
    && (forall j :: i < j < |keys| ==> !LexLess(keys[j], keys[i]))
  }

  function FirstMin(keys: seq<(int, int)>): (i: nat)
    requires keys != []
    ensures IsFirstMin(keys, i)
  {
    if |keys| == 1 then 0
    else
      var i0 := FirstMin(Init(keys));
      assert forall j :: 0 <= j < |keys| - 1 ==> Init(keys)[j] == keys[j];
      if LexLess(Last(keys), keys[i0]) then |keys| - 1 else i0
  }

  // ---------------------------------------------------------------- candidates and their keys

  /** Keys of `batsmen_stats`: every striker, in order of first appearance. */
  function Batsmen(log: seq<Delivery>): seq<Id> {
    FirstSeen(BatsmanIds(log))
  }

  /** Keys of `bowler_stats`: every bowler, in order of first appearance. */
  function Bowlers(log: seq<Delivery>): seq<Id> {
    FirstSeen(BowlerIds(log))
  }

  /** Keys of `mom_points`, filled first from `batsmen_stats` and then from
      `bowler_stats`: the batsmen, then the bowlers who did not bat. */
  function MomCandidates(log: seq<Delivery>): seq<Id> {
    FirstSeen(Batsmen(log) + Bowlers(log))
  }

  /** Best batsman: most runs, then fewest balls faced (wides not faced). */
  function BatKey(log: seq<Delivery>, p: Id): (int, int) {
    (-(Batting(log, p).runs as int), Batting(log, p).balls)
  }

  /** Best bowler: most credited wickets, then fewest runs conceded. */
  function BowlKey(log: seq<Delivery>, p: Id): (int, int) {
    (-(Bowling(log, p).wickets as int), Bowling(log, p).conceded)
  }

  /** Man of the match points: runs plus 20 per credited wicket. */
  function MomPoints(log: seq<Delivery>, p: Id): int {
    Batting(log, p).runs + 20 * Bowling(log, p).wickets
  }

  function MomKey(log: seq<Delivery>, p: Id): (int, int) {
    (-MomPoints(log, p), 0)
  }

  function BatKeys(log: seq<Delivery>, ids: seq<Id>): (keys: seq<(int, int)>)
    ensures |keys| == |ids|
  {
    seq(|ids|, k requires 0 <= k < |ids| => BatKey(log, ids[k]))
  }

  function BowlKeys(log: seq<Delivery>, ids: seq<Id>): (keys: seq<(int, int)>)
    ensures |keys| == |ids|
  {
    seq(|ids|, k requires 0 <= k < |ids| => BowlKey(log, ids[k]))
  }

  function MomKeys(log: seq<Delivery>, ids: seq<Id>): (keys: seq<(int, int)>)
    ensures |keys| == |ids|
  {
    seq(|ids|, k requires 0 <= k < |ids| => MomKey(log, ids[k]))
  }

  // ---------------------------------------------------------------- the awards

  function BestBatsman(log: seq<Delivery>): Option<Id> {
    var ids := Batsmen(log);
    if ids == [] then None else Some(ids[FirstMin(BatKeys(log, ids))])
  }

  function BestBowler(log: seq<Delivery>): Option<Id> {
    var ids := Bowlers(log);
    if ids == [] then None else Some(ids[FirstMin(BowlKeys(log, ids))])
  }

  function ManOfMatch(log: seq<Delivery>): Option<Id> {
    var ids := MomCandidates(log);
    if ids == [] then None else Some(ids[FirstMin(MomKeys(log, ids))])
  }

  lemma FirstSeenEmpty(ids: seq<Id>)
    ensures FirstSeen(ids) == [] <==> ids == []
  {
    FirstSeenSpec(ids);
    if ids != [] {
      assert ids[0] in ids;
    }
  }

  /** The best batsman batted, no one scored more, and no one with as many
      runs faced fewer balls; ties go to whoever batted first. */
  lemma BestBatsmanIsBest(log: seq<Delivery>)
    ensures BestBatsman(log).Some? <==> log != []
    ensures BestBatsman(log).Some? ==>
      var p := BestBatsman(log).value;
      && p in BatsmanIds(log)
      && forall q :: q in BatsmanIds(log) ==>
           && Batting(log, q).runs <= Batting(log, p).runs
           && (Batting(log, q).runs == Batting(log, p).runs ==> Batting(log, p).balls <= Batting(log, q).balls)
  {
    var ids := Batsmen(log);
    FirstSeenEmpty(BatsmanIds(log));
    FirstSeenSpec(BatsmanIds(log));
    if ids != [] {
      var keys := BatKeys(log, ids);
      var i := FirstMin(keys);
      var p := ids[i];
      forall q | q in BatsmanIds(log)
        ensures Batting(log, q).runs <= Batting(log, p).runs
        ensures Batting(log, q).runs == Batting(log, p).runs ==> Batting(log, p).balls <= Batting(log, q).balls
      {
        var k :| 0 <= k < |ids| && ids[k] == q;
        assert keys[k] == BatKey(log, q) && keys[i] == BatKey(log, p);
        if k < i { assert LexLess(keys[i], keys[k]); } else if k > i { assert !LexLess(keys[k], keys[i]); }
      }
    }
  }

  /** The best bowler bowled, no one took more credited wickets, and no one
      with as many conceded fewer runs; ties go to whoever bowled first. */
  lemma BestBowlerIsBest(log: seq<Delivery>)
    ensures BestBowler(log).Some? <==> log != []
    ensures BestBowler(log).Some? ==>
      var p := BestBowler(log).value;
      && p in BowlerIds(log)
      && forall q :: q in BowlerIds(log) ==>
           && Bowling(log, q).wickets <= Bowling(log, p).wickets
           && (Bowling(log, q).wickets == Bowling(log, p).wickets ==> Bowling(log, p).conceded <= Bowling(log, q).conceded)
  {
    var ids := Bowlers(log);
    FirstSeenEmpty(BowlerIds(log));
    FirstSeenSpec(BowlerIds(log));
    if ids != [] {
      var keys := BowlKeys(log, ids);
      var i := FirstMin(keys);
      var p := ids[i];
      forall q | q in BowlerIds(log)
        ensures Bowling(log, q).wickets <= Bowling(log, p).wickets
        ensures Bowling(log, q).wickets == Bowling(log, p).wickets ==> Bowling(log, p).conceded <= Bowling(log, q).conceded
      {
        var k :| 0 <= k < |ids| && ids[k] == q;
        assert keys[k] == BowlKey(log, q) && keys[i] == BowlKey(log, p);
        if k < i { assert LexLess(keys[i], keys[k]); } else if k > i { assert !LexLess(keys[k], keys[i]); }
      }
    }
  }

  /** The man of the match has the most points of anyone who batted or
      bowled; among equals the first batsman, else the first bowler, wins. */
  lemma ManOfMatchIsBest(log: seq<Delivery>)
    ensures ManOfMatch(log).Some? <==> log != []
    ensures ManOfMatch(log).Some? ==>
      var p := ManOfMatch(log).value;
      && (p in BatsmanIds(log) || p in BowlerIds(log))
      && forall q :: q in BatsmanIds(log) || q in BowlerIds(log) ==> MomPoints(log, q) <= MomPoints(log, p)
  {
    var ids := MomCandidates(log);
    FirstSeenSpec(BatsmanIds(log));
    FirstSeenSpec(BowlerIds(log));
    FirstSeenSpec(Batsmen(log) + Bowlers(log));
    if log != [] {
      assert Last(log).batsman in BatsmanIds(log);
      assert Last(log).batsman in Batsmen(log) + Bowlers(log);
    } else {
      assert Batsmen(log) + Bowlers(log) == [];
    }
    if ids != [] {
      var keys := MomKeys(log, ids);
      var i := FirstMin(keys);
      var p := ids[i];
      assert p in Batsmen(log) + Bowlers(log);
      forall q | q in BatsmanIds(log) || q in BowlerIds(log)
        ensures MomPoints(log, q) <= MomPoints(log, p)
      {
        assert q in Batsmen(log) + Bowlers(log);
        var k :| 0 <= k < |ids| && ids[k] == q;
        assert keys[k] == MomKey(log, q) && keys[i] == MomKey(log, p);
        if k < i { assert LexLess(keys[i], keys[k]); } else if k > i { assert !LexLess(keys[k], keys[i]); }
      }
    }
  }

  // ---------------------------------------------------------------- the loops of views.py

  lemma PrefixStep(all: seq<Delivery>, i: nat)
    requires i < |all|
    ensures all[..i + 1] != [] && Init(all[..i + 1]) == all[..i] && Last(all[..i + 1]) == all[i]
  {
  }

  lemma AppendInit(s: seq<Delivery>, d: Delivery)
    ensures s + [d] != [] && Init(s + [d]) == s && Last(s + [d]) == d
  {
  }

  /** A player's entry of `batsmen_stats`: runs and balls faced. */
  function BatPair(log: seq<Delivery>, p: Id): (int, int) {
    (Batting(log, p).runs as int, Batting(log, p).balls as int)
  }

  /** A player's entry of `bowler_stats`: credited wickets and runs conceded. */
  function BowlPair(log: seq<Delivery>, p: Id): (int, int) {
    (Bowling(log, p).wickets as int, Bowling(log, p).conceded as int)
  }

  /** `stats` and `order` hold `batsmen_stats` after the deliveries of `log`. */
  ghost predicate BatTable(log: seq<Delivery>, stats: map<Id, (int, int)>, order: seq<Id>) {
    && order == Batsmen(log)
    && (forall p :: p in stats <==> p in order)
    && (forall p :: p in stats ==> stats[p] == BatPair(log, p))
  }

  /** `bowler_stats` after the deliveries of `log`. */
  ghost predicate BowlTable(log: seq<Delivery>, stats: map<Id, (int, int)>, order: seq<Id>) {
    && order == Bowlers(log)
    && (forall p :: p in stats <==> p in order)
    && (forall p :: p in stats ==> stats[p] == BowlPair(log, p))
  }

  /** The entry of `p`, or a fresh zero entry. */
  function Entry(stats: map<Id, (int, int)>, p: Id): (int, int) {
    if p in stats then stats[p] else (0, 0)
  }

  lemma BatPairStep(s: seq<Delivery>, d: Delivery, p: Id)
    ensures BatPair(s + [d], p) ==
      if d.batsman == p then (BatPair(s, p).0 + d.runsBatter, if d.extraType != WD then BatPair(s, p).1 + 1 else BatPair(s, p).1)
      else BatPair(s, p)
  {
    AppendInit(s, d);
  }

  lemma BowlPairStep(s: seq<Delivery>, d: Delivery, p: Id)
    ensures BowlPair(s + [d], p) ==
      if d.bowler == p then (if Credited(d) then BowlPair(s, p).0 + 1 else BowlPair(s, p).0, BowlPair(s, p).1 + Cost(d))
      else BowlPair(s, p)
  {
    AppendInit(s, d);
  }

  lemma BatsmenStep(s: seq<Delivery>, d: Delivery)
    ensures Batsmen(s + [d]) == if d.batsman in Batsmen(s) then Batsmen(s) else Batsmen(s) + [d.batsman]
  {
    AppendInit(s, d);
    assert BatsmanIds(s + [d]) == BatsmanIds(s) + [d.batsman];
    FirstSeenStep(BatsmanIds(s), d.batsman);
  }

  lemma BowlersStep(s: seq<Delivery>, d: Delivery)
    ensures Bowlers(s + [d]) == if d.bowler in Bowlers(s) then Bowlers(s) else Bowlers(s) + [d.bowler]
  {
    AppendInit(s, d);
    assert BowlerIds(s + [d]) == BowlerIds(s) + [d.bowler];
    FirstSeenStep(BowlerIds(s), d.bowler);
  }

  /** One more delivery updates only its striker's entry of `batsmen_stats`. */
  lemma BatTableAppend(s: seq<Delivery>, d: Delivery, stats: map<Id, (int, int)>, order: seq<Id>,
                       stats': map<Id, (int, int)>, order': seq<Id>)
    requires BatTable(s, stats, order)
    requires order' == (if d.batsman in stats then order else order + [d.batsman])
    requires forall p :: p in stats' <==> p in stats || p == d.batsman
    requires forall p :: p in stats' && p != d.batsman ==> stats'[p] == stats[p]
    requires stats'[d.batsman] == (Entry(stats, d.batsman).0 + d.runsBatter,
                                   if d.extraType != WD then Entry(stats, d.batsman).1 + 1 else Entry(stats, d.batsman).1)
    ensures BatTable(s + [d], stats', order')
  {
    var b := d.batsman;
    BatsmenStep(s, d);
    assert Entry(stats, b) == BatPair(s, b) by {
      if b !in stats {
        FirstSeenSpec(BatsmanIds(s));
        NeverBatted(s, b);
      }
    }
    forall p | p in stats'
      ensures stats'[p] == BatPair(s + [d], p)
    {
      BatPairStep(s, d, p);
    }
  }

  /** One more delivery updates only its bowler's entry of `bowler_stats`. */
  lemma BowlTableAppend(s: seq<Delivery>, d: Delivery, stats: map<Id, (int, int)>, order: seq<Id>,
                        stats': map<Id, (int, int)>, order': seq<Id>)
    requires BowlTable(s, stats, order)
    requires order' == (if d.bowler in stats then order else order + [d.bowler])
    requires forall p :: p in stats' <==> p in stats || p == d.bowler
    requires forall p :: p in stats' && p != d.bowler ==> stats'[p] == stats[p]
    requires stats'[d.bowler] == (if Credited(d) then Entry(stats, d.bowler).0 + 1 else Entry(stats, d.bowler).0,
                                  Entry(stats, d.bowler).1 + Cost(d))
    ensures BowlTable(s + [d], stats', order')
  {
    var b := d.bowler;
    BowlersStep(s, d);
    assert Entry(stats, b) == BowlPair(s, b) by {
      if b !in stats {
        FirstSeenSpec(BowlerIds(s));
        NeverBowled(s, b);
      }
    }
    forall p | p in stats'
      ensures stats'[p] == BowlPair(s + [d], p)
    {
      BowlPairStep(s, d, p);
    }
  }

  /** `batsmen_stats`: runs and balls faced per striker, keys in order of first appearance. */
  method BatsmenStats(all: seq<Delivery>) returns (stats: map<Id, (int, int)>, order: seq<Id>)
    ensures BatTable(all, stats, order)
  {
    stats, order := map[], [];
    var i := 0;
    while i < |all|
      invariant 0 <= i <= |all|
      invariant BatTable(all[..i], stats, order)
    {
      var d := all[i];
      ghost var stats0, order0 := stats, order;
      if d.batsman !in stats {
        stats := stats[d.batsman := (0, 0)];
        order := order + [d.batsman];
      }
      var (runs, balls) := stats[d.batsman];
      runs := runs + d.runsBatter;
      if d.extraType != WD {
        balls := balls + 1;
      }
      stats := stats[d.batsman := (runs, balls)];
      assert all[..i + 1] == all[..i] + [d];
      BatTableAppend(all[..i], d, stats0, order0, stats, order);
      i := i + 1;
    }
    assert all[..i] == all;
  }

  /** `bowler_stats`: credited wickets and runs conceded per bowler, keys in order of first appearance. */
  method BowlerStats(all: seq<Delivery>) returns (stats: map<Id, (int, int)>, order: seq<Id>)
    ensures BowlTable(all, stats, order)
  {
    stats, order := map[], [];
    var i := 0;
    while i < |all|
      invariant 0 <= i <= |all|
      invariant BowlTable(all[..i], stats, order)
    {
      var d := all[i];
      ghost var stats0, order0 := stats, order;
      if d.bowler !in stats {
        stats := stats[d.bowler := (0, 0)];
        order := order + [d.bowler];
      }
      var (wickets, runs) := stats[d.bowler];
      if d.isWicket && d.wicketType != RunOut {
        wickets := wickets + 1;
      }
      var runCost := d.runsBatter;
      if d.extraType == WD || d.extraType == NB {
        runCost := runCost + d.extras;
      }
      stats := stats[d.bowler := (wickets, runs + runCost)];
      assert all[..i + 1] == all[..i] + [d];
      BowlTableAppend(all[..i], d, stats0, order0, stats, order);
      i := i + 1;
    }
    assert all[..i] == all;
  }

  /** In a list without repeats, an id is not met before its own position. */
  lemma NewAt(s: seq<Id>, k: nat)
    requires Distinct(s) && k < |s|
    ensures s[k] in s && s[k] !in s[..k]
  {
  }

  lemma SliceStep(s: seq<Id>, k: nat)
    requires k < |s|
    ensures s[..k + 1] == s[..k] + [s[k]]
  {
  }

  /** Python's `d.get(k, default)`. */
  function Get(m: map<Id, int>, k: Id, default: int): (v: int)
    ensures k in m ==> v == m[k]
    ensures k !in m ==> v == default
  {
    if k in m then m[k] else default
  }

  /** `points` and `order` hold `mom_points` once the runs of every id in
      `bats` and then the wickets of every id in `bowls` have been added. */
  ghost predicate MomTable(all: seq<Delivery>, bats: seq<Id>, bowls: seq<Id>, points: map<Id, int>, order: seq<Id>) {
    && order == FirstSeen(bats + bowls)
    && (forall p :: p in points <==> p in order)
    && (forall p :: p in points ==>
          points[p] == (if p in bats then Batting(all, p).runs as int else 0)
                     + (if p in bowls then 20 * Bowling(all, p).wickets as int else 0))
  }

  lemma MomBatStep(all: seq<Delivery>, bats: seq<Id>, p: Id, points: map<Id, int>, order: seq<Id>,
                   points': map<Id, int>, order': seq<Id>)
    requires MomTable(all, bats, [], points, order) && p !in bats
    requires order' == (if p in points then order else order + [p])
    requires forall q :: q in points' <==> q in points || q == p
    requires forall q :: q in points' && q != p ==> points'[q] == points[q]
    requires points'[p] == Batting(all, p).runs
    ensures MomTable(all, bats + [p], [], points', order')
  {
    assert (bats + [p]) + [] == (bats + []) + [p];
    FirstSeenStep(bats + [], p);
  }

  lemma MomBowlStep(all: seq<Delivery>, bats: seq<Id>, bowls: seq<Id>, p: Id, points: map<Id, int>, order: seq<Id>,
                    points': map<Id, int>, order': seq<Id>)
    requires MomTable(all, bats, bowls, points, order) && p !in bowls
    requires order' == (if p in points then order else order + [p])
    requires forall q :: q in points' <==> q in points || q == p
    requires forall q :: q in points' && q != p ==> points'[q] == points[q]
    requires points'[p] == Get(points, p, 0) + 20 * Bowling(all, p).wickets
    ensures MomTable(all, bats, bowls + [p], points', order')
  {
    assert bats + (bowls + [p]) == (bats + bowls) + [p];
    FirstSeenStep(bats + bowls, p);
    FirstSeenSpec(bats + bowls);
  }

  /** The first loop filling `mom_points`: the runs of every batsman. */
  method AddRuns(all: seq<Delivery>, batStats: map<Id, (int, int)>, batOrder: seq<Id>)
    returns (points: map<Id, int>, order: seq<Id>)
    requires BatTable(all, batStats, batOrder)
    ensures MomTable(all, batOrder, [], points, order)
  {
    assert Distinct(batOrder) by { FirstSeenSpec(BatsmanIds(all)); }
    points, order := map[], [];
    var k := 0;
    assert batOrder[..k] + [] == [];
    while k < |batOrder|
      invariant 0 <= k <= |batOrder|
      invariant MomTable(all, batOrder[..k], [], points, order)
    {
      var p := batOrder[k];
      NewAt(batOrder, k);
      ghost var points0, order0 := points, order;
      assert p in batStats && batStats[p] == BatPair(all, p);
      if p !in points {
        order := order + [p];
      }
      points := points[p := Get(points, p, 0) + batStats[p].0];
      MomBatStep(all, batOrder[..k], p, points0, order0, points, order);
      SliceStep(batOrder, k);
      k := k + 1;
    }
    assert batOrder[..k] == batOrder;
  }

  /** The second loop filling `mom_points`: 20 points per wicket of every bowler. */
  method AddWickets(all: seq<Delivery>, bowlStats: map<Id, (int, int)>, bowlOrder: seq<Id>,
                    batOrder: seq<Id>, points0: map<Id, int>, order0: seq<Id>)
    returns (points: map<Id, int>, order: seq<Id>)
    requires BowlTable(all, bowlStats, bowlOrder)
    requires MomTable(all, batOrder, [], points0, order0)
    ensures MomTable(all, batOrder, bowlOrder, points, order)
  {
    assert Distinct(bowlOrder) by { FirstSeenSpec(BowlerIds(all)); }
    points, order := points0, order0;
    var k := 0;
    assert bowlOrder[..k] == [];
    while k < |bowlOrder|
      invariant 0 <= k <= |bowlOrder|
      invariant MomTable(all, batOrder, bowlOrder[..k], points, order)
    {
      var p := bowlOrder[k];
      NewAt(bowlOrder, k);
      ghost var points1, order1 := points, order;
      assert p in bowlStats && bowlStats[p] == BowlPair(all, p);
      if p !in points {
        order := order + [p];
      }
      points := points[p := Get(points, p, 0) + bowlStats[p].0 * 20];
      MomBowlStep(all, batOrder, bowlOrder[..k], p, points1, order1, points, order);
      SliceStep(bowlOrder, k);
      k := k + 1;
    }
    assert bowlOrder[..k] == bowlOrder;
  }

  /** `mom_points`: runs of every batsman, then 20 per wicket of every bowler. */
  method MomPointsTable(all: seq<Delivery>, batStats: map<Id, (int, int)>, batOrder: seq<Id>,
                        bowlStats: map<Id, (int, int)>, bowlOrder: seq<Id>)
    returns (points: map<Id, int>, order: seq<Id>)
    requires BatTable(all, batStats, batOrder) && BowlTable(all, bowlStats, bowlOrder)
    ensures order == MomCandidates(all)
    ensures forall p :: p in points <==> p in order
    ensures forall p :: p in points ==> points[p] == MomPoints(all, p)
  {
    points, order := AddRuns(all, batStats, batOrder);
    points, order := AddWickets(all, bowlStats, bowlOrder, batOrder, points, order);
    FirstSeenSpec(BatsmanIds(all));
    FirstSeenSpec(BowlerIds(all));
    forall p | p in points
      ensures points[p] == MomPoints(all, p)
    {
      if p !in batOrder { NeverBatted(all, p); }
      if p !in bowlOrder { NeverBowled(all, p); }
    }
  }

  lemma BatTableKeys(all: seq<Delivery>, stats: map<Id, (int, int)>, order: seq<Id>)
    requires BatTable(all, stats, order)
    ensures forall k :: 0 <= k < |order| ==> order[k] in stats
    ensures seq(|order|, k requires 0 <= k < |order| => (-stats[order[k]].0, stats[order[k]].1)) == BatKeys(all, order)
  {
    forall k | 0 <= k < |order|
      ensures order[k] in stats && BatKey(all, order[k]) == (-stats[order[k]].0, stats[order[k]].1)
    {
      var p := order[k];
      assert p in order;
      assert p in stats;
      assert stats[p] == (Batting(all, p).runs as int, Batting(all, p).balls as int);
    }
  }

  lemma BowlTableKeys(all: seq<Delivery>, stats: map<Id, (int, int)>, order: seq<Id>)
    requires BowlTable(all, stats, order)
    ensures forall k :: 0 <= k < |order| ==> order[k] in stats
    ensures seq(|order|, k requires 0 <= k < |order| => (-stats[order[k]].0, stats[order[k]].1)) == BowlKeys(all, order)
  {
    forall k | 0 <= k < |order|
      ensures order[k] in stats && BowlKey(all, order[k]) == (-stats[order[k]].0, stats[order[k]].1)
    {
      var p := order[k];
      assert p in order;
      assert p in stats;
      assert stats[p] == (Bowling(all, p).wickets as int, Bowling(all, p).conceded as int);
    }
  }

  lemma MomTableKeys(all: seq<Delivery>, points: map<Id, int>, order: seq<Id>)
    requires forall p :: p in points <==> p in order
    requires forall p :: p in points ==> points[p] == MomPoints(all, p)
    ensures forall k :: 0 <= k < |order| ==> order[k] in points
    ensures seq(|order|, k requires 0 <= k < |order| => (-points[order[k]], 0)) == MomKeys(all, order)
  {
    forall k | 0 <= k < |order|
      ensures order[k] in points && MomKey(all, order[k]) == (-points[order[k]], 0)
    {
      var p := order[k];
      assert p in order;
      assert p in points;
    }
  }

  /** The three awards, as views.py computes them when the second innings of a
      T20 match ends; `all` is every delivery of the match in innings order. */
  method ComputeAwards(all: seq<Delivery>) returns (bestBat: Option<Id>, bestBowl: Option<Id>, mom: Option<Id>)
    ensures bestBat == BestBatsman(all)
    ensures bestBowl == BestBowler(all)
    ensures mom == ManOfMatch(all)
  {
    var batStats, batOrder := BatsmenStats(all);
    bestBat := None;
    if |batOrder| > 0 {
      BatTableKeys(all, batStats, batOrder);
      var keys := seq(|batOrder|, k requires 0 <= k < |batOrder| => (-batStats[batOrder[k]].0, batStats[batOrder[k]].1));
      assert keys == BatKeys(all, batOrder);
      bestBat := Some(batOrder[FirstMin(keys)]);
    }

    var bowlStats, bowlOrder := BowlerStats(all);
    bestBowl := None;
    if |bowlOrder| > 0 {
      BowlTableKeys(all, bowlStats, bowlOrder);
      var keys := seq(|bowlOrder|, k requires 0 <= k < |bowlOrder| => (-bowlStats[bowlOrder[k]].0, bowlStats[bowlOrder[k]].1));
      assert keys == BowlKeys(all, bowlOrder);
      bestBowl := Some(bowlOrder[FirstMin(keys)]);
    }

    var points, order := MomPointsTable(all, batStats, batOrder, bowlStats, bowlOrder);
    mom := None;
    if |order| > 0 {
      MomTableKeys(all, points, order);
      var keys := seq(|order|, k requires 0 <= k < |order| => (-points[order[k]], 0));
      assert keys == MomKeys(all, order);
      mom := Some(order[FirstMin(keys)]);
    }
  }
}
