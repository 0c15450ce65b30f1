/**
  The first pass of `updateTracking`: every active player, in ascending id
  order (the insertion order of the source's `Map`, since ids are inserted in
  increasing order), claims its best-scoring unclaimed detection within
  `MaxDistance`; a player that claims nothing ages and may be removed.
  Euclidean distance (`Math.sqrt`) is left abstract as the `dist` parameter.
 */
module Matching {
  import opened Options
  import opened Features
  import opened Players
  import opened State

  /** The distance between two positions, supplied by the caller. */
  type Metric = (Point, Point) -> real

  /** Weight of the distance in the combined score. */
  const DistanceWeight: real := 0.6
  /** Weight of the appearance mismatch (scaled to 0..100) in the combined score. */
  const AppearanceWeight: real := 0.4

  function Distance(p: Player, d: Detection, dist: Metric): real
  {
    dist(p.lastPosition, Position(d))
  }

  /** The combined score `0.6·distance + 0.4·(1 − similarity)·100`; lower is better. */
  function Score(p: Player, d: Detection, dist: Metric): (score: real)
    ensures score >= Distance(p, d, dist) * DistanceWeight
    ensures score == Distance(p, d, dist) * DistanceWeight <==> p.features == d.features
    ensures ColorInRange(p.features.dominantColor) && ColorInRange(d.features.dominantColor) ==>
      score <= Distance(p, d, dist) * DistanceWeight + 100.0 * AppearanceWeight
  {
    Distance(p, d, dist) * DistanceWeight + (1.0 - FeatureSimilarity(p.features, d.features)) * 100.0 * AppearanceWeight
  }

  /** Detection `i` is still unclaimed and close enough for `p`. */
  predicate Eligible(p: Player, dets: seq<Detection>, used: set<nat>, dist: Metric, i: nat)
    requires i < |dets|
  {
    i !in used && Distance(p, dets[i], dist) < MaxDistance
  }

  /** No detection below index `m` is eligible for `p`. */
  predicate NoneEligible(p: Player, dets: seq<Detection>, used: set<nat>, dist: Metric, m: nat)
    requires m <= |dets|
  {
    forall i :: 0 <= i < m ==> !Eligible(p, dets, used, dist, i)
  }

  /**
    The reference choice: `j` is eligible, no eligible detection below `m`
    scores lower, and every eligible detection before `j` scores strictly
    higher (ties go to the lowest index).
   */
  predicate IsBestAmong(p: Player, dets: seq<Detection>, used: set<nat>, dist: Metric, m: nat, j: nat)
    requires m <= |dets|
  {
    && j < m
    && Eligible(p, dets, used, dist, j)
    && (forall i :: 0 <= i < m && Eligible(p, dets, used, dist, i) ==>
          Score(p, dets[j], dist) <= Score(p, dets[i], dist))
    && (forall i :: 0 <= i < j && Eligible(p, dets, used, dist, i) ==>
          Score(p, dets[j], dist) < Score(p, dets[i], dist))
  }

  /**
    The inner `forEach` of the first pass after its first `m` iterations:
    the best detection so far, replaced only by a strictly lower score.
   */
  function BestMatch(p: Player, dets: seq<Detection>, used: set<nat>, dist: Metric, m: nat): (r: Option<nat>)
    requires m <= |dets|
    ensures r.None? <==> NoneEligible(p, dets, used, dist, m)
    ensures r.Some? ==> IsBestAmong(p, dets, used, dist, m, r.value)
  {
    if m == 0 then None
    else
      var best := BestMatch(p, dets, used, dist, m - 1);
      var i := m - 1;
      var r :=
        if Eligible(p, dets, used, dist, i)
           && (best.None? || Score(p, dets[i], dist) < Score(p, dets[best.value], dist))
        then Some(i)
        else best;
      BestMatchExtend(p, dets, used, dist, m, best, r);
      r
  }

  /** One more iteration of the scan keeps both halves of `BestMatch`'s contract. */
  lemma {:induction false} BestMatchExtend(p: Player, dets: seq<Detection>, used: set<nat>, dist: Metric, m: nat,
                                           best: Option<nat>, r: Option<nat>)
    requires 1 <= m <= |dets|
    requires best.None? <==> NoneEligible(p, dets, used, dist, m - 1)
    requires best.Some? ==> IsBestAmong(p, dets, used, dist, m - 1, best.value)
    requires r == if Eligible(p, dets, used, dist, m - 1)
                     && (best.None? || Score(p, dets[m - 1], dist) < Score(p, dets[best.value], dist))
                  then Some(m - 1)
                  else best
    ensures r.None? <==> NoneEligible(p, dets, used, dist, m)
    ensures r.Some? ==> IsBestAmong(p, dets, used, dist, m, r.value)
  {
    if r.Some? && r.value == m - 1 {
      forall i | 0 <= i < m && Eligible(p, dets, used, dist, i)
        ensures Score(p, dets[m - 1], dist) <= Score(p, dets[i], dist)
      {
        if i < m - 1 {
          assert Score(p, dets[best.value], dist) <= Score(p, dets[i], dist);
        }
      }
    }
  }

  /** The reference choice is unique, so the scan returns exactly it. */
  lemma {:induction false} BestMatchIsTheBest(p: Player, dets: seq<Detection>, used: set<nat>, dist: Metric, j: nat)
    ensures BestMatch(p, dets, used, dist, |dets|) == Some(j) <==> IsBestAmong(p, dets, used, dist, |dets|, j)
  {
    var r := BestMatch(p, dets, used, dist, |dets|);
    if IsBestAmong(p, dets, used, dist, |dets|, j) {
      assert r.Some?;
    }
  }

  /** A player's claim in the first pass: detection index `detection`. */
  datatype Claim = Claim(playerId: int, detection: nat)

  /** The ids of the players that made the claims. */
  function ClaimedIds(claims: seq<Claim>): set<int>
  {
    if claims == [] then {} else ClaimedIds(claims[..|claims| - 1]) + {claims[|claims| - 1].playerId}
  }

  /** The detection indices claimed by players with an id below `id`. */
  function UsedBelow(claims: seq<Claim>, id: int): set<nat>
  {
    if claims == [] then {}
    else
      var last := claims[|claims| - 1];
      UsedBelow(claims[..|claims| - 1], id) + (if last.playerId < id then {last.detection} else {})
  }

  /** All claimed detection indices. */
  function ClaimedDetections(claims: seq<Claim>): set<nat>
  {
    if claims == [] then {} else ClaimedDetections(claims[..|claims| - 1]) + {claims[|claims| - 1].detection}
  }

  /** The state of the first pass: tracker, claimed indices, claims and output so far. */
  datatype MatchState = MatchState(
    tracker: TrackerState,
    used: set<nat>,
    claims: seq<Claim>,
    output: seq<TrackedObject>)

  /** One iteration of the outer loop, for the player with key `id`. */
  function MatchPlayer(m: MatchState, dets: seq<Detection>, time: real, dist: Metric, id: int): (r: MatchState)
    ensures id !in m.tracker.players ==> r == m
    ensures id in m.tracker.players && NoneEligible(m.tracker.players[id], dets, m.used, dist, |dets|) ==>
      r == m.(tracker := Age(m.tracker, id))
    ensures forall j :: id in m.tracker.players && IsBestAmong(m.tracker.players[id], dets, m.used, dist, |dets|, j) ==>
      r == ClaimedBy(m, dets, time, id, j)
  {
    if id !in m.tracker.players then m
    else
      match BestMatch(m.tracker.players[id], dets, m.used, dist, |dets|)
      case Some(j) => ClaimedBy(m, dets, time, id, j)
      case None =>
        m.(tracker := Age(m.tracker, id))
  }

  /** The state after player `id` claims detection `j`. */
  function ClaimedBy(m: MatchState, dets: seq<Detection>, time: real, id: int, j: nat): (r: MatchState)
    requires j < |dets|
    ensures id in m.tracker.players ==>
      r.tracker.players == m.tracker.players[id := Observe(m.tracker.players[id], dets[j], time)]
    ensures id !in m.tracker.players ==> r.tracker.players == m.tracker.players
    ensures MissCount(r.tracker, id) == 0
    ensures r.tracker.nextPlayerId == m.tracker.nextPlayerId && r.tracker.playerHistory == m.tracker.playerHistory
    ensures r.used == m.used + {j} && r.claims == m.claims + [Claim(id, j)]
    ensures |r.output| == |m.output| + 1 && r.output[..|m.output|] == m.output
    ensures r.output[|m.output|].id == id && r.output[|m.output|].status == Tracked
    ensures Copies(r.output[|m.output|], dets[j])
  {
    MatchState(MarkSeen(UpdatePlayer(m.tracker, id, dets[j], time), id),
               m.used + {j}, m.claims + [Claim(id, j)],
               m.output + [Report(id, dets[j], Tracked)])
  }

  /** The first pass after visiting the ids `1 .. k-1` in ascending order. */
  function MatchUpTo(s: TrackerState, dets: seq<Detection>, time: real, dist: Metric, k: int): (m: MatchState)
    requires k >= 1
    ensures m.tracker.nextPlayerId == s.nextPlayerId && m.tracker.playerHistory == s.playerHistory
    ensures |m.claims| == |m.output|
    decreases k
  {
    if k == 1 then MatchState(s, {}, [], [])
    else MatchPlayer(MatchUpTo(s, dets, time, dist, k - 1), dets, time, dist, k - 1)
  }

  /** The whole first pass over the state `s`. */
  function FirstPass(s: TrackerState, dets: seq<Detection>, time: real, dist: Metric): (m: MatchState)
    requires Valid(s)
    ensures m.tracker.nextPlayerId == s.nextPlayerId && m.tracker.playerHistory == s.playerHistory
  {
    MatchUpTo(s, dets, time, dist, s.nextPlayerId)
  }
}
