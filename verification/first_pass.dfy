/**
  What the first pass guarantees: the frame it leaves untouched, the shape of
  its claims (one detection per player, one player per detection, ascending
  player order), the outcome for every player, and greedy optimality of every
  claim against the detections still unclaimed at that player's turn.
 */
module FirstPassProofs {
  import opened Players
  import opened State
  import opened Matching

  lemma {:induction false} ClaimedIdsAppend(claims: seq<Claim>, x: Claim)
    ensures ClaimedIds(claims + [x]) == ClaimedIds(claims) + {x.playerId}
    ensures UsedBelow(claims + [x], x.playerId) == UsedBelow(claims, x.playerId)
    ensures ClaimedDetections(claims + [x]) == ClaimedDetections(claims) + {x.detection}
  {
    assert (claims + [x])[..|claims|] == claims;
  }

  lemma {:induction false} UsedBelowAppend(claims: seq<Claim>, x: Claim, id: int)
    requires id <= x.playerId
    ensures UsedBelow(claims + [x], id) == UsedBelow(claims, id)
  {
    assert (claims + [x])[..|claims|] == claims;
  }

  /** When every claim is by a player below `id`, the claims below `id` are all the claims. */
  lemma {:induction false} UsedBelowAll(claims: seq<Claim>, id: int)
    requires forall c :: 0 <= c < |claims| ==> claims[c].playerId < id
    ensures UsedBelow(claims, id) == ClaimedDetections(claims)
  {
    if claims != [] {
      UsedBelowAll(claims[..|claims| - 1], id);
    }
  }

  /** A claimed id is the id of some claim. */
  lemma {:induction false} ClaimedIdsMember(claims: seq<Claim>, id: int)
    requires id in ClaimedIds(claims)
    ensures exists c :: 0 <= c < |claims| && claims[c].playerId == id
  {
    if claims[|claims| - 1].playerId != id {
      ClaimedIdsMember(claims[..|claims| - 1], id);
      var c :| 0 <= c < |claims| - 1 && claims[..|claims| - 1][c].playerId == id;
      assert claims[c].playerId == id;
    }
  }

  /** Every claim's index is claimed. */
  lemma {:induction false} ClaimedDetectionsMember(claims: seq<Claim>)
    ensures forall c :: 0 <= c < |claims| ==> claims[c].detection in ClaimedDetections(claims)
  {
    if claims != [] {
      ClaimedDetectionsMember(claims[..|claims| - 1]);
      assert forall c :: 0 <= c < |claims| - 1 ==> claims[c] == claims[..|claims| - 1][c];
    }
  }

  /** A claimed index is the detection of some claim. */
  lemma {:induction false} ClaimedDetectionsWitness(claims: seq<Claim>, j: nat)
    requires j in ClaimedDetections(claims)
    ensures exists c :: 0 <= c < |claims| && claims[c].detection == j
  {
    if claims[|claims| - 1].detection != j {
      ClaimedDetectionsWitness(claims[..|claims| - 1], j);
      var c :| 0 <= c < |claims| - 1 && claims[..|claims| - 1][c].detection == j;
      assert claims[c].detection == j;
    }
  }

  /** The part of the tracker the first pass has not reached yet is still that of `s`. */
  predicate FrameInv(s: TrackerState, t: TrackerState, k: int)
  {
    && s.framesSinceLastSeen.Keys == s.players.Keys
    && t.nextPlayerId == s.nextPlayerId
    && t.playerHistory == s.playerHistory
    && t.players.Keys <= s.players.Keys
    && t.framesSinceLastSeen.Keys == t.players.Keys
    && PlayersWellFormed(t.players)
    && (forall id :: id in s.players && id >= k ==>
          id in t.players && t.players[id] == s.players[id]
          && t.framesSinceLastSeen[id] == s.framesSinceLastSeen[id])
  }

  lemma {:induction false} ObserveFrame(s: TrackerState, t: TrackerState, d: Detection, time: real, id: int)
    requires FrameInv(s, t, id) && id in t.players
    ensures FrameInv(s, MarkSeen(UpdatePlayer(t, id, d, time), id), id + 1)
  {
    var u := UpdatePlayer(t, id, d, time);
    var q := Observe(t.players[id], d, time);
    assert u.players == t.players[id := q];
    assert q.id == id && 1 <= |q.trackingHistory| <= MaxTrackingHistory;
    var r := MarkSeen(u, id);
    assert r.players == t.players[id := q];
    assert r.framesSinceLastSeen == t.framesSinceLastSeen[id := 0];
    assert r.framesSinceLastSeen.Keys == r.players.Keys;
    assert PlayersWellFormed(r.players);
    assert forall k :: k in s.players && k >= id + 1 ==> k in r.players && r.players[k] == s.players[k];
  }

  lemma {:induction false} AgeFrame(s: TrackerState, t: TrackerState, id: int)
    requires FrameInv(s, t, id) && id in t.players
    ensures FrameInv(s, Age(t, id), id + 1)
  {
  }

  lemma {:induction false} MatchPlayerFrame(s: TrackerState, m: MatchState, dets: seq<Detection>, time: real, dist: Metric, id: int)
    requires FrameInv(s, m.tracker, id)
    ensures FrameInv(s, MatchPlayer(m, dets, time, dist, id).tracker, id + 1)
  {
    var t := m.tracker;
    if id in t.players {
      match BestMatch(t.players[id], dets, m.used, dist, |dets|)
      case Some(j) => ObserveFrame(s, t, dets[j], time, id);
      case None => AgeFrame(s, t, id);
    }
  }

  /**
    The claims so far: each names an in-range detection and an active player
    below `k`, player ids strictly increase (so no player claims twice), no
    detection is claimed twice, `used` is exactly the claimed indices, and
    the output reports each claim as `tracked` with that detection's box.
   */
  predicate ClaimsInv(s: TrackerState, dets: seq<Detection>, m: MatchState, k: int)
  {
    && |m.output| == |m.claims|
    && (forall c :: 0 <= c < |m.claims| ==>
          && m.claims[c].detection < |dets|
          && 1 <= m.claims[c].playerId < k
          && m.claims[c].playerId in s.players
          && m.output[c] == Report(m.claims[c].playerId, dets[m.claims[c].detection], Tracked))
    && (forall c1, c2 :: 0 <= c1 < c2 < |m.claims| ==> m.claims[c1].playerId < m.claims[c2].playerId)
    && (forall c1, c2 :: 0 <= c1 < c2 < |m.claims| ==> m.claims[c1].detection != m.claims[c2].detection)
    && m.used == ClaimedDetections(m.claims)
    && IdsOf(m.output) == ClaimedIds(m.claims)
  }

  lemma {:induction false} ClaimStep(s: TrackerState, dets: seq<Detection>, m: MatchState, id: int, j: nat, time: real)
    requires ClaimsInv(s, dets, m, id) && id in s.players && 1 <= id
    requires j < |dets| && j !in m.used
    ensures ClaimsInv(s, dets, ClaimedBy(m, dets, time, id, j), id + 1)
  {
    ClaimedIdsAppend(m.claims, Claim(id, j));
    IdsOfAppend(m.output, Report(id, dets[j], Tracked));
    ClaimedDetectionsMember(m.claims);
  }

  lemma {:induction false} MatchPlayerClaims(s: TrackerState, m: MatchState, dets: seq<Detection>, time: real, dist: Metric, id: int)
    requires ClaimsInv(s, dets, m, id) && FrameInv(s, m.tracker, id) && 1 <= id
    ensures ClaimsInv(s, dets, MatchPlayer(m, dets, time, dist, id), id + 1)
  {
    var t := m.tracker;
    if id in t.players {
      match BestMatch(t.players[id], dets, m.used, dist, |dets|)
      case Some(j) => ClaimStep(s, dets, m, id, j, time);
      case None =>
    }
  }

  /**
    Outcome of the first pass for every player it has visited: a claiming
    player was observed with its detection and its miss-counter is 0; a
    player that claimed nothing was deleted when its counter already exceeded
    the limit and otherwise kept unchanged with its counter one higher.
   */
  predicate OutcomeInv(s: TrackerState, dets: seq<Detection>, time: real, m: MatchState, k: int)
  {
    ClaimedOutcome(s, dets, time, m) && UnclaimedOutcome(s, m, k)
  }

  /** Every claiming player was observed with its detection and its counter is 0. */
  predicate ClaimedOutcome(s: TrackerState, dets: seq<Detection>, time: real, m: MatchState)
  {
    var t := m.tracker;
    forall c :: 0 <= c < |m.claims| ==>
      var id := m.claims[c].playerId;
      id in s.players && m.claims[c].detection < |dets| ==>
        && id in t.players && id in t.framesSinceLastSeen
        && t.framesSinceLastSeen[id] == 0
        && t.players[id] == Observe(s.players[id], dets[m.claims[c].detection], time)
  }

  /** Every visited player that claimed nothing was aged. */
  predicate UnclaimedOutcome(s: TrackerState, m: MatchState, k: int)
  {
    var t := m.tracker;
    forall id :: id in s.players && id < k && id !in ClaimedIds(m.claims) ==>
      && (MissCount(s, id) > MaxFramesBeforeRemoval ==> id !in t.players)
      && (MissCount(s, id) <= MaxFramesBeforeRemoval ==>
            && id in t.players && t.players[id] == s.players[id]
            && id in t.framesSinceLastSeen
            && t.framesSinceLastSeen[id] == MissCount(s, id) + 1)
  }

  lemma {:induction false} ClaimedOutcomeStep(s: TrackerState, dets: seq<Detection>, time: real, m: MatchState, id: int, j: nat)
    requires ClaimedOutcome(s, dets, time, m)
    requires forall c :: 0 <= c < |m.claims| ==> m.claims[c].playerId < id
    requires id in m.tracker.players && id in s.players && m.tracker.players[id] == s.players[id] && j < |dets|
    ensures ClaimedOutcome(s, dets, time, ClaimedBy(m, dets, time, id, j))
  {
    var t := m.tracker;
    var m' := ClaimedBy(m, dets, time, id, j);
    var r := m'.tracker;
    assert r.players == t.players[id := Observe(s.players[id], dets[j], time)];
    assert r.framesSinceLastSeen == t.framesSinceLastSeen[id := 0];
    forall c | 0 <= c < |m'.claims|
      ensures var pid := m'.claims[c].playerId;
        pid in s.players && m'.claims[c].detection < |dets| ==>
          && pid in r.players && pid in r.framesSinceLastSeen
          && r.framesSinceLastSeen[pid] == 0
          && r.players[pid] == Observe(s.players[pid], dets[m'.claims[c].detection], time)
    {
      if c < |m.claims| {
        assert m'.claims[c] == m.claims[c];
      }
    }
  }

  lemma {:induction false} UnclaimedOutcomeStep(s: TrackerState, dets: seq<Detection>, time: real, m: MatchState, id: int, j: nat)
    requires UnclaimedOutcome(s, m, id)
    requires id in m.tracker.players && j < |dets|
    ensures UnclaimedOutcome(s, ClaimedBy(m, dets, time, id, j), id + 1)
  {
    ClaimedIdsAppend(m.claims, Claim(id, j));
  }

  lemma {:induction false} OutcomeClaimStep(s: TrackerState, dets: seq<Detection>, time: real, m: MatchState, id: int, j: nat)
    requires OutcomeInv(s, dets, time, m, id) && ClaimsInv(s, dets, m, id) && FrameInv(s, m.tracker, id)
    requires id in m.tracker.players && j < |dets|
    ensures OutcomeInv(s, dets, time, ClaimedBy(m, dets, time, id, j), id + 1)
  {
    ClaimedOutcomeStep(s, dets, time, m, id, j);
    UnclaimedOutcomeStep(s, dets, time, m, id, j);
  }

  lemma {:induction false} OutcomeAgeStep(s: TrackerState, dets: seq<Detection>, time: real, m: MatchState, id: int)
    requires OutcomeInv(s, dets, time, m, id) && ClaimsInv(s, dets, m, id) && FrameInv(s, m.tracker, id)
    requires id in m.tracker.players
    ensures OutcomeInv(s, dets, time, m.(tracker := Age(m.tracker, id)), id + 1)
  {
    assert MissCount(m.tracker, id) == MissCount(s, id);
    if id in ClaimedIds(m.claims) {
      ClaimedIdsMember(m.claims, id);
    }
    forall c | 0 <= c < |m.claims|
      ensures m.claims[c].playerId != id
    {
    }
  }

  lemma {:induction false} MatchPlayerOutcome(s: TrackerState, m: MatchState, dets: seq<Detection>, time: real, dist: Metric, id: int)
    requires OutcomeInv(s, dets, time, m, id) && ClaimsInv(s, dets, m, id) && FrameInv(s, m.tracker, id)
    ensures OutcomeInv(s, dets, time, MatchPlayer(m, dets, time, dist, id), id + 1)
  {
    var t := m.tracker;
    if id in t.players {
      match BestMatch(t.players[id], dets, m.used, dist, |dets|)
      case Some(j) => OutcomeClaimStep(s, dets, time, m, id, j);
      case None => OutcomeAgeStep(s, dets, time, m, id);
    } else {
      assert id !in s.players;
    }
  }

  /**
    Greedy optimality: each claim is the reference best choice for its player
    among the detections not claimed by lower ids, and a player that claimed
    nothing had no eligible detection left at its turn.
   */
  predicate GreedyInv(s: TrackerState, dets: seq<Detection>, dist: Metric, m: MatchState, k: int)
  {
    GreedyClaims(s, dets, dist, m.claims) && GreedyUnclaimed(s, dets, dist, m.claims, k)
  }

  /** Each claim is the reference best choice at its player's turn. */
  predicate GreedyClaims(s: TrackerState, dets: seq<Detection>, dist: Metric, claims: seq<Claim>)
  {
    forall c :: 0 <= c < |claims| ==>
      var id := claims[c].playerId;
      id in s.players ==>
        IsBestAmong(s.players[id], dets, UsedBelow(claims, id), dist, |dets|, claims[c].detection)
  }

  /** Each visited player that claimed nothing had no eligible detection left at its turn. */
  predicate GreedyUnclaimed(s: TrackerState, dets: seq<Detection>, dist: Metric, claims: seq<Claim>, k: int)
  {
    forall id :: id in s.players && id < k && id !in ClaimedIds(claims) ==>
      NoneEligible(s.players[id], dets, UsedBelow(claims, id), dist, |dets|)
  }

  lemma {:induction false} GreedyClaimsStep(s: TrackerState, dets: seq<Detection>, dist: Metric, claims: seq<Claim>, used: set<nat>, id: int, j: nat)
    requires GreedyClaims(s, dets, dist, claims)
    requires forall c :: 0 <= c < |claims| ==> claims[c].playerId < id
    requires used == ClaimedDetections(claims)
    requires id in s.players && IsBestAmong(s.players[id], dets, used, dist, |dets|, j)
    ensures GreedyClaims(s, dets, dist, claims + [Claim(id, j)])
  {
    var claims' := claims + [Claim(id, j)];
    UsedBelowAll(claims, id);
    ClaimedIdsAppend(claims, Claim(id, j));
    forall c | 0 <= c < |claims'|
      ensures var pid := claims'[c].playerId;
        pid in s.players ==>
          IsBestAmong(s.players[pid], dets, UsedBelow(claims', pid), dist, |dets|, claims'[c].detection)
    {
      var pid := claims'[c].playerId;
      if c < |claims| {
        UsedBelowAppend(claims, Claim(id, j), pid);
      }
    }
  }

  lemma {:induction false} GreedyUnclaimedStep(s: TrackerState, dets: seq<Detection>, dist: Metric, claims: seq<Claim>, id: int, j: nat)
    requires GreedyUnclaimed(s, dets, dist, claims, id)
    ensures GreedyUnclaimed(s, dets, dist, claims + [Claim(id, j)], id + 1)
  {
    var claims' := claims + [Claim(id, j)];
    ClaimedIdsAppend(claims, Claim(id, j));
    forall pid | pid in s.players && pid < id + 1 && pid !in ClaimedIds(claims')
      ensures NoneEligible(s.players[pid], dets, UsedBelow(claims', pid), dist, |dets|)
    {
      UsedBelowAppend(claims, Claim(id, j), pid);
    }
  }

  lemma {:induction false} GreedyClaimStep(s: TrackerState, dets: seq<Detection>, dist: Metric, m: MatchState, id: int, j: nat)
    requires GreedyInv(s, dets, dist, m, id) && ClaimsInv(s, dets, m, id)
    requires id in s.players
    requires IsBestAmong(s.players[id], dets, m.used, dist, |dets|, j)
    ensures GreedyInv(s, dets, dist, m.(claims := m.claims + [Claim(id, j)]), id + 1)
  {
    GreedyClaimsStep(s, dets, dist, m.claims, m.used, id, j);
    GreedyUnclaimedStep(s, dets, dist, m.claims, id, j);
  }

  lemma {:induction false} GreedyAgeStep(s: TrackerState, dets: seq<Detection>, dist: Metric, m: MatchState, id: int)
    requires GreedyInv(s, dets, dist, m, id) && ClaimsInv(s, dets, m, id)
    requires id in s.players
    requires NoneEligible(s.players[id], dets, m.used, dist, |dets|)
    ensures GreedyInv(s, dets, dist, m, id + 1)
  {
    UsedBelowAll(m.claims, id);
  }

  /** Everything the first pass keeps true after visiting the ids below `k`. */
  predicate PassInv(s: TrackerState, dets: seq<Detection>, time: real, dist: Metric, m: MatchState, k: int)
  {
    && FrameInv(s, m.tracker, k)
    && ClaimsInv(s, dets, m, k)
    && OutcomeInv(s, dets, time, m, k)
    && GreedyInv(s, dets, dist, m, k)
  }

  lemma {:induction false} MatchPlayerStep(s: TrackerState, dets: seq<Detection>, time: real, dist: Metric, m: MatchState, m': MatchState, k: int)
    requires 2 <= k
    requires PassInv(s, dets, time, dist, m, k - 1)
    requires m' == MatchPlayer(m, dets, time, dist, k - 1)
    ensures PassInv(s, dets, time, dist, m', k)
  {
    var id := k - 1;
    var t := m.tracker;
    MatchPlayerFrame(s, m, dets, time, dist, id);
    MatchPlayerClaims(s, m, dets, time, dist, id);
    MatchPlayerOutcome(s, m, dets, time, dist, id);
    if id in t.players {
      assert t.players[id] == s.players[id];
      match BestMatch(t.players[id], dets, m.used, dist, |dets|)
      case Some(j) => GreedyClaimStep(s, dets, dist, m, id, j);
      case None => GreedyAgeStep(s, dets, dist, m, id);
    } else {
      assert id !in s.players;
    }
  }

  lemma {:induction false} PassInvStart(s: TrackerState, dets: seq<Detection>, time: real, dist: Metric)
    requires Valid(s)
    ensures PassInv(s, dets, time, dist, MatchState(s, {}, [], []), 1)
  {
    assert KeysInRange(s);
  }

  lemma {:induction false} MatchUpToStep(s: TrackerState, dets: seq<Detection>, time: real, dist: Metric, k: int)
    requires 2 <= k
    requires PassInv(s, dets, time, dist, MatchUpTo(s, dets, time, dist, k - 1), k - 1)
    ensures PassInv(s, dets, time, dist, MatchUpTo(s, dets, time, dist, k), k)
  {
    MatchPlayerStep(s, dets, time, dist, MatchUpTo(s, dets, time, dist, k - 1), MatchUpTo(s, dets, time, dist, k), k);
  }

  /** The first pass keeps `PassInv` from its start up to id `k`. */
  lemma {:induction false} MatchUpToInv(s: TrackerState, dets: seq<Detection>, time: real, dist: Metric, k: int)
    requires Valid(s) && 1 <= k <= s.nextPlayerId
    ensures PassInv(s, dets, time, dist, MatchUpTo(s, dets, time, dist, k), k)
  {
    if k == 1 {
      PassInvStart(s, dets, time, dist);
    } else {
      MatchUpToInv(s, dets, time, dist, k - 1);
      MatchUpToStep(s, dets, time, dist, k);
    }
  }

  /** `PassInv` holds of the whole first pass. */
  lemma {:induction false} FirstPassInv(s: TrackerState, dets: seq<Detection>, time: real, dist: Metric)
    requires Valid(s)
    ensures PassInv(s, dets, time, dist, FirstPass(s, dets, time, dist), s.nextPlayerId)
  {
    MatchUpToInv(s, dets, time, dist, s.nextPlayerId);
  }

  lemma {:induction false} FirstPassFrame(s: TrackerState, dets: seq<Detection>, time: real, dist: Metric)
    requires Valid(s)
    ensures FrameInv(s, FirstPass(s, dets, time, dist).tracker, s.nextPlayerId)
  {
    FirstPassInv(s, dets, time, dist);
  }

  lemma {:induction false} FirstPassClaims(s: TrackerState, dets: seq<Detection>, time: real, dist: Metric)
    requires Valid(s)
    ensures ClaimsInv(s, dets, FirstPass(s, dets, time, dist), s.nextPlayerId)
  {
    FirstPassInv(s, dets, time, dist);
  }

  lemma {:induction false} FirstPassOutcome(s: TrackerState, dets: seq<Detection>, time: real, dist: Metric)
    requires Valid(s)
    ensures OutcomeInv(s, dets, time, FirstPass(s, dets, time, dist), s.nextPlayerId)
  {
    FirstPassInv(s, dets, time, dist);
  }

  lemma {:induction false} FirstPassGreedy(s: TrackerState, dets: seq<Detection>, time: real, dist: Metric)
    requires Valid(s)
    ensures GreedyInv(s, dets, dist, FirstPass(s, dets, time, dist), s.nextPlayerId)
  {
    FirstPassInv(s, dets, time, dist);
  }

  /** The first pass keeps the tracker invariant. */
  lemma {:induction false} FirstPassValid(s: TrackerState, dets: seq<Detection>, time: real, dist: Metric)
    requires Valid(s)
    ensures Valid(FirstPass(s, dets, time, dist).tracker)
  {
    FirstPassFrame(s, dets, time, dist);
    assert KeysInRange(s);
  }
}
