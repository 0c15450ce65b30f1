/**
  `attemptReidentification`: scan every stored player, in ascending id order,
  for the one whose descriptor is most similar to a detection's, accepting
  only similarities strictly above `ReidentificationThreshold`. Ties keep
  the first (lowest) id, because the scan replaces only on a strictly
  higher similarity.
 */
module Reidentification {
  import opened Options
  import opened Features
  import opened Players
  import opened State

  /** How similar the stored player `id` is to the descriptor `f`. */
  function Similarity(players: map<int, Player>, id: int, f: FeatureVector): (sim: real)
    requires id in players
    ensures sim <= 1.0
    ensures sim == 1.0 <==> players[id].features == f
  {
    FeatureSimilarity(players[id].features, f)
  }

  /** Player `id` is stored and similar enough to `f` to be re-identified. */
  predicate Candidate(players: map<int, Player>, id: int, f: FeatureVector)
  {
    id in players && Similarity(players, id, f) > ReidentificationThreshold
  }

  /** No id in `[1, k)` is a candidate. */
  predicate NoCandidateBelow(players: map<int, Player>, f: FeatureVector, k: int)
  {
    forall id :: 1 <= id < k ==> !Candidate(players, id, f)
  }

  /**
    The reference choice among the ids in `[1, k)`: `j` is a candidate, no
    candidate is more similar, and every candidate below `j` is strictly less
    similar.
   */
  predicate IsBestBelow(players: map<int, Player>, f: FeatureVector, k: int, j: int)
  {
    && 1 <= j < k
    && Candidate(players, j, f)
    && (forall id :: 1 <= id < k && Candidate(players, id, f) ==>
          Similarity(players, id, f) <= Similarity(players, j, f))
    && (forall id :: 1 <= id < j && Candidate(players, id, f) ==>
          Similarity(players, id, f) < Similarity(players, j, f))
  }

  /**
    The scan after visiting the ids `1 .. k-1`: the best similarity starts at
    0 and a player replaces the current best only when it beats both that
    best and the threshold.
   */
  function ReidUpTo(players: map<int, Player>, f: FeatureVector, k: int): (r: Option<int>)
    requires k >= 1
    ensures r.None? <==> NoCandidateBelow(players, f, k)
    ensures r.Some? ==> IsBestBelow(players, f, k, r.value)
    decreases k
  {
    if k == 1 then None
    else
      var best := ReidUpTo(players, f, k - 1);
      var id := k - 1;
      var bestSimilarity := if best.Some? then Similarity(players, best.value, f) else 0.0;
      if id in players
         && Similarity(players, id, f) > bestSimilarity
         && Similarity(players, id, f) > ReidentificationThreshold
      then
        assert Candidate(players, id, f);
        Some(id)
      else best
  }

  /** No stored player is a candidate. */
  predicate NoCandidate(players: map<int, Player>, f: FeatureVector)
  {
    forall id :: id in players ==> !Candidate(players, id, f)
  }

  /** The reference choice among all stored players. */
  predicate IsBestCandidate(players: map<int, Player>, f: FeatureVector, j: int)
  {
    && Candidate(players, j, f)
    && (forall id :: id in players && Candidate(players, id, f) ==>
          Similarity(players, id, f) <= Similarity(players, j, f))
    && (forall id :: id in players && id < j && Candidate(players, id, f) ==>
          Similarity(players, id, f) < Similarity(players, j, f))
  }

  /**
    `attemptReidentification` on the state `t`: since every key lies in
    `[1, nextPlayerId)`, scanning that range visits every stored player.
   */
  function Reidentify(t: TrackerState, f: FeatureVector): (r: Option<int>)
    requires t.nextPlayerId >= 1 && KeysInRange(t)
    ensures r.None? <==> NoCandidate(t.players, f)
    ensures r.Some? ==> IsBestCandidate(t.players, f, r.value)
  {
    ReidUpTo(t.players, f, t.nextPlayerId)
  }

  /** The reference choice is unique, so `Reidentify` returns exactly it. */
  lemma {:induction false} ReidentifyIsTheBest(t: TrackerState, f: FeatureVector, j: int)
    requires t.nextPlayerId >= 1 && KeysInRange(t)
    ensures Reidentify(t, f) == Some(j) <==> IsBestCandidate(t.players, f, j)
  {
    var r := Reidentify(t, f);
    if IsBestCandidate(t.players, f, j) {
      assert r.Some?;
    }
  }

  /** A player that carries exactly the detection's descriptor is always re-identified. */
  lemma {:induction false} ExactMatchIsReidentified(t: TrackerState, f: FeatureVector, id: int)
    requires t.nextPlayerId >= 1 && KeysInRange(t)
    requires id in t.players && t.players[id].features == f
    ensures Reidentify(t, f).Some?
    ensures Similarity(t.players, Reidentify(t, f).value, f) == 1.0
  {
    assert Candidate(t.players, id, f);
  }
}
