/**
  `updateTracking` as one transition of the tracker: the first pass (greedy
  matching and ageing) followed by the second pass (re-identification or a
  new player for every leftover detection), and what one call guarantees
  about its output, the players, the miss-counters, the ids and the history.
 */
module Tracking {
  import opened Players
  import opened State
  import opened Matching
  import opened FirstPassProofs
  import opened SecondPass

  /** The new state and the returned list of reports. */
  datatype StepResult = StepResult(state: TrackerState, output: seq<TrackedObject>)

  /** The tracker state and reports after the first pass, where the second pass starts. */
  function SecondPassStart(s: TrackerState, dets: seq<Detection>, time: real, dist: Metric): Progress
    requires Valid(s)
  {
    var m := FirstPass(s, dets, time, dist);
    Progress(m.tracker, m.output)
  }

  /** `updateTracking(detections, currentTime)`; the distance function is a parameter. */
  function Step(s: TrackerState, dets: seq<Detection>, time: real, dist: Metric): (r: StepResult)
    requires Valid(s)
    ensures Valid(r.state)
  {
    FirstPassValid(s, dets, time, dist);
    var q := ResolveUpTo(SecondPassStart(s, dets, time, dist), dets, FirstPass(s, dets, time, dist).used, time, |dets|);
    StepResult(q.tracker, q.output)
  }

  // ----- Which detection each report stands for -----

  function ClaimOrder(claims: seq<Claim>): (r: seq<nat>)
    ensures |r| == |claims|
    ensures forall c :: 0 <= c < |claims| ==> r[c] == claims[c].detection
  {
    seq(|claims|, c requires 0 <= c < |claims| => claims[c].detection)
  }

  /**
    For each report, the index of the detection it reports: first the
    detections claimed in the first pass, in player order, then the leftover
    indices in ascending order.
   */
  function DetectionOrder(s: TrackerState, dets: seq<Detection>, time: real, dist: Metric): seq<nat>
    requires Valid(s)
  {
    var m := FirstPass(s, dets, time, dist);
    ClaimOrder(m.claims) + Leftovers(m.used, |dets|)
  }

  /** `order` lists every index in `[0, n)` exactly once. */
  predicate IsIndexPermutation(order: seq<nat>, n: nat)
  {
    && (forall c :: 0 <= c < |order| ==> order[c] < n)
    && (forall c1, c2 :: 0 <= c1 < c2 < |order| ==> order[c1] != order[c2])
    && (forall j :: 0 <= j < n ==> j in order)
  }

  /** The indices `0 .. n-1` as a set. */
  function Below(n: nat): set<nat>
  {
    if n == 0 then {} else Below(n - 1) + {n - 1}
  }

  lemma {:induction false} BelowFacts(n: nat)
    ensures forall j :: j in Below(n) <==> 0 <= j < n
    ensures |Below(n)| == n
  {
    if n > 0 {
      BelowFacts(n - 1);
      assert n - 1 !in Below(n - 1);
    }
  }

  /** The elements of a list of indices. */
  function Elements(xs: seq<nat>): set<nat>
  {
    set x | x in xs
  }

  lemma {:induction false} DistinctCard(xs: seq<nat>)
    requires forall c1, c2 :: 0 <= c1 < c2 < |xs| ==> xs[c1] != xs[c2]
    ensures |Elements(xs)| == |xs|
  {
    if xs != [] {
      var init := xs[..|xs| - 1];
      DistinctCard(init);
      assert Elements(xs) == Elements(init) + {xs[|xs| - 1]};
      assert xs[|xs| - 1] !in Elements(init);
    }
  }

  /** A list of every index in `[0, n)` exactly once has length `n`. */
  lemma {:induction false} PermutationLength(order: seq<nat>, n: nat)
    requires IsIndexPermutation(order, n)
    ensures |order| == n
  {
    DistinctCard(order);
    BelowFacts(n);
    assert Elements(order) == Below(n);
  }

  /** No index is listed twice: claims never share a detection and leftovers are unclaimed. */
  lemma {:induction false} OrderIsDistinct(claims: seq<Claim>, used: set<nat>, n: nat)
    requires forall c1, c2 :: 0 <= c1 < c2 < |claims| ==> claims[c1].detection != claims[c2].detection
    requires used == ClaimedDetections(claims)
    ensures var order := ClaimOrder(claims) + Leftovers(used, n);
      forall c1, c2 :: 0 <= c1 < c2 < |order| ==> order[c1] != order[c2]
  {
    var claimed := ClaimOrder(claims);
    var leftovers := Leftovers(used, n);
    var order := claimed + leftovers;
    ClaimedDetectionsMember(claims);
    forall c1, c2 | 0 <= c1 < c2 < |order|
      ensures order[c1] != order[c2]
    {
      if c2 < |claimed| {
        assert order[c1] == claims[c1].detection && order[c2] == claims[c2].detection;
      } else if c1 < |claimed| {
        assert order[c1] == claims[c1].detection;
        assert order[c2] == leftovers[c2 - |claimed|];
      } else {
        assert order[c1] == leftovers[c1 - |claimed|] && order[c2] == leftovers[c2 - |claimed|];
      }
    }
  }

  /** Every index is listed: a claimed one among the claims, any other among the leftovers. */
  lemma {:induction false} OrderCovers(s: TrackerState, dets: seq<Detection>, m: MatchState, k: int)
    requires ClaimsInv(s, dets, m, k)
    ensures var order := ClaimOrder(m.claims) + Leftovers(m.used, |dets|);
      && (forall c :: 0 <= c < |order| ==> order[c] < |dets|)
      && (forall j :: 0 <= j < |dets| ==> j in order)
  {
    var claimed := ClaimOrder(m.claims);
    var leftovers := Leftovers(m.used, |dets|);
    var order := claimed + leftovers;
    forall c | 0 <= c < |order|
      ensures order[c] < |dets|
    {
      if c < |claimed| {
        assert order[c] == m.claims[c].detection;
      } else {
        assert order[c] == leftovers[c - |claimed|];
      }
    }
    forall j | 0 <= j < |dets|
      ensures j in order
    {
      if j in m.used {
        ClaimedDetectionsWitness(m.claims, j);
        var c :| 0 <= c < |m.claims| && m.claims[c].detection == j;
        assert order[c] == j;
      } else {
        var c :| 0 <= c < |leftovers| && leftovers[c] == j;
        assert order[|claimed| + c] == j;
      }
    }
  }

  /**
    The reports after both passes: those of the claims, then one per leftover,
    each copying its detection and `tracked` exactly for the claimed ones.
   */
  lemma {:induction false} OutputFollowsOrder(s: TrackerState, dets: seq<Detection>, m: MatchState, k: int, q: Progress)
    requires ClaimsInv(s, dets, m, k)
    requires ReportsInv(Progress(m.tracker, m.output), dets, m.used, q, |dets|)
    ensures var order := ClaimOrder(m.claims) + Leftovers(m.used, |dets|);
      && |q.output| == |order|
      && forall c :: 0 <= c < |q.output| ==>
           && Copies(q.output[c], dets[order[c]])
           && (q.output[c].status == Tracked <==> order[c] in m.used)
  {
    var order := ClaimOrder(m.claims) + Leftovers(m.used, |dets|);
    var n0 := |m.output|;
    ClaimedDetectionsMember(m.claims);
    forall c | 0 <= c < |q.output|
      ensures Copies(q.output[c], dets[order[c]])
      ensures q.output[c].status == Tracked <==> order[c] in m.used
    {
      if c < n0 {
        assert q.output[c] == q.output[..n0][c];
      }
    }
  }

  /** Reports for the detections order given by `DetectionOrder`. */
  lemma {:induction false} StepFollowsOrder(s: TrackerState, dets: seq<Detection>, time: real, dist: Metric)
    requires Valid(s)
    ensures var r := Step(s, dets, time, dist);
      var order := DetectionOrder(s, dets, time, dist);
      && IsIndexPermutation(order, |dets|)
      && |r.output| == |order|
      && forall c :: 0 <= c < |r.output| ==>
           && Copies(r.output[c], dets[order[c]])
           && (r.output[c].status == Tracked <==> order[c] in FirstPass(s, dets, time, dist).used)
  {
    var m := FirstPass(s, dets, time, dist);
    FirstPassClaims(s, dets, time, dist);
    FirstPassValid(s, dets, time, dist);
    ResolveUpToInv(SecondPassStart(s, dets, time, dist), dets, m.used, time, |dets|);
    OrderIsDistinct(m.claims, m.used, |dets|);
    OrderCovers(s, dets, m, s.nextPlayerId);
    OutputFollowsOrder(s, dets, m, s.nextPlayerId,
                       ResolveUpTo(SecondPassStart(s, dets, time, dist), dets, m.used, time, |dets|));
  }

  /**
    Output shape: every detection is reported exactly once, so the output is
    as long as the input, and each report copies the box and confidence of
    the detection it stands for.
   */
  lemma {:induction false} StepReportsEveryDetection(s: TrackerState, dets: seq<Detection>, time: real, dist: Metric)
    requires Valid(s)
    ensures var r := Step(s, dets, time, dist);
      var order := DetectionOrder(s, dets, time, dist);
      && IsIndexPermutation(order, |dets|)
      && |r.output| == |order| == |dets|
      && forall c :: 0 <= c < |r.output| ==> Copies(r.output[c], dets[order[c]])
  {
    StepFollowsOrder(s, dets, time, dist);
    PermutationLength(DetectionOrder(s, dets, time, dist), |dets|);
  }

  // ----- Sequence facts about report lists -----

  lemma {:induction false} IdsOfConcat(a: seq<TrackedObject>, b: seq<TrackedObject>)
    ensures IdsOf(a + b) == IdsOf(a) + IdsOf(b)
  {
    if b == [] {
      assert a + b == a;
    } else {
      var init, x := b[..|b| - 1], b[|b| - 1];
      IdsOfConcat(a, init);
      assert a + b == (a + init) + [x];
      assert b == init + [x];
      IdsOfAppend(a + init, x);
      IdsOfAppend(init, x);
    }
  }

  lemma {:induction false} EventsForConcat(a: seq<TrackedObject>, b: seq<TrackedObject>, time: real)
    ensures EventsFor(a + b, time) == EventsFor(a, time) + EventsFor(b, time)
  {
    if b == [] {
      assert a + b == a;
    } else {
      var init, x := b[..|b| - 1], b[|b| - 1];
      var tail := if x.status == Tracked then [] else [EventFor(x, time)];
      var ea, ei := EventsFor(a, time), EventsFor(init, time);
      calc {
        EventsFor(a + b, time);
      == { assert a + b == (a + init) + [x]; }
        EventsFor((a + init) + [x], time);
      == { EventsForAppend(a + init, x, time); EventsForConcat(a, init, time); }
        (ea + ei) + tail;
      ==
        ea + (ei + tail);
      == { assert b == init + [x]; EventsForAppend(init, x, time); }
        ea + EventsFor(b, time);
      }
    }
  }

  lemma {:induction false} NewIdsConcat(a: seq<TrackedObject>, b: seq<TrackedObject>)
    ensures NewIds(a + b) == NewIds(a) + NewIds(b)
  {
    if b == [] {
      assert a + b == a;
    } else {
      var init, x := b[..|b| - 1], b[|b| - 1];
      var tail := if x.status == New then [x.id] else [];
      var na, ni := NewIds(a), NewIds(init);
      calc {
        NewIds(a + b);
      == { assert a + b == (a + init) + [x]; }
        NewIds((a + init) + [x]);
      == { NewIdsAppend(a + init, x); NewIdsConcat(a, init); }
        (na + ni) + tail;
      ==
        na + (ni + tail);
      == { assert b == init + [x]; NewIdsAppend(init, x); }
        na + NewIds(b);
      }
    }
  }

  /** Every report in `out` is `tracked`. */
  predicate AllTracked(out: seq<TrackedObject>)
  {
    forall c :: 0 <= c < |out| ==> out[c].status == Tracked
  }

  /** The first pass reports only `tracked` objects. */
  lemma {:induction false} ClaimsAllTracked(s: TrackerState, dets: seq<Detection>, m: MatchState, k: int)
    requires ClaimsInv(s, dets, m, k)
    ensures AllTracked(m.output)
  {
  }

  /** Reports that are all `tracked` log nothing and issue no id. */
  lemma {:induction false} AllTrackedLogNothing(out: seq<TrackedObject>, time: real)
    requires AllTracked(out)
    ensures EventsFor(out, time) == [] && NewIds(out) == []
  {
    if out != [] {
      AllTrackedLogNothing(out[..|out| - 1], time);
    }
  }

  /** After both passes the output is the first pass's reports followed by the appended ones. */
  lemma {:induction false} OutputSplits(m: MatchState, q: Progress)
    requires |m.output| <= |q.output| && q.output[..|m.output|] == m.output
    ensures q.output == m.output + Appended(q, |m.output|)
  {
  }

  // ----- First-pass matching, seen from the whole step -----

  lemma {:induction false} GreedyCarriesOver(s: TrackerState, dets: seq<Detection>, dist: Metric, m: MatchState, q: Progress)
    requires KeysInRange(s)
    requires ClaimsInv(s, dets, m, s.nextPlayerId) && GreedyInv(s, dets, dist, m, s.nextPlayerId)
    requires |m.output| <= |q.output| && q.output[..|m.output|] == m.output
    ensures |m.claims| <= |q.output|
    ensures forall c :: 0 <= c < |m.claims| ==>
      var id := m.claims[c].playerId;
      && id in s.players && q.output[c].id == id
      && IsBestAmong(s.players[id], dets, UsedBelow(m.claims, id), dist, |dets|, m.claims[c].detection)
    ensures forall id :: id in s.players && id !in ClaimedIds(m.claims) ==>
      NoneEligible(s.players[id], dets, UsedBelow(m.claims, id), dist, |dets|)
  {
    forall c | 0 <= c < |m.claims|
      ensures q.output[c].id == m.claims[c].playerId
    {
      assert q.output[c] == q.output[..|m.output|][c];
    }
  }

  /**
    First-pass matching: the `tracked` reports come first, one per claim;
    each claim is by a distinct player (ids strictly increase) of a distinct
    detection, and is the reference best choice for that player among the
    detections not claimed by players with lower ids; a player that claimed
    nothing had no eligible detection left at its turn.
   */
  lemma {:induction false} StepMatchesGreedily(s: TrackerState, dets: seq<Detection>, time: real, dist: Metric)
    requires Valid(s)
    ensures var m := FirstPass(s, dets, time, dist);
      var r := Step(s, dets, time, dist);
      && |m.claims| <= |r.output|
      && (forall c :: 0 <= c < |m.claims| ==>
            var id := m.claims[c].playerId;
            && id in s.players && r.output[c].id == id
            && IsBestAmong(s.players[id], dets, UsedBelow(m.claims, id), dist, |dets|, m.claims[c].detection))
      && (forall c1, c2 :: 0 <= c1 < c2 < |m.claims| ==>
            m.claims[c1].playerId < m.claims[c2].playerId && m.claims[c1].detection != m.claims[c2].detection)
      && (forall id :: id in s.players && id !in ClaimedIds(m.claims) ==>
            NoneEligible(s.players[id], dets, UsedBelow(m.claims, id), dist, |dets|))
  {
    var m := FirstPass(s, dets, time, dist);
    FirstPassClaims(s, dets, time, dist);
    FirstPassGreedy(s, dets, time, dist);
    FirstPassValid(s, dets, time, dist);
    ResolveUpToInv(SecondPassStart(s, dets, time, dist), dets, m.used, time, |dets|);
    GreedyCarriesOver(s, dets, dist, m, ResolveUpTo(SecondPassStart(s, dets, time, dist), dets, m.used, time, |dets|));
  }

  // ----- Ageing and removal -----

  lemma {:induction false} AgeingCarriesOver(s: TrackerState, dets: seq<Detection>, time: real, m: MatchState, q: Progress)
    requires KeysInRange(s)
    requires ClaimsInv(s, dets, m, s.nextPlayerId) && OutcomeInv(s, dets, time, m, s.nextPlayerId)
    requires |m.output| <= |q.output| && q.output[..|m.output|] == m.output
    requires TouchInv(Progress(m.tracker, m.output), q)
    ensures forall id :: id in IdsOf(q.output) ==>
      id in q.tracker.players && id in q.tracker.framesSinceLastSeen && q.tracker.framesSinceLastSeen[id] == 0
    ensures forall id :: id in s.players && id !in IdsOf(q.output) ==>
      && (MissCount(s, id) > MaxFramesBeforeRemoval ==> id !in q.tracker.players)
      && (MissCount(s, id) <= MaxFramesBeforeRemoval ==>
            && id in q.tracker.players && q.tracker.players[id] == s.players[id]
            && id in q.tracker.framesSinceLastSeen
            && q.tracker.framesSinceLastSeen[id] == MissCount(s, id) + 1)
  {
    var appended := Appended(q, |m.output|);
    OutputSplits(m, q);
    IdsOfConcat(m.output, appended);
    forall id | id in IdsOf(q.output) && id !in IdsOf(appended)
      ensures id in q.tracker.players && id in q.tracker.framesSinceLastSeen && q.tracker.framesSinceLastSeen[id] == 0
    {
      ClaimedIdsMember(m.claims, id);
    }
  }

  /**
    Ageing: every reported player is stored with a zero miss-counter. A
    player that is not reported is deleted when its counter already exceeded
    the limit, and otherwise stays exactly as it was with its counter one
    higher.
   */
  lemma {:induction false} StepAges(s: TrackerState, dets: seq<Detection>, time: real, dist: Metric)
    requires Valid(s)
    ensures var r := Step(s, dets, time, dist);
      && (forall id :: id in IdsOf(r.output) ==>
            id in r.state.players && id in r.state.framesSinceLastSeen && r.state.framesSinceLastSeen[id] == 0)
      && (forall id :: id in s.players && id !in IdsOf(r.output) ==>
            && (MissCount(s, id) > MaxFramesBeforeRemoval ==> id !in r.state.players)
            && (MissCount(s, id) <= MaxFramesBeforeRemoval ==>
                  && id in r.state.players && r.state.players[id] == s.players[id]
                  && id in r.state.framesSinceLastSeen
                  && r.state.framesSinceLastSeen[id] == MissCount(s, id) + 1))
  {
    var m := FirstPass(s, dets, time, dist);
    FirstPassClaims(s, dets, time, dist);
    FirstPassOutcome(s, dets, time, dist);
    FirstPassValid(s, dets, time, dist);
    ResolveUpToInv(SecondPassStart(s, dets, time, dist), dets, m.used, time, |dets|);
    AgeingCarriesOver(s, dets, time, m, ResolveUpTo(SecondPassStart(s, dets, time, dist), dets, m.used, time, |dets|));
  }

  // ----- History and ids -----

  lemma {:induction false} LogCarriesOver(s: TrackerState, time: real, m: MatchState, q: Progress)
    requires AllTracked(m.output) && m.tracker.playerHistory == s.playerHistory
    requires |m.output| <= |q.output| && q.output[..|m.output|] == m.output
    requires LogInv(Progress(m.tracker, m.output), time, q)
    ensures q.tracker.playerHistory == s.playerHistory + EventsFor(q.output, time)
  {
    var appended := Appended(q, |m.output|);
    OutputSplits(m, q);
    EventsForConcat(m.output, appended, time);
    AllTrackedLogNothing(m.output, time);
    assert EventsFor(q.output, time) == [] + EventsFor(appended, time);
  }

  /**
    History: the log gains exactly one event per report that is not
    `tracked`, in output order, and loses nothing.
   */
  lemma {:induction false} StepLogs(s: TrackerState, dets: seq<Detection>, time: real, dist: Metric)
    requires Valid(s)
    ensures var r := Step(s, dets, time, dist);
      r.state.playerHistory == s.playerHistory + EventsFor(r.output, time)
  {
    var m := FirstPass(s, dets, time, dist);
    FirstPassClaims(s, dets, time, dist);
    FirstPassFrame(s, dets, time, dist);
    FirstPassValid(s, dets, time, dist);
    ResolveUpToInv(SecondPassStart(s, dets, time, dist), dets, m.used, time, |dets|);
    ClaimsAllTracked(s, dets, m, s.nextPlayerId);
    LogCarriesOver(s, time, m, ResolveUpTo(SecondPassStart(s, dets, time, dist), dets, m.used, time, |dets|));
  }

  lemma {:induction false} IdsCarryOver(s: TrackerState, m: MatchState, q: Progress)
    requires AllTracked(m.output)
    requires m.tracker.nextPlayerId == s.nextPlayerId && m.tracker.players.Keys <= s.players.Keys
    requires |m.output| <= |q.output| && q.output[..|m.output|] == m.output
    requires IdsInv(Progress(m.tracker, m.output), q)
    ensures s.nextPlayerId <= q.tracker.nextPlayerId
    ensures NewIds(q.output) == Range(s.nextPlayerId, q.tracker.nextPlayerId)
    ensures forall id :: id in q.tracker.players ==>
      id in s.players || s.nextPlayerId <= id < q.tracker.nextPlayerId
  {
    var appended := Appended(q, |m.output|);
    OutputSplits(m, q);
    NewIdsConcat(m.output, appended);
    AllTrackedLogNothing(m.output, 0.0);
    assert NewIds(q.output) == [] + NewIds(appended);
  }

  /**
    Ids: the `new` reports carry the consecutive ids `s.nextPlayerId, …`
    up to the new counter, and every stored player afterwards was either
    already stored or is one of those new ids.
   */
  lemma {:induction false} StepIssuesIds(s: TrackerState, dets: seq<Detection>, time: real, dist: Metric)
    requires Valid(s)
    ensures var r := Step(s, dets, time, dist);
      && s.nextPlayerId <= r.state.nextPlayerId
      && NewIds(r.output) == Range(s.nextPlayerId, r.state.nextPlayerId)
      && forall id :: id in r.state.players ==>
           id in s.players || s.nextPlayerId <= id < r.state.nextPlayerId
  {
    var m := FirstPass(s, dets, time, dist);
    FirstPassClaims(s, dets, time, dist);
    FirstPassFrame(s, dets, time, dist);
    FirstPassValid(s, dets, time, dist);
    ResolveUpToInv(SecondPassStart(s, dets, time, dist), dets, m.used, time, |dets|);
    ClaimsAllTracked(s, dets, m, s.nextPlayerId);
    IdsCarryOver(s, m, ResolveUpTo(SecondPassStart(s, dets, time, dist), dets, m.used, time, |dets|));
  }

  /** A removed id never comes back: ids are never reissued. */
  lemma {:induction false} RemovedStaysRemoved(s: TrackerState, dets: seq<Detection>, time: real, dist: Metric, id: int)
    requires Valid(s)
    requires id < s.nextPlayerId && id !in s.players
    ensures id !in Step(s, dets, time, dist).state.players
  {
    StepIssuesIds(s, dets, time, dist);
  }

  // ----- The records of reported players -----

  /** After the first pass every claimant was observed with its claimed detection. */
  lemma {:induction false} FirstPassRecords(s: TrackerState, dets: seq<Detection>, time: real, m: MatchState, k: int)
    requires ClaimsInv(s, dets, m, k) && ClaimedOutcome(s, dets, time, m)
    ensures RecordsInv(Progress(m.tracker, m.output), time)
  {
    forall c | 0 <= c < |m.output|
      ensures m.output[c].id in m.tracker.players
      ensures m.tracker.players[m.output[c].id].lastSeen == time
      ensures m.tracker.players[m.output[c].id].lastPosition == ReportPosition(m.output[c])
    {
      assert ReportPosition(m.output[c]) == Position(dets[m.claims[c].detection]);
    }
  }

  /** A player the second pass never reports keeps its record. */
  lemma {:induction false} UnreportedRecordCarriesOver(p0: Progress, dets: seq<Detection>, used: set<nat>, q: Progress, id: int)
    requires ReportsInv(p0, dets, used, q, |dets|) && TouchInv(p0, q)
    requires id in p0.tracker.players
    requires forall c' :: 0 <= c' < |q.output| && q.output[c'].id == id ==> q.output[c'].status == Tracked
    ensures id in q.tracker.players && q.tracker.players[id] == p0.tracker.players[id]
  {
    var n0 := |p0.output|;
    var appended := Appended(q, n0);
    var leftovers := Leftovers(used, |dets|);
    forall a | 0 <= a < |appended|
      ensures appended[a].id != id
    {
      assert appended[a] == q.output[n0 + a];
      assert Copies(q.output[n0 + a], dets[leftovers[a]]) && q.output[n0 + a].status != Tracked;
    }
    IdsOfNotMember(appended, id);
  }

  /**
    The records of reported players: every player the call reports is stored,
    was last seen at `time`, and sits at the position of the last report
    naming it, which is where the next call measures distances from; a
    player reported only by its own `tracked` claim ends exactly as observed
    with the claimed detection.
   */
  lemma {:induction false} StepUpdatesRecords(s: TrackerState, dets: seq<Detection>, time: real, dist: Metric)
    requires Valid(s)
    ensures var r := Step(s, dets, time, dist);
      && (forall c :: 0 <= c < |r.output| ==>
            r.output[c].id in r.state.players && r.state.players[r.output[c].id].lastSeen == time)
      && (forall c :: 0 <= c < |r.output| && IsLastReportOf(r.output, c) ==>
            r.output[c].id in r.state.players && r.state.players[r.output[c].id].lastPosition == ReportPosition(r.output[c]))
    ensures var m := FirstPass(s, dets, time, dist);
      var r := Step(s, dets, time, dist);
      forall c :: (0 <= c < |m.claims| &&
        forall c' :: 0 <= c' < |r.output| && r.output[c'].id == m.claims[c].playerId ==> r.output[c'].status == Tracked) ==>
          && m.claims[c].playerId in s.players && m.claims[c].detection < |dets|
          && m.claims[c].playerId in r.state.players
          && r.state.players[m.claims[c].playerId] == Observe(s.players[m.claims[c].playerId], dets[m.claims[c].detection], time)
  {
    var m := FirstPass(s, dets, time, dist);
    var p0 := SecondPassStart(s, dets, time, dist);
    FirstPassClaims(s, dets, time, dist);
    FirstPassOutcome(s, dets, time, dist);
    FirstPassValid(s, dets, time, dist);
    FirstPassRecords(s, dets, time, m, s.nextPlayerId);
    ResolveUpToInv(p0, dets, m.used, time, |dets|);
    var q := ResolveUpTo(p0, dets, m.used, time, |dets|);
    forall c | 0 <= c < |m.claims| &&
      (forall c' :: 0 <= c' < |q.output| && q.output[c'].id == m.claims[c].playerId ==> q.output[c'].status == Tracked)
      ensures m.claims[c].playerId in s.players && m.claims[c].detection < |dets|
      ensures m.claims[c].playerId in q.tracker.players
      ensures q.tracker.players[m.claims[c].playerId] == Observe(s.players[m.claims[c].playerId], dets[m.claims[c].detection], time)
    {
      UnreportedRecordCarriesOver(p0, dets, m.used, q, m.claims[c].playerId);
    }
  }
}
