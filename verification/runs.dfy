/**
  Sequences of `updateTracking` calls: the state after a run of frames, how
  many consecutive misses a player survives, how ids are issued over a whole
  run, and how the statistics move with one call.
 */
module Runs {
  import opened Players
  import opened State
  import opened Matching
  import opened SecondPass
  import opened Tracking
  import opened Queries

  /** One call's arguments: the detections of a frame and the frame time. */
  datatype Frame = Frame(detections: seq<Detection>, time: real)

  /** The state after feeding `frames` to the tracker in order. */
  function Run(s: TrackerState, frames: seq<Frame>, dist: Metric): (r: TrackerState)
    requires Valid(s)
    ensures Valid(r)
    decreases |frames|
  {
    if frames == [] then s
    else
      var last := frames[|frames| - 1];
      Step(Run(s, frames[..|frames| - 1], dist), last.detections, last.time, dist).state
  }

  /** The output of the `n`-th call of the run. */
  function OutputAt(s: TrackerState, frames: seq<Frame>, dist: Metric, n: nat): seq<TrackedObject>
    requires Valid(s) && n < |frames|
  {
    Step(Run(s, frames[..n], dist), frames[n].detections, frames[n].time, dist).output
  }

  /** All outputs of the run, concatenated in call order. */
  function AllOutputs(s: TrackerState, frames: seq<Frame>, dist: Metric): seq<TrackedObject>
    requires Valid(s)
    decreases |frames|
  {
    if frames == [] then []
    else AllOutputs(s, frames[..|frames| - 1], dist) + OutputAt(s, frames, dist, |frames| - 1)
  }

  /** No call of the run reports player `id`. */
  predicate NeverReported(s: TrackerState, frames: seq<Frame>, dist: Metric, id: int)
    requires Valid(s)
  {
    forall n :: 0 <= n < |frames| ==> id !in IdsOf(OutputAt(s, frames, dist, n))
  }

  lemma {:induction false} PrefixOfPrefix(frames: seq<Frame>, n: nat)
    requires n < |frames|
    ensures frames[..|frames| - 1][..n] == frames[..n]
  {
  }

  /** Dropping the last frame keeps every earlier output and leaves the rest unreported. */
  lemma {:induction false} NeverReportedPrefix(s: TrackerState, frames: seq<Frame>, dist: Metric, id: int)
    requires Valid(s) && frames != [] && NeverReported(s, frames, dist, id)
    ensures NeverReported(s, frames[..|frames| - 1], dist, id)
  {
    var init := frames[..|frames| - 1];
    forall n | 0 <= n < |init|
      ensures id !in IdsOf(OutputAt(s, init, dist, n))
    {
      PrefixOfPrefix(frames, n);
      assert init[n] == frames[n];
      assert OutputAt(s, init, dist, n) == OutputAt(s, frames, dist, n);
    }
  }

  /**
    Misses accumulate: a stored player that no call reports stays exactly as
    it was, with its counter one higher per call, as long as the counter
    never had to exceed 31.
   */
  lemma {:induction false} MissesAccumulate(s: TrackerState, frames: seq<Frame>, dist: Metric, id: int)
    requires Valid(s) && id in s.players
    requires NeverReported(s, frames, dist, id)
    requires MissCount(s, id) + |frames| <= MaxFramesBeforeRemoval + 1
    ensures var r := Run(s, frames, dist);
      && id in r.players && r.players[id] == s.players[id]
      && MissCount(r, id) == MissCount(s, id) + |frames|
    decreases |frames|
  {
    if frames != [] {
      var init := frames[..|frames| - 1];
      var last := frames[|frames| - 1];
      NeverReportedPrefix(s, frames, dist, id);
      MissesAccumulate(s, init, dist, id);
      var t := Run(s, init, dist);
      assert init == frames[..|frames| - 1];
      StepAges(t, last.detections, last.time, dist);
      assert id !in IdsOf(OutputAt(s, frames, dist, |frames| - 1));
    }
  }

  /**
    Removal timing: a player whose counter is 0 (it was just reported)
    survives 31 consecutive calls that do not report it, and the 32nd such
    call deletes it.
   */
  lemma {:induction false} RemovalTiming(s: TrackerState, frames: seq<Frame>, dist: Metric, id: int)
    requires Valid(s) && id in s.players && MissCount(s, id) == 0
    requires |frames| == MaxFramesBeforeRemoval + 2
    requires NeverReported(s, frames, dist, id)
    ensures id in Run(s, frames[..|frames| - 1], dist).players
    ensures id !in Run(s, frames, dist).players
  {
    var init := frames[..|frames| - 1];
    var last := frames[|frames| - 1];
    NeverReportedPrefix(s, frames, dist, id);
    MissesAccumulate(s, init, dist, id);
    var t := Run(s, init, dist);
    StepAges(t, last.detections, last.time, dist);
    assert id !in IdsOf(OutputAt(s, frames, dist, |frames| - 1));
  }

  lemma {:induction false} RangeConcat(a: int, b: int, c: int)
    requires a <= b <= c
    ensures Range(a, b) + Range(b, c) == Range(a, c)
  {
  }

  /**
    Ids over a run: the `new` reports of all calls, in order, carry exactly
    the consecutive ids from the starting counter up to the final one, so no
    id is issued twice.
   */
  lemma {:induction false} RunIssuesIds(s: TrackerState, frames: seq<Frame>, dist: Metric)
    requires Valid(s)
    ensures s.nextPlayerId <= Run(s, frames, dist).nextPlayerId
    ensures NewIds(AllOutputs(s, frames, dist)) == Range(s.nextPlayerId, Run(s, frames, dist).nextPlayerId)
    decreases |frames|
  {
    if frames != [] {
      var init := frames[..|frames| - 1];
      var last := frames[|frames| - 1];
      RunIssuesIds(s, init, dist);
      var t := Run(s, init, dist);
      StepIssuesIds(t, last.detections, last.time, dist);
      NewIdsConcat(AllOutputs(s, init, dist), OutputAt(s, frames, dist, |frames| - 1));
      RangeConcat(s.nextPlayerId, t.nextPlayerId, Run(s, frames, dist).nextPlayerId);
    }
  }

  /** From a fresh tracker the ids issued are exactly `1, 2, …, nextPlayerId - 1`, in order. */
  lemma {:induction false} FreshRunIssuesIds(frames: seq<Frame>, dist: Metric)
    ensures NewIds(AllOutputs(Initial(), frames, dist)) == Range(1, Run(Initial(), frames, dist).nextPlayerId)
  {
    RunIssuesIds(Initial(), frames, dist);
  }

  // ----- Statistics across one call -----

  /** How many reports in `out` have status `st`. */
  function CountStatus(out: seq<TrackedObject>, st: Status): (n: nat)
    ensures n <= |out|
  {
    if out == [] then 0
    else CountStatus(out[..|out| - 1], st) + (if out[|out| - 1].status == st then 1 else 0)
  }

  lemma {:induction false} ReidEventsCount(out: seq<TrackedObject>, time: real)
    ensures CountAction(EventsFor(out, time), Action.Reidentified) == CountStatus(out, Status.Reidentified)
  {
    if out != [] {
      var init := out[..|out| - 1];
      var o := out[|out| - 1];
      ReidEventsCount(init, time);
      var tail := if o.status == Tracked then [] else [EventFor(o, time)];
      CountActionConcat(EventsFor(init, time), tail, Action.Reidentified);
    }
  }

  /**
    One call moves `getStats` as its output says: the re-identification
    count grows by the number of `reidentified` reports, `totalPlayers` by
    the number of `new` ones, and accuracy stays 100 once anything is logged.
   */
  lemma {:induction false} StatsAfterStep(s: TrackerState, dets: seq<Detection>, time: real, dist: Metric)
    requires Valid(s)
    ensures var r := Step(s, dets, time, dist);
      && GetStats(r.state).reidentifications == GetStats(s).reidentifications + CountStatus(r.output, Status.Reidentified)
      && GetStats(r.state).totalPlayers == GetStats(s).totalPlayers + |NewIds(r.output)|
      && GetStats(r.state).accuracy == (if r.state.playerHistory == [] then 0.0 else 100.0)
  {
    var r := Step(s, dets, time, dist);
    StepLogs(s, dets, time, dist);
    StepIssuesIds(s, dets, time, dist);
    CountActionConcat(s.playerHistory, EventsFor(r.output, time), Action.Reidentified);
    ReidEventsCount(r.output, time);
    StatsOfValid(r.state);
  }
}
