/**
  Detections and players (tracks): the records `updateTracking` reads and
  writes, the bounded per-player sample history, and the two per-player
  updates `createNewPlayer` and `updatePlayer` perform.
 */
module Players {
  import opened Features

  datatype Point = Point(x: real, y: real)

  /** One observed object in one frame, as the detector hands it over. */
  datatype Detection = Detection(
    x: real, y: real, width: real, height: real,
    confidence: real,
    features: FeatureVector)

  /** One entry of a player's recent-sample log. */
  datatype Sample = Sample(time: real, position: Point, confidence: real)

  /** A persisted identity. */
  datatype Player = Player(
    id: int,
    firstSeen: real,
    lastSeen: real,
    lastPosition: Point,
    features: FeatureVector,
    trackingHistory: seq<Sample>)

  /** How many recent samples a player keeps. */
  const MaxTrackingHistory: nat := 50

  function Position(d: Detection): Point
  {
    Point(d.x, d.y)
  }

  function SampleOf(d: Detection, time: real): Sample
  {
    Sample(time, Position(d), d.confidence)
  }

  /**
    Append `x` and keep only the `cap` most recent entries: the result is the
    longest suffix of `h + [x]` of length at most `cap`, so it ends in `x` and
    drops the oldest entries first.
   */
  function AppendBounded<T>(h: seq<T>, x: T, cap: nat): (r: seq<T>)
    requires cap >= 1
    ensures |r| == if |h| + 1 <= cap then |h| + 1 else cap
    ensures r[|r| - 1] == x
  {
    var extended := h + [x];
    if |extended| > cap then extended[|extended| - cap..] else extended
  }

  /** The bounded log is the most recent part of `h + [x]`: oldest entries go first. */
  lemma {:induction false} AppendBoundedIsSuffix<T>(h: seq<T>, x: T, cap: nat)
    requires cap >= 1
    ensures var r := AppendBounded(h, x, cap);
      r == (h + [x])[|h| + 1 - |r|..]
  {
  }

  /** Once the log is full it stays full, and an entry at position `i > 0` moves to `i - 1`. */
  lemma {:induction false} AppendBoundedShifts<T>(h: seq<T>, x: T, cap: nat)
    requires cap >= 1 && |h| == cap
    ensures |AppendBounded(h, x, cap)| == cap
    ensures forall i :: 1 <= i < cap ==> AppendBounded(h, x, cap)[i - 1] == h[i]
  {
  }

  /** The player `createNewPlayer` stores: seeded from the detection without smoothing. */
  function NewPlayer(id: int, d: Detection, time: real): (p: Player)
    ensures p.id == id
    ensures p.firstSeen == time && p.lastSeen == time
    ensures p.lastPosition == Position(d)
    ensures p.features == d.features
    ensures p.trackingHistory == [SampleOf(d, time)]
  {
    Player(id, time, time, Position(d), d.features, [SampleOf(d, time)])
  }

  /**
    What `updatePlayer` does to a present player: move it to the detection,
    smooth its descriptor towards the detection's, and log the sample.
   */
  function Observe(p: Player, d: Detection, time: real): (q: Player)
    ensures q.id == p.id && q.firstSeen == p.firstSeen
    ensures q.lastSeen == time
    ensures q.lastPosition == Position(d)
    ensures 1 <= |q.trackingHistory| <= MaxTrackingHistory
    ensures q.trackingHistory[|q.trackingHistory| - 1] == SampleOf(d, time)
    ensures |p.trackingHistory| >= MaxTrackingHistory ==> |q.trackingHistory| == MaxTrackingHistory
  {
    p.(lastSeen := time,
       lastPosition := Position(d),
       features := UpdateFeatures(p.features, d.features, SmoothingFactor),
       trackingHistory := AppendBounded(p.trackingHistory, SampleOf(d, time), MaxTrackingHistory))
  }

  /** Observing moves every component of the descriptor towards the detection's, but not past it. */
  lemma {:induction false} ObserveSmooths(p: Player, d: Detection, time: real)
    ensures Between(Observe(p, d, time).features, p.features, d.features)
    ensures ColorInRange(p.features.dominantColor) && ColorInRange(d.features.dominantColor)
      ==> ColorInRange(Observe(p, d, time).features.dominantColor)
  {
    if ColorInRange(p.features.dominantColor) && ColorInRange(d.features.dominantColor) {
      UpdateFeaturesKeepsColorRange(p.features, d.features, SmoothingFactor);
    }
  }

  /**
    The sample log after an observation is the most recent part of the old
    log followed by the new sample; while the log is not full nothing is dropped.
   */
  lemma {:induction false} ObserveLogsSample(p: Player, d: Detection, time: real)
    ensures var h := Observe(p, d, time).trackingHistory;
      h == (p.trackingHistory + [SampleOf(d, time)])[|p.trackingHistory| + 1 - |h|..]
    ensures |p.trackingHistory| < MaxTrackingHistory ==>
      Observe(p, d, time).trackingHistory == p.trackingHistory + [SampleOf(d, time)]
  {
    AppendBoundedIsSuffix(p.trackingHistory, SampleOf(d, time), MaxTrackingHistory);
  }

  /** Seeing the same detection again does not move a descriptor that already equals it. */
  lemma {:induction false} ObserveFixedPoint(p: Player, d: Detection, time: real)
    requires p.features == d.features
    ensures Observe(p, d, time).features == p.features
  {
  }
}
