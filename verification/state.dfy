/**
  The tracker's whole state as one immutable record (the fields of the
  `PlayerTracker` instance), its configuration constants, the invariant every
  reachable state keeps, and the small state updates `updateTracking` is
  built from.
 */
module State {
  import opened Features
  import opened Players

  /** Actions a history event can carry; no code path ever records `Lost`. */
  datatype Action = FirstDetected | Reidentified | Lost

  /** One append-only log entry. */
  datatype HistoryEvent = HistoryEvent(playerId: int, action: Action, time: real, position: Point)

  datatype TrackerState = TrackerState(
    players: map<int, Player>,
    framesSinceLastSeen: map<int, nat>,
    nextPlayerId: int,
    playerHistory: seq<HistoryEvent>)

  /** Status of one reported detection. */
  datatype Status = Tracked | Reidentified | New

  datatype BBox = BBox(x: real, y: real, width: real, height: real)

  /** One entry of the list `updateTracking` returns. */
  datatype TrackedObject = TrackedObject(id: int, bbox: BBox, confidence: real, status: Status)

  /** A detection may be claimed only by a player closer than this. */
  const MaxDistance: real := 100.0
  /** Re-identification needs a similarity strictly above this. */
  const ReidentificationThreshold: real := 0.7
  /** A player whose miss-counter exceeds this when it misses again is removed. */
  const MaxFramesBeforeRemoval: nat := 30

  function BBoxOf(d: Detection): BBox
  {
    BBox(d.x, d.y, d.width, d.height)
  }

  /** The output entry reporting detection `d` under player `id`. */
  function Report(id: int, d: Detection, status: Status): TrackedObject
  {
    TrackedObject(id, BBoxOf(d), d.confidence, status)
  }

  /** Where a report's box starts: the `[x, y]` of the detection it copies. */
  function ReportPosition(o: TrackedObject): Point
  {
    Point(o.bbox.x, o.bbox.y)
  }

  /** Box and confidence of `o` are those of `d`. */
  predicate Copies(o: TrackedObject, d: Detection)
  {
    o.bbox == BBoxOf(d) && o.confidence == d.confidence
  }

  /** The set of ids an output list reports. */
  function IdsOf(out: seq<TrackedObject>): set<int>
  {
    if out == [] then {} else IdsOf(out[..|out| - 1]) + {out[|out| - 1].id}
  }

  /** Appending a report adds its id. */
  lemma {:induction false} IdsOfAppend(out: seq<TrackedObject>, o: TrackedObject)
    ensures IdsOf(out + [o]) == IdsOf(out) + {o.id}
  {
    assert (out + [o])[..|out|] == out;
  }

  /** An id no report carries is not reported. */
  lemma {:induction false} IdsOfNotMember(out: seq<TrackedObject>, id: int)
    requires forall c :: 0 <= c < |out| ==> out[c].id != id
    ensures id !in IdsOf(out)
  {
    if out != [] {
      var init := out[..|out| - 1];
      assert forall c :: 0 <= c < |init| ==> init[c] == out[c];
      IdsOfNotMember(init, id);
    }
  }

  /** Every active id was issued: it lies in `[1, nextPlayerId)`. */
  predicate KeysInRange(s: TrackerState)
  {
    forall k :: k in s.players ==> 1 <= k < s.nextPlayerId
  }

  /** Each stored player carries its own key and a non-empty, bounded sample log. */
  predicate PlayersWellFormed(players: map<int, Player>)
  {
    forall k :: k in players ==>
      players[k].id == k && 1 <= |players[k].trackingHistory| <= MaxTrackingHistory
  }

  /** Every logged event names an issued id and none is a `Lost` event. */
  predicate HistoryWellFormed(h: seq<HistoryEvent>, nextPlayerId: int)
  {
    forall i :: 0 <= i < |h| ==> 1 <= h[i].playerId < nextPlayerId && h[i].action != Lost
  }

  /** The invariant of every state reachable from construction or `Reset`. */
  predicate Valid(s: TrackerState)
  {
    && s.nextPlayerId >= 1
    && KeysInRange(s)
    && s.framesSinceLastSeen.Keys == s.players.Keys
    && PlayersWellFormed(s.players)
    && HistoryWellFormed(s.playerHistory, s.nextPlayerId)
  }

  /** The state the constructor builds. */
  function Initial(): (s: TrackerState)
    ensures Valid(s)
    ensures s.players == map[] && s.framesSinceLastSeen == map[]
    ensures s.nextPlayerId == 1 && s.playerHistory == []
  {
    TrackerState(map[], map[], 1, [])
  }

  /** `reset`: whatever the state, it returns to the constructed one. */
  function Reset(s: TrackerState): (r: TrackerState)
    ensures Valid(r)
    ensures r.players == map[] && r.framesSinceLastSeen == map[]
    ensures r.nextPlayerId == 1 && r.playerHistory == []
  {
    Initial()
  }

  /** Resetting twice is resetting once. */
  lemma {:induction false} ResetIdempotent(s: TrackerState)
    ensures Reset(Reset(s)) == Reset(s)
  {
  }

  /**
    `updatePlayer`: a silent no-op for an absent id; otherwise only that
    player changes, as `Observe` describes.
   */
  function UpdatePlayer(s: TrackerState, id: int, d: Detection, time: real): (r: TrackerState)
    ensures id !in s.players ==> r == s
    ensures id in s.players ==> r.players == s.players[id := Observe(s.players[id], d, time)]
    ensures r.framesSinceLastSeen == s.framesSinceLastSeen
    ensures r.nextPlayerId == s.nextPlayerId && r.playerHistory == s.playerHistory
  {
    if id in s.players then
      s.(players := s.players[id := Observe(s.players[id], d, time)])
    else
      s
  }

  /** `createNewPlayer`: store a fresh player under `id`, touching no other entry. */
  function CreateNewPlayer(s: TrackerState, id: int, d: Detection, time: real): (r: TrackerState)
    ensures r.players.Keys == s.players.Keys + {id}
    ensures r.players[id] == NewPlayer(id, d, time)
    ensures forall k :: k in s.players && k != id ==> r.players[k] == s.players[k]
    ensures r.framesSinceLastSeen == s.framesSinceLastSeen
    ensures r.nextPlayerId == s.nextPlayerId && r.playerHistory == s.playerHistory
  {
    s.(players := s.players[id := NewPlayer(id, d, time)])
  }

  /** Reset the miss-counter of `id` to zero. */
  function MarkSeen(s: TrackerState, id: int): (r: TrackerState)
    ensures MissCount(r, id) == 0
    ensures r.framesSinceLastSeen.Keys == s.framesSinceLastSeen.Keys + {id}
    ensures forall k :: k != id ==> MissCount(r, k) == MissCount(s, k)
    ensures r.players == s.players && r.nextPlayerId == s.nextPlayerId && r.playerHistory == s.playerHistory
  {
    s.(framesSinceLastSeen := s.framesSinceLastSeen[id := 0])
  }

  /** The miss-counter as `framesSinceLastSeen.get(id) || 0` reads it. */
  function MissCount(s: TrackerState, id: int): nat
  {
    if id in s.framesSinceLastSeen then s.framesSinceLastSeen[id] else 0
  }

  /**
    An unmatched player ages: its counter goes up by one, and when the value
    read before the increment already exceeds the limit the player and its
    counter are deleted.
   */
  function Age(s: TrackerState, id: int): (r: TrackerState)
    ensures MissCount(s, id) > MaxFramesBeforeRemoval ==>
      id !in r.players && id !in r.framesSinceLastSeen
    ensures MissCount(s, id) <= MaxFramesBeforeRemoval ==>
      r.players == s.players && id in r.framesSinceLastSeen && r.framesSinceLastSeen[id] == MissCount(s, id) + 1
    ensures forall k :: k != id ==>
      (k in r.players <==> k in s.players) && (k in r.players ==> r.players[k] == s.players[k])
    ensures forall k :: k != id ==>
      (k in r.framesSinceLastSeen <==> k in s.framesSinceLastSeen)
      && (k in r.framesSinceLastSeen ==> r.framesSinceLastSeen[k] == s.framesSinceLastSeen[k])
    ensures r.nextPlayerId == s.nextPlayerId && r.playerHistory == s.playerHistory
  {
    var framesSince := MissCount(s, id);
    var counted := s.(framesSinceLastSeen := s.framesSinceLastSeen[id := framesSince + 1]);
    if framesSince > MaxFramesBeforeRemoval then
      counted.(players := counted.players - {id}, framesSinceLastSeen := counted.framesSinceLastSeen - {id})
    else
      counted
  }
}
