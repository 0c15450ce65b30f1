/**
  The second pass of `updateTracking`: every detection the first pass left
  unclaimed, in index order, is either re-identified with the most similar
  stored player or becomes a new player under the next free id. Either way
  it is reported, its player's miss-counter is reset, and one event is
  appended to the history.
 */
module SecondPass {
  import opened Players
  import opened State
  import opened Reidentification

  /** The tracker and the output list while the second pass runs. */
  datatype Progress = Progress(tracker: TrackerState, output: seq<TrackedObject>)

  /** The history entry logged for a `reidentified` or `new` report. */
  function EventFor(o: TrackedObject, time: real): (e: HistoryEvent)
    ensures e.playerId == o.id && e.time == time && e.position == ReportPosition(o)
    ensures e.action != Lost
    ensures o.status != Tracked ==>
      (e.action == FirstDetected <==> o.status == New)
      && (e.action == Action.Reidentified <==> o.status == Status.Reidentified)
  {
    HistoryEvent(o.id, if o.status == New then FirstDetected else Action.Reidentified, time, Point(o.bbox.x, o.bbox.y))
  }

  /** The events the reports in `out` log, in order: none for `tracked`, one for the others. */
  function EventsFor(out: seq<TrackedObject>, time: real): seq<HistoryEvent>
  {
    if out == [] then []
    else
      var o := out[|out| - 1];
      EventsFor(out[..|out| - 1], time) + (if o.status == Tracked then [] else [EventFor(o, time)])
  }

  lemma {:induction false} EventsForAppend(out: seq<TrackedObject>, o: TrackedObject, time: real)
    ensures EventsFor(out + [o], time) == EventsFor(out, time) + (if o.status == Tracked then [] else [EventFor(o, time)])
  {
    assert (out + [o])[..|out|] == out;
  }

  /** The ids of the `new` reports in `out`, in order. */
  function NewIds(out: seq<TrackedObject>): seq<int>
  {
    if out == [] then []
    else
      var o := out[|out| - 1];
      NewIds(out[..|out| - 1]) + (if o.status == New then [o.id] else [])
  }

  lemma {:induction false} NewIdsAppend(out: seq<TrackedObject>, o: TrackedObject)
    ensures NewIds(out + [o]) == NewIds(out) + (if o.status == New then [o.id] else [])
  {
    assert (out + [o])[..|out|] == out;
  }

  /** The consecutive ids `a, a+1, …, b-1`. */
  function Range(a: int, b: int): (r: seq<int>)
    ensures |r| == if a <= b then b - a else 0
    ensures forall c :: 0 <= c < |r| ==> r[c] == a + c
    decreases b - a
  {
    if b <= a then [] else Range(a, b - 1) + [b - 1]
  }

  /**
    One iteration of the second pass, for the unclaimed detection `d`: a
    re-identified player is observed again; otherwise the next free id is
    issued and a new player is stored under it.
   */
  function Resolve(p: Progress, d: Detection, time: real): (r: Progress)
    requires Valid(p.tracker)
    ensures Valid(r.tracker)
  {
    var t := p.tracker;
    match Reidentify(t, d.features)
    case Some(id) =>
      ReidentifiedValid(t, id, d, time);
      var u := MarkSeen(UpdatePlayer(t, id, d, time), id);
      Progress(u.(playerHistory := t.playerHistory + [HistoryEvent(id, Action.Reidentified, time, Position(d))]),
               p.output + [Report(id, d, Status.Reidentified)])
    case None =>
      var id := t.nextPlayerId;
      CreatedValid(t, d, time);
      var u := MarkSeen(CreateNewPlayer(t.(nextPlayerId := id + 1), id, d, time), id);
      Progress(u.(playerHistory := t.playerHistory + [HistoryEvent(id, FirstDetected, time, Position(d))]),
               p.output + [Report(id, d, New)])
  }

  /** Observing a stored player again and logging the re-identification keeps the invariant. */
  lemma {:induction false} ReidentifiedValid(t: TrackerState, id: int, d: Detection, time: real)
    requires Valid(t) && id in t.players
    ensures
      var u := MarkSeen(UpdatePlayer(t, id, d, time), id);
      Valid(u.(playerHistory := t.playerHistory + [HistoryEvent(id, Action.Reidentified, time, Position(d))]))
  {
    var u := MarkSeen(UpdatePlayer(t, id, d, time), id);
    assert u.players.Keys == t.players.Keys;
  }

  /** Storing a fresh player under the next id and logging its first detection keeps the invariant. */
  lemma {:induction false} CreatedValid(t: TrackerState, d: Detection, time: real)
    requires Valid(t)
    ensures
      var id := t.nextPlayerId;
      var u := MarkSeen(CreateNewPlayer(t.(nextPlayerId := id + 1), id, d, time), id);
      Valid(u.(playerHistory := t.playerHistory + [HistoryEvent(id, FirstDetected, time, Position(d))]))
  {
  }

  /** The report `Resolve` appends for `d`. */
  function LastReport(p: Progress): TrackedObject
    requires |p.output| > 0
  {
    p.output[|p.output| - 1]
  }

  /**
    The report for `d`: one entry is appended, it copies `d`, and it is
    `reidentified` exactly when some stored player is similar enough, in
    which case it names the most similar one; otherwise it is `new` under the
    id that was next, and the counter moves on by one.
   */
  lemma {:induction false} ResolveReports(p: Progress, d: Detection, time: real, r: Progress)
    requires Valid(p.tracker) && r == Resolve(p, d, time)
    ensures |r.output| == |p.output| + 1 && r.output == p.output + [LastReport(r)]
    ensures Copies(LastReport(r), d) && LastReport(r).status != Tracked
    ensures LastReport(r).status == Status.Reidentified <==> !NoCandidate(p.tracker.players, d.features)
    ensures LastReport(r).status == Status.Reidentified ==>
      && IsBestCandidate(p.tracker.players, d.features, LastReport(r).id)
      && r.tracker.nextPlayerId == p.tracker.nextPlayerId
    ensures LastReport(r).status == New ==>
      && LastReport(r).id == p.tracker.nextPlayerId
      && r.tracker.nextPlayerId == p.tracker.nextPlayerId + 1
  {
  }

  /**
    The player behind the report: stored afterwards with a zero counter, and
    either the re-identified player observed with `d` or a fresh player built
    from `d`; no other player or counter changes, and the history gains the
    report's event.
   */
  lemma {:induction false} ResolveUpdates(p: Progress, d: Detection, time: real, r: Progress)
    requires Valid(p.tracker) && r == Resolve(p, d, time)
    ensures var o := LastReport(r);
      && o.id in r.tracker.players && o.id in r.tracker.framesSinceLastSeen
      && r.tracker.framesSinceLastSeen[o.id] == 0
      && (o.status == Status.Reidentified ==>
            o.id in p.tracker.players && r.tracker.players[o.id] == Observe(p.tracker.players[o.id], d, time))
      && (o.status == New ==> o.id !in p.tracker.players && r.tracker.players[o.id] == NewPlayer(o.id, d, time))
    ensures forall id :: id != LastReport(r).id ==>
      && (id in r.tracker.players <==> id in p.tracker.players)
      && (id in r.tracker.players ==>
            r.tracker.players[id] == p.tracker.players[id]
            && r.tracker.framesSinceLastSeen[id] == p.tracker.framesSinceLastSeen[id])
    ensures r.tracker.playerHistory == p.tracker.playerHistory + [EventFor(LastReport(r), time)]
  {
  }

  /** The detection indices below `i` that are not in `used`, ascending. */
  function Leftovers(used: set<nat>, i: nat): (r: seq<nat>)
    ensures forall c :: 0 <= c < |r| ==> r[c] < i && r[c] !in used
    ensures forall j :: 0 <= j < i && j !in used ==> j in r
    ensures forall c1, c2 :: 0 <= c1 < c2 < |r| ==> r[c1] < r[c2]
  {
    if i == 0 then []
    else Leftovers(used, i - 1) + (if i - 1 in used then [] else [i - 1])
  }

  /** The second pass after visiting the detection indices below `i`, skipping `used`. */
  function ResolveUpTo(p: Progress, dets: seq<Detection>, used: set<nat>, time: real, i: nat): (r: Progress)
    requires i <= |dets| && Valid(p.tracker)
    ensures Valid(r.tracker)
    decreases i
  {
    if i == 0 then p
    else
      var q := ResolveUpTo(p, dets, used, time, i - 1);
      if i - 1 in used then q else Resolve(q, dets[i - 1], time)
  }

  /** The reports the second pass has appended after the first `n0` entries. */
  function Appended(q: Progress, n0: nat): seq<TrackedObject>
    requires n0 <= |q.output|
  {
    q.output[n0..]
  }

  /**
    The shape of the output: the entries of `p0` are kept, and one report
    follows per leftover index, in index order, copying that detection and
    never `tracked`.
   */
  predicate ReportsInv(p0: Progress, dets: seq<Detection>, used: set<nat>, q: Progress, i: nat)
    requires i <= |dets|
  {
    var leftovers := Leftovers(used, i);
    && |q.output| == |p0.output| + |leftovers|
    && q.output[..|p0.output|] == p0.output
    && (forall c :: 0 <= c < |leftovers| ==>
          Copies(q.output[|p0.output| + c], dets[leftovers[c]]) && q.output[|p0.output| + c].status != Tracked)
  }

  /** The history gained exactly the events of the appended reports. */
  predicate LogInv(p0: Progress, time: real, q: Progress)
  {
    && |p0.output| <= |q.output|
    && q.tracker.playerHistory == p0.tracker.playerHistory + EventsFor(Appended(q, |p0.output|), time)
  }

  /**
    Ids: the `new` reports carry the consecutive ids issued since `p0`, and
    every stored player is either one of `p0`'s or one of those new ids.
   */
  predicate IdsInv(p0: Progress, q: Progress)
  {
    && |p0.output| <= |q.output|
    && p0.tracker.nextPlayerId <= q.tracker.nextPlayerId
    && NewIds(Appended(q, |p0.output|)) == Range(p0.tracker.nextPlayerId, q.tracker.nextPlayerId)
    && (forall id :: id in q.tracker.players ==>
          id in p0.tracker.players || p0.tracker.nextPlayerId <= id < q.tracker.nextPlayerId)
  }

  /**
    Players: every reported player is stored with a zero counter; a player
    that was not reported is exactly as in `p0`, counter included.
   */
  ghost predicate TouchInv(p0: Progress, q: Progress)
  {
    && |p0.output| <= |q.output|
    && (forall id :: id in IdsOf(Appended(q, |p0.output|)) ==>
          id in q.tracker.players && id in q.tracker.framesSinceLastSeen && q.tracker.framesSinceLastSeen[id] == 0)
    && (forall id :: id !in IdsOf(Appended(q, |p0.output|)) ==>
          && (id in q.tracker.players <==> id in p0.tracker.players)
          && (id in q.tracker.players ==>
                && q.tracker.players[id] == p0.tracker.players[id]
                && id in q.tracker.framesSinceLastSeen && id in p0.tracker.framesSinceLastSeen
                && q.tracker.framesSinceLastSeen[id] == p0.tracker.framesSinceLastSeen[id]))
  }

  ghost predicate ResolveInv(p0: Progress, dets: seq<Detection>, used: set<nat>, time: real, q: Progress, i: nat)
    requires i <= |dets|
  {
    && ReportsInv(p0, dets, used, q, i) && LogInv(p0, time, q) && IdsInv(p0, q) && TouchInv(p0, q)
    && (RecordsInv(p0, time) ==> RecordsInv(q, time))
  }

  lemma {:induction false} AppendedStep(q: Progress, r: Progress, n0: nat)
    requires n0 <= |q.output| && |r.output| == |q.output| + 1 && r.output == q.output + [LastReport(r)]
    ensures Appended(r, n0) == Appended(q, n0) + [LastReport(r)]
  {
  }

  lemma {:induction false} ReportsStep(p0: Progress, dets: seq<Detection>, used: set<nat>, time: real, q: Progress, r: Progress, i: nat)
    requires 1 <= i <= |dets| && Valid(q.tracker) && ReportsInv(p0, dets, used, q, i - 1)
    requires r == (if i - 1 in used then q else Resolve(q, dets[i - 1], time))
    ensures ReportsInv(p0, dets, used, r, i)
  {
    if i - 1 !in used {
      ResolveReports(q, dets[i - 1], time, r);
      var n0 := |p0.output|;
      var leftovers := Leftovers(used, i);
      assert leftovers == Leftovers(used, i - 1) + [i - 1];
      assert r.output[..n0] == q.output[..n0];
    }
  }

  lemma {:induction false} LogStep(p0: Progress, dets: seq<Detection>, used: set<nat>, time: real, q: Progress, r: Progress, i: nat)
    requires 1 <= i <= |dets| && Valid(q.tracker) && LogInv(p0, time, q)
    requires r == (if i - 1 in used then q else Resolve(q, dets[i - 1], time))
    ensures LogInv(p0, time, r)
  {
    if i - 1 !in used {
      ResolveReports(q, dets[i - 1], time, r);
      ResolveUpdates(q, dets[i - 1], time, r);
      AppendedStep(q, r, |p0.output|);
      EventsForAppend(Appended(q, |p0.output|), LastReport(r), time);
    }
  }

  lemma {:induction false} IdsStep(p0: Progress, dets: seq<Detection>, used: set<nat>, time: real, q: Progress, r: Progress, i: nat)
    requires 1 <= i <= |dets| && Valid(q.tracker) && IdsInv(p0, q)
    requires r == (if i - 1 in used then q else Resolve(q, dets[i - 1], time))
    ensures IdsInv(p0, r)
  {
    if i - 1 !in used {
      ResolveReports(q, dets[i - 1], time, r);
      ResolveUpdates(q, dets[i - 1], time, r);
      ReportedIds(p0, q, r);
    }
  }

  /** One more non-`tracked` report keeps `IdsInv`, given how it came about. */
  lemma {:induction false} ReportedIds(p0: Progress, q: Progress, r: Progress)
    requires IdsInv(p0, q)
    requires |r.output| == |q.output| + 1 && r.output == q.output + [LastReport(r)]
    requires LastReport(r).status != Tracked
    requires LastReport(r).status == New ==>
      LastReport(r).id == q.tracker.nextPlayerId && r.tracker.nextPlayerId == q.tracker.nextPlayerId + 1
    requires LastReport(r).status == Status.Reidentified ==>
      LastReport(r).id in q.tracker.players && r.tracker.nextPlayerId == q.tracker.nextPlayerId
    requires forall id :: id in r.tracker.players ==> id in q.tracker.players || id == LastReport(r).id
    ensures IdsInv(p0, r)
  {
    var n0, o := |p0.output|, LastReport(r);
    AppendedStep(q, r, n0);
    NewIdsAppend(Appended(q, n0), o);
    if o.status == New {
      assert Range(p0.tracker.nextPlayerId, r.tracker.nextPlayerId)
          == Range(p0.tracker.nextPlayerId, q.tracker.nextPlayerId) + [q.tracker.nextPlayerId];
    } else {
      assert NewIds(Appended(r, n0)) == NewIds(Appended(q, n0)) + [];
    }
  }

  lemma {:induction false} TouchStep(p0: Progress, dets: seq<Detection>, used: set<nat>, time: real, q: Progress, r: Progress, i: nat)
    requires 1 <= i <= |dets| && Valid(q.tracker) && TouchInv(p0, q)
    requires r == (if i - 1 in used then q else Resolve(q, dets[i - 1], time))
    ensures TouchInv(p0, r)
  {
    if i - 1 !in used {
      ResolveReports(q, dets[i - 1], time, r);
      ResolveUpdates(q, dets[i - 1], time, r);
      AppendedStep(q, r, |p0.output|);
      IdsOfAppend(Appended(q, |p0.output|), LastReport(r));
    }
  }

  lemma {:induction false} ResolveUpToStep(p0: Progress, dets: seq<Detection>, used: set<nat>, time: real, q: Progress, r: Progress, i: nat)
    requires 1 <= i <= |dets| && Valid(q.tracker) && ResolveInv(p0, dets, used, time, q, i - 1)
    requires r == (if i - 1 in used then q else Resolve(q, dets[i - 1], time))
    ensures ResolveInv(p0, dets, used, time, r, i)
  {
    ReportsStep(p0, dets, used, time, q, r, i);
    LogStep(p0, dets, used, time, q, r, i);
    IdsStep(p0, dets, used, time, q, r, i);
    TouchStep(p0, dets, used, time, q, r, i);
    if RecordsInv(p0, time) {
      RecordsStep(dets, used, time, q, r, i);
    }
  }

  /** What the second pass keeps true after visiting the detection indices below `i`. */
  lemma {:induction false} ResolveUpToInv(p0: Progress, dets: seq<Detection>, used: set<nat>, time: real, i: nat)
    requires i <= |dets| && Valid(p0.tracker)
    ensures ResolveInv(p0, dets, used, time, ResolveUpTo(p0, dets, used, time, i), i)
  {
    if i == 0 {
      assert Appended(p0, |p0.output|) == [];
    } else {
      ResolveUpToInv(p0, dets, used, time, i - 1);
      ResolveUpToStep(p0, dets, used, time, ResolveUpTo(p0, dets, used, time, i - 1),
                      ResolveUpTo(p0, dets, used, time, i), i);
    }
  }

  // ----- The records of reported players -----

  /** No later report in `out` names the player of report `c`. */
  predicate IsLastReportOf(out: seq<TrackedObject>, c: int)
    requires 0 <= c < |out|
  {
    forall c' :: c < c' < |out| ==> out[c'].id != out[c].id
  }

  /**
    Every player reported in `out` is stored in `t`, was last seen at `time`,
    and sits at the position of the last report naming it.
   */
  predicate RecordsFollowReports(t: TrackerState, out: seq<TrackedObject>, time: real)
  {
    && (forall c :: 0 <= c < |out| ==> out[c].id in t.players && t.players[out[c].id].lastSeen == time)
    && (forall c :: 0 <= c < |out| && IsLastReportOf(out, c) ==>
          out[c].id in t.players && t.players[out[c].id].lastPosition == ReportPosition(out[c]))
  }

  lemma {:induction false} RecordsStep(dets: seq<Detection>, used: set<nat>, time: real, q: Progress, r: Progress, i: nat)
    requires 1 <= i <= |dets| && Valid(q.tracker)
    requires r == (if i - 1 in used then q else Resolve(q, dets[i - 1], time))
    requires RecordsInv(q, time)
    ensures RecordsInv(r, time)
  {
    if i - 1 !in used {
      ResolvedRecords(q, dets[i - 1], time, r);
    }
  }

  lemma {:induction false} ResolvedRecords(q: Progress, d: Detection, time: real, r: Progress)
    requires Valid(q.tracker) && r == Resolve(q, d, time)
    requires RecordsFollowReports(q.tracker, q.output, time)
    ensures RecordsFollowReports(r.tracker, r.output, time)
  {
    ResolveReports(q, d, time, r);
    ResolveUpdates(q, d, time, r);
    var o := LastReport(r);
    var n := |q.output|;
    assert ReportPosition(o) == Position(d);
    forall c | 0 <= c < |r.output|
      ensures r.output[c].id in r.tracker.players && r.tracker.players[r.output[c].id].lastSeen == time
      ensures IsLastReportOf(r.output, c) ==> r.tracker.players[r.output[c].id].lastPosition == ReportPosition(r.output[c])
    {
      if c < n {
        assert r.output[c] == q.output[c];
        if IsLastReportOf(r.output, c) {
          assert r.output[n] == o;
          assert IsLastReportOf(q.output, c) by {
            forall c' | c < c' < n ensures q.output[c'].id != q.output[c].id {
              assert r.output[c'] == q.output[c'];
            }
          }
        }
      }
    }
  }

  /** `RecordsFollowReports` for the second pass's tracker and output. */
  predicate RecordsInv(q: Progress, time: real)
  {
    RecordsFollowReports(q.tracker, q.output, time)
  }
}
