/**
  The two read-only queries: `getStats` (counters and the "accuracy"
  figure) and `getPlayerHistory` (one summary row per player that appears in
  the history, sorted by id).
 */
module Queries {
  import opened State

  /** How many events in `h` carry action `a`. */
  function CountAction(h: seq<HistoryEvent>, a: Action): (n: nat)
    ensures n <= |h|
  {
    if h == [] then 0
    else CountAction(h[..|h| - 1], a) + (if h[|h| - 1].action == a then 1 else 0)
  }

  /** How many events in `h` carry an action other than `a`. */
  function CountOtherThan(h: seq<HistoryEvent>, a: Action): (n: nat)
    ensures n <= |h|
  {
    if h == [] then 0
    else CountOtherThan(h[..|h| - 1], a) + (if h[|h| - 1].action != a then 1 else 0)
  }

  /** Every event either carries `a` or does not. */
  lemma {:induction false} CountsPartition(h: seq<HistoryEvent>, a: Action)
    ensures CountAction(h, a) + CountOtherThan(h, a) == |h|
  {
    if h != [] {
      CountsPartition(h[..|h| - 1], a);
    }
  }

  /** An action that occurs nowhere in `h` is counted zero times. */
  lemma {:induction false} CountAbsent(h: seq<HistoryEvent>, a: Action)
    requires forall i :: 0 <= i < |h| ==> h[i].action != a
    ensures CountAction(h, a) == 0
  {
    if h != [] {
      CountAbsent(h[..|h| - 1], a);
    }
  }

  /** Counting over a concatenation adds up. */
  lemma {:induction false} CountActionConcat(a: seq<HistoryEvent>, b: seq<HistoryEvent>, act: Action)
    ensures CountAction(a + b, act) == CountAction(a, act) + CountAction(b, act)
  {
    if b == [] {
      assert a + b == a;
    } else {
      CountActionConcat(a, b[..|b| - 1], act);
      assert (a + b)[..|a + b| - 1] == a + b[..|b| - 1];
    }
  }

  /** The figures `getStats` reports; `accuracy` is a number rather than a formatted string. */
  datatype Stats = Stats(totalPlayers: int, activePlayers: nat, reidentifications: nat, accuracy: real)

  /**
    `getStats`: every id ever issued, the players currently stored, the
    re-identification events, and the share of events that are not `Lost`,
    as a percentage (0 for an empty history).
   */
  function GetStats(s: TrackerState): (r: Stats)
    ensures r.reidentifications <= |s.playerHistory|
    ensures 0.0 <= r.accuracy <= 100.0
    ensures r.accuracy == 0.0 <== s.playerHistory == []
  {
    var totalFrames := |s.playerHistory|;
    var successfulTracks := CountOtherThan(s.playerHistory, Lost);
    var accuracy := if totalFrames > 0 then Percentage(successfulTracks, totalFrames) else 0.0;
    Stats(s.nextPlayerId - 1, |s.players|, CountAction(s.playerHistory, Action.Reidentified), accuracy)
  }

  /** `part / whole * 100`, a share as a percentage. */
  function Percentage(part: nat, whole: nat): (p: real)
    requires 0 < whole && part <= whole
    ensures 0.0 <= p <= 100.0
    ensures p == 100.0 <==> part == whole
  {
    PercentageBounds(part, whole);
    part as real / whole as real * 100.0
  }

  lemma {:induction false} PercentageBounds(part: nat, whole: nat)
    requires 0 < whole && part <= whole
    ensures 0.0 <= part as real / whole as real <= 1.0
    ensures part as real / whole as real == 1.0 <==> part == whole
  {
    var q := part as real / whole as real;
    assert q * whole as real == part as real;
  }

  lemma {:induction false} KeysBelowCard(keys: set<int>, k: int)
    requires forall id :: id in keys ==> 1 <= id < k
    ensures |keys| <= if k < 1 then 0 else k - 1
    decreases k
  {
    if k > 1 {
      var rest := keys - {k - 1};
      KeysBelowCard(rest, k - 1);
    } else {
      assert forall id :: id !in keys;
      assert keys == {};
    }
  }

  /**
    On any valid state: no event is `Lost`, so accuracy is 100 exactly when
    the history is non-empty (and 0 otherwise), and the active players never
    outnumber the ids ever issued.
   */
  lemma {:induction false} StatsOfValid(s: TrackerState)
    requires Valid(s)
    ensures GetStats(s).totalPlayers == s.nextPlayerId - 1 >= 0
    ensures GetStats(s).activePlayers == |s.players| <= GetStats(s).totalPlayers
    ensures GetStats(s).accuracy == if s.playerHistory == [] then 0.0 else 100.0
  {
    CountAbsent(s.playerHistory, Lost);
    CountsPartition(s.playerHistory, Lost);
    KeysBelowCard(s.players.Keys, s.nextPlayerId);
    assert |s.players| == |s.players.Keys|;
  }

  // ----- getPlayerHistory -----

  datatype PlayerStatus = Active | Inactive

  /** One row of `getPlayerHistory`. */
  datatype HistoryRow = HistoryRow(
    id: int,
    firstSeen: real,
    lastSeen: real,
    totalDetections: nat,
    reidentifications: nat,
    status: PlayerStatus)

  /** The events of player `id`, in log order. */
  function Group(h: seq<HistoryEvent>, id: int): (g: seq<HistoryEvent>)
    ensures |g| <= |h|
    ensures forall i :: 0 <= i < |g| ==> g[i].playerId == id
    ensures forall i :: 0 <= i < |h| && h[i].playerId == id ==> h[i] in g
  {
    if h == [] then []
    else Group(h[..|h| - 1], id) + (if h[|h| - 1].playerId == id then [h[|h| - 1]] else [])
  }

  /** `id` has at least one event in `h`. */
  predicate Occurs(h: seq<HistoryEvent>, id: int)
  {
    exists i :: 0 <= i < |h| && h[i].playerId == id
  }

  /** A player's group is non-empty exactly when the player occurs in the log. */
  lemma {:induction false} GroupNonEmpty(h: seq<HistoryEvent>, id: int)
    ensures |Group(h, id)| > 0 <==> Occurs(h, id)
  {
    if h != [] {
      var init := h[..|h| - 1];
      GroupNonEmpty(init, id);
      if Occurs(init, id) {
        var i :| 0 <= i < |init| && init[i].playerId == id;
        assert h[i].playerId == id;
      }
      if Occurs(h, id) && h[|h| - 1].playerId != id {
        var i :| 0 <= i < |h| && h[i].playerId == id;
        assert init[i].playerId == id;
      }
    }
  }

  /**
    The JS expression `a || b` on numbers: `a` unless it is falsy (`0`; reals
    have no NaN), in which case `b`.
   */
  function OrElse(a: real, b: real): real
  {
    if a != 0.0 then a else b
  }

  /**
    The row for a player with a non-empty group: first and last event times,
    where `lastSeen` prefers the stored player's `lastSeen` unless that is 0
    or the player is gone.
   */
  function RowFor(s: TrackerState, id: int): (row: HistoryRow)
    requires |Group(s.playerHistory, id)| > 0
    ensures row.id == id
    ensures row.totalDetections == |Group(s.playerHistory, id)|
    ensures row.reidentifications == CountAction(Group(s.playerHistory, id), Action.Reidentified) <= row.totalDetections
    ensures row.status == Active <==> id in s.players
    ensures row.firstSeen == Group(s.playerHistory, id)[0].time
    ensures id in s.players && s.players[id].lastSeen != 0.0 ==> row.lastSeen == s.players[id].lastSeen
    ensures (id !in s.players || s.players[id].lastSeen == 0.0) ==>
      row.lastSeen == Group(s.playerHistory, id)[|Group(s.playerHistory, id)| - 1].time
  {
    var history := Group(s.playerHistory, id);
    var lastAction := history[|history| - 1];
    HistoryRow(
      id,
      OrElse(history[0].time, 0.0),
      OrElse(if id in s.players then s.players[id].lastSeen else 0.0, OrElse(lastAction.time, 0.0)),
      |history|,
      CountAction(history, Action.Reidentified),
      if id in s.players then Active else Inactive)
  }

  /** The rows for the ids in `[1, k)` that occur in the log, ascending. */
  function RowsBelow(s: TrackerState, k: int): (rows: seq<HistoryRow>)
    ensures forall r :: 0 <= r < |rows| ==> 1 <= rows[r].id < k
    ensures forall r1, r2 :: 0 <= r1 < r2 < |rows| ==> rows[r1].id < rows[r2].id
    decreases k
  {
    if k <= 1 then []
    else
      RowsBelow(s, k - 1)
      + (if |Group(s.playerHistory, k - 1)| > 0 then [RowFor(s, k - 1)] else [])
  }

  /**
    `getPlayerHistory`: group the log by player and sort the groups by id.
    On a valid state every logged id lies in `[1, nextPlayerId)`, so walking
    that range in order yields the groups already sorted.
   */
  function GetPlayerHistory(s: TrackerState): (rows: seq<HistoryRow>)
    requires Valid(s)
    ensures forall r1, r2 :: 0 <= r1 < r2 < |rows| ==> rows[r1].id < rows[r2].id
  {
    RowsBelow(s, s.nextPlayerId)
  }

  /** Every logged id below `k` has a row. */
  lemma {:induction false} RowsBelowHasRow(s: TrackerState, k: int, id: int)
    requires 1 <= id < k && Occurs(s.playerHistory, id)
    ensures exists r :: 0 <= r < |RowsBelow(s, k)| && RowsBelow(s, k)[r].id == id
    decreases k
  {
    var rows := RowsBelow(s, k);
    var init := RowsBelow(s, k - 1);
    if id == k - 1 {
      GroupNonEmpty(s.playerHistory, id);
      assert rows == init + [RowFor(s, id)];
      assert rows[|init|].id == id;
    } else {
      RowsBelowHasRow(s, k - 1, id);
      var r :| 0 <= r < |init| && init[r].id == id;
      assert rows[r] == init[r];
    }
  }

  /** Every row names a logged id. */
  lemma {:induction false} RowsBelowOnlyLogged(s: TrackerState, k: int, r: int)
    requires 0 <= r < |RowsBelow(s, k)|
    ensures Occurs(s.playerHistory, RowsBelow(s, k)[r].id)
    decreases k
  {
    var rows := RowsBelow(s, k);
    var init := RowsBelow(s, k - 1);
    GroupNonEmpty(s.playerHistory, k - 1);
    if r < |init| {
      assert rows[r] == init[r];
      RowsBelowOnlyLogged(s, k - 1, r);
    } else {
      assert rows[r] == RowFor(s, k - 1);
    }
  }

  /** Every row is the summary of its own id's events. */
  lemma {:induction false} RowsBelowAreRows(s: TrackerState, k: int)
    ensures forall r :: 0 <= r < |RowsBelow(s, k)| ==>
      |Group(s.playerHistory, RowsBelow(s, k)[r].id)| > 0 && RowsBelow(s, k)[r] == RowFor(s, RowsBelow(s, k)[r].id)
    decreases k
  {
    if k > 1 {
      RowsBelowAreRows(s, k - 1);
    }
  }

  /** One row per player that occurs in the log, and no other. */
  lemma {:induction false} PlayerHistoryCovers(s: TrackerState, id: int)
    requires Valid(s)
    ensures (exists r :: 0 <= r < |GetPlayerHistory(s)| && GetPlayerHistory(s)[r].id == id)
        <==> Occurs(s.playerHistory, id)
  {
    var rows := GetPlayerHistory(s);
    if Occurs(s.playerHistory, id) {
      var i :| 0 <= i < |s.playerHistory| && s.playerHistory[i].playerId == id;
      assert 1 <= id < s.nextPlayerId;
      RowsBelowHasRow(s, s.nextPlayerId, id);
    }
    if exists r :: 0 <= r < |rows| && rows[r].id == id {
      var r :| 0 <= r < |rows| && rows[r].id == id;
      RowsBelowOnlyLogged(s, s.nextPlayerId, r);
    }
  }

  /**
    Each row's status is `Active` exactly when its player is still stored,
    and its detection count is the number of that player's events.
   */
  lemma {:induction false} PlayerHistoryRows(s: TrackerState)
    requires Valid(s)
    ensures forall r :: 0 <= r < |GetPlayerHistory(s)| ==>
      var row := GetPlayerHistory(s)[r];
      && (row.status == Active <==> row.id in s.players)
      && row.totalDetections == |Group(s.playerHistory, row.id)|
      && row.totalDetections > 0
  {
    RowsBelowAreRows(s, s.nextPlayerId);
  }

  function TotalDetections(rows: seq<HistoryRow>): nat
  {
    if rows == [] then 0 else TotalDetections(rows[..|rows| - 1]) + rows[|rows| - 1].totalDetections
  }

  /** How many events name an id in `[1, k)`. */
  function CountIdsBelow(h: seq<HistoryEvent>, k: int): (n: nat)
    ensures n <= |h|
  {
    if h == [] then 0
    else CountIdsBelow(h[..|h| - 1], k) + (if 1 <= h[|h| - 1].playerId < k then 1 else 0)
  }

  /** Raising the bound from `k` to `k + 1` adds the events of id `k`. */
  lemma {:induction false} CountIdsBelowStep(h: seq<HistoryEvent>, k: int)
    requires k >= 1
    ensures CountIdsBelow(h, k + 1) == CountIdsBelow(h, k) + |Group(h, k)|
  {
    if h != [] {
      CountIdsBelowStep(h[..|h| - 1], k);
    }
  }

  lemma {:induction false} TotalDetectionsAppend(rows: seq<HistoryRow>, row: HistoryRow)
    ensures TotalDetections(rows + [row]) == TotalDetections(rows) + row.totalDetections
  {
    assert (rows + [row])[..|rows|] == rows;
  }

  lemma {:induction false} RowsBelowTotal(s: TrackerState, k: int)
    ensures TotalDetections(RowsBelow(s, k)) == CountIdsBelow(s.playerHistory, if k < 1 then 1 else k)
    decreases k
  {
    if k <= 1 {
      CountIdsBelowNone(s.playerHistory, if k < 1 then 1 else k);
    } else {
      RowsBelowTotal(s, k - 1);
      CountIdsBelowStep(s.playerHistory, k - 1);
      if |Group(s.playerHistory, k - 1)| > 0 {
        TotalDetectionsAppend(RowsBelow(s, k - 1), RowFor(s, k - 1));
      } else {
        assert RowsBelow(s, k) == RowsBelow(s, k - 1);
      }
    }
  }

  lemma {:induction false} CountIdsBelowNone(h: seq<HistoryEvent>, k: int)
    requires k <= 1
    ensures CountIdsBelow(h, k) == 0
  {
    if h != [] {
      CountIdsBelowNone(h[..|h| - 1], k);
    }
  }

  lemma {:induction false} CountIdsBelowAll(h: seq<HistoryEvent>, k: int)
    requires forall i :: 0 <= i < |h| ==> 1 <= h[i].playerId < k
    ensures CountIdsBelow(h, k) == |h|
  {
    if h != [] {
      CountIdsBelowAll(h[..|h| - 1], k);
    }
  }

  /** Every event is counted in exactly one row: the `totalDetections` column sums to the log length. */
  lemma {:induction false} PlayerHistoryTotal(s: TrackerState)
    requires Valid(s)
    ensures TotalDetections(GetPlayerHistory(s)) == |s.playerHistory|
  {
    RowsBelowTotal(s, s.nextPlayerId);
    CountIdsBelowAll(s.playerHistory, s.nextPlayerId);
  }

  function TotalReidentifications(rows: seq<HistoryRow>): nat
  {
    if rows == [] then 0
    else TotalReidentifications(rows[..|rows| - 1]) + rows[|rows| - 1].reidentifications
  }

  /** How many events carry action `a` and name an id in `[1, k)`. */
  function CountActionBelow(h: seq<HistoryEvent>, k: int, a: Action): (n: nat)
    ensures n <= CountAction(h, a)
  {
    if h == [] then 0
    else
      var e := h[|h| - 1];
      CountActionBelow(h[..|h| - 1], k, a) + (if 1 <= e.playerId < k && e.action == a then 1 else 0)
  }

  /** Raising the bound from `k - 1` to `k` adds the `a`-events of id `k - 1`. */
  lemma {:induction false} CountActionBelowStep(h: seq<HistoryEvent>, k: int, a: Action)
    requires k > 1
    ensures CountActionBelow(h, k, a) == CountActionBelow(h, k - 1, a) + CountAction(Group(h, k - 1), a)
  {
    if h != [] {
      var init, e := h[..|h| - 1], h[|h| - 1];
      CountActionBelowStep(init, k, a);
      if e.playerId == k - 1 {
        assert Group(h, k - 1) == Group(init, k - 1) + [e];
        CountActionConcat(Group(init, k - 1), [e], a);
        assert CountAction([e], a) == (if e.action == a then 1 else 0) by {
          assert [e][..0] == [];
        }
      } else {
        assert Group(h, k - 1) == Group(init, k - 1);
      }
    }
  }

  lemma {:induction false} CountActionBelowNone(h: seq<HistoryEvent>, k: int, a: Action)
    requires k <= 1
    ensures CountActionBelow(h, k, a) == 0
  {
    if h != [] {
      CountActionBelowNone(h[..|h| - 1], k, a);
    }
  }

  lemma {:induction false} CountActionBelowAll(h: seq<HistoryEvent>, k: int, a: Action)
    requires forall i :: 0 <= i < |h| ==> 1 <= h[i].playerId < k
    ensures CountActionBelow(h, k, a) == CountAction(h, a)
  {
    if h != [] {
      CountActionBelowAll(h[..|h| - 1], k, a);
    }
  }

  lemma {:induction false} TotalReidentificationsAppend(rows: seq<HistoryRow>, row: HistoryRow)
    ensures TotalReidentifications(rows + [row]) == TotalReidentifications(rows) + row.reidentifications
  {
    assert (rows + [row])[..|rows|] == rows;
  }

  /** Adding the row of id `k - 1` adds that id's re-identification events. */
  lemma {:induction false} RowsBelowReidentificationsStep(s: TrackerState, k: int)
    requires k > 1
    ensures TotalReidentifications(RowsBelow(s, k))
         == TotalReidentifications(RowsBelow(s, k - 1)) + CountAction(Group(s.playerHistory, k - 1), Action.Reidentified)
  {
    var init := RowsBelow(s, k - 1);
    var g := Group(s.playerHistory, k - 1);
    if |g| > 0 {
      TotalReidentificationsAppend(init, RowFor(s, k - 1));
    } else {
      assert RowsBelow(s, k) == init + [] == init;
      assert g == [];
    }
  }

  lemma {:induction false} RowsBelowReidentifications(s: TrackerState, k: int)
    requires k >= 1
    ensures TotalReidentifications(RowsBelow(s, k)) == CountActionBelow(s.playerHistory, k, Action.Reidentified)
    decreases k
  {
    if k == 1 {
      CountActionBelowNone(s.playerHistory, k, Action.Reidentified);
    } else {
      RowsBelowReidentifications(s, k - 1);
      RowsBelowReidentificationsStep(s, k);
      CountActionBelowStep(s.playerHistory, k, Action.Reidentified);
    }
  }

  /**
    Every re-identification event is counted in exactly one row: the
    `reidentifications` column sums to the figure `getStats` reports.
   */
  lemma {:induction false} PlayerHistoryReidentifications(s: TrackerState)
    requires Valid(s)
    ensures TotalReidentifications(GetPlayerHistory(s)) == GetStats(s).reidentifications
  {
    RowsBelowReidentifications(s, s.nextPlayerId);
    CountActionBelowAll(s.playerHistory, s.nextPlayerId, Action.Reidentified);
  }
}
