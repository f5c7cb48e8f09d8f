/** The high-availability reconciler: rolling replacement of unhealthy replicas
    and top-up of under-replicated models, sharing one bounded attempt budget.

    One reconciler process runs; its sweep first selects the unhealthy rows,
    visits them one by one, and only then tops up.  Everything else (node
    agents, health watchers, other claimers) may act between any two steps. */
module Recovery {
  import opened Common
  import opened Runtimes

  const MAX_ATTEMPTS: nat := 5
  const FAILED_GRACE := 300

  function Pow2(n: nat): nat { if n == 0 then 1 else 2 * Pow2(n - 1) }

  /** Seconds to wait before the attempt with this number. */
  function Cooldown(attempt: nat): nat {
    if 30 * Pow2(attempt) > 900 then 900 else 30 * Pow2(attempt)
  }

  /** How the environment decides a spawn that the attempt budget allows. */
  datatype Fate = Aborted | NoSlot | EnqueueFailed | Started

  /** What may go wrong with the single statements of a visit or a top-up; their
      errors are not looked at.  `lookup`: the predecessor's counter cannot be read.
      `read`: the replacement's state cannot be read.  `mark`: a write of a state is
      lost.  `link`: a write of a pointer, with all it carries, is lost, as when the
      process dies after the insertion. */
  datatype Faults = Faults(lookup: bool, read: bool, mark: bool, link: bool)

  const NoFaults := Faults(false, false, false, false)

  datatype SpawnResult = Exhausted | NotSpawned | Spawned(id: RowId, attempt: nat)

  // ----- spawning -----

  /** A counter that cannot be read counts as a fresh chain. */
  function NextAttempt(rows: seq<Row>, from: Option<RowId>, lookupFails: bool): (nat, bool) {
    match from
    case None => (1, true)
    case Some(x) =>
      if x >= |rows| || lookupFails then (1, true) else (rows[x].attempt + 1, rows[x].attempt + 1 <= MAX_ATTEMPTS)
  }

  function MarkedLost(rows: seq<Row>, x: RowId, now: int): seq<Row>
    requires x < |rows|
  {
    var s := rows[x].state;
    if s == Lost || s == Stopped || s == Deleted || s == Archived then rows
    else rows[x := rows[x].(state := Lost, updatedAt := now)]
  }

  ghost function NewReplica(rows: seq<Row>, now: int, model: ModelId, from: Option<RowId>, attempt: nat): Row {
    Row(model, Pending, LeastFree(UsedIndexes(rows, model)), attempt, from, None, None, now, false)
  }

  /** The single insertion point of both recovery paths.  A vanished predecessor
      fails the foreign key on `recovered_from`. */
  ghost function Spawn(rows: seq<Row>, now: int, model: ModelId, from: Option<RowId>, fate: Fate, faults: Faults)
    : (seq<Row>, SpawnResult)
  {
    var (attempt, ok) := NextAttempt(rows, from, faults.lookup);
    if !ok then (if faults.mark then rows else MarkedLost(rows, from.value, now), Exhausted)
    else if fate == Aborted || fate == NoSlot || (from.Some? && from.value >= |rows|) then (rows, NotSpawned)
    else
      var row := NewReplica(rows, now, model, from, attempt);
      if fate == EnqueueFailed then (rows + [if faults.mark then row else row.(state := Failed)], NotSpawned)
      else (rows + [row], Spawned(|rows|, attempt))
  }

  // ----- the rolling replacement of one unhealthy row -----

  function Cleared(rows: seq<Row>, x: RowId, now: int): seq<Row>
    requires x < |rows|
  {
    rows[x := rows[x].(replacedBy := None, updatedAt := now)]
  }

  function ClearedUntil(rows: seq<Row>, x: RowId, now: int, retryAt: int): seq<Row>
    requires x < |rows|
  {
    rows[x := rows[x].(replacedBy := None, nextRetryAt := Some(retryAt), updatedAt := now)]
  }

  function TimedOut(rows: seq<Row>, n: RowId, now: int): seq<Row>
    requires n < |rows|
  {
    rows[n := rows[n].(state := Failed, updatedAt := now, confirmedDead := false)]
  }

  /** A replacement exists; `seen` is its state as the visit read it. */
  function CheckReplacement(
      rows: seq<Row>, now: int, x: RowId, n: RowId, since: int, seen: State, timeout: nat, faults: Faults): seq<Row>
    requires x < |rows|
  {
    if n >= |rows| || faults.read then (if faults.link then rows else Cleared(rows, x, now))
    else if Serving(seen) then
      if rows[x].state == Unhealthy && !faults.mark then rows[x := rows[x].(state := Draining, updatedAt := now)] else rows
    else
      var retryAt := now + Cooldown(rows[n].attempt + 1);
      if seen == Failed || seen == Stopped || seen == Deleted then
        (if faults.link then rows else ClearedUntil(rows, x, now, retryAt))
      else if now - since > timeout then
        var marked := if faults.mark then rows else TimedOut(rows, n, now);
        if faults.link then marked else ClearedUntil(marked, x, now, retryAt)
      else rows
  }

  predicate CoolingDown(row: Row, now: int, since: int) {
    match row.nextRetryAt
    case Some(t) => now < t
    case None => now - since < Cooldown(0)
  }

  ghost function ReplaceUnhealthy(rows: seq<Row>, now: int, x: RowId, since: int, fate: Fate, faults: Faults): seq<Row>
    requires x < |rows|
  {
    if CoolingDown(rows[x], now, since) then rows
    else
      var (rows', result) := Spawn(rows, now, rows[x].model, Some(x), fate, faults);
      if result.Spawned? && !faults.link
      then rows'[x := rows'[x].(replacedBy := Some(result.id), attempt := result.attempt, updatedAt := now)]
      else rows'
  }

  ghost function VisitRow(
      rows: seq<Row>, now: int, x: RowId, since: int, seen: State, fate: Fate, timeout: nat, faults: Faults): seq<Row>
    requires x < |rows|
  {
    match rows[x].replacedBy
    case Some(n) => CheckReplacement(rows, now, x, n, since, seen, timeout, faults)
    case None => ReplaceUnhealthy(rows, now, x, since, fate, faults)
  }

  // ----- top-up, draining and the failed sweep -----

  predicate Unrepaired(row: Row, model: ModelId) {
    row.model == model && row.replacedBy == None && (row.state == Failed || row.state == Stopped || row.state == Lost)
  }

  /** The predecessor a top-up may name: a most recent unrepaired failure, or
      none (also when the query fails). */
  predicate Eligible(rows: seq<Row>, model: ModelId, from: Option<RowId>) {
    from.Some? ==>
      && from.value < |rows| && Unrepaired(rows[from.value], model)
      && forall i :: 0 <= i < |rows| && Unrepaired(rows[i], model) ==> rows[i].updatedAt <= rows[from.value].updatedAt
  }

  ghost function TopUpRows(
      rows: seq<Row>, now: int, model: ModelId, from: Option<RowId>, fate: Fate, faults: Faults): seq<Row>
  {
    var (rows', result) := Spawn(rows, now, model, from, fate, faults);
    if result.Spawned? && from.Some? && from.value < |rows'| && !faults.link
    then rows'[from.value := rows'[from.value].(replacedBy := Some(result.id), updatedAt := now)]
    else rows'
  }

  /** Draining goes to stopping, and back when the stop cannot be queued. */
  function StopDrained(row: Row, now: int, queued: bool): Row {
    if row.state != Draining then row
    else if queued then row.(state := Stopping, updatedAt := now)
    else row.(updatedAt := now)
  }

  function SweptRow(row: Row, now: int): Row {
    if row.state == Failed && (row.confirmedDead || row.updatedAt < now - FAILED_GRACE)
    then row.(state := Stopped, updatedAt := now) else row
  }

  function Swept(rows: seq<Row>, now: int): (r: seq<Row>)
    ensures |r| == |rows| && forall i :: 0 <= i < |rows| ==> r[i] == SweptRow(rows[i], now)
  {
    if rows == [] then [] else Swept(rows[..|rows| - 1], now) + [SweptRow(rows[|rows| - 1], now)]
  }

  // ----- the whole system -----

  /** `selected` holds the rows this sweep has selected and not yet visited, with
      the time stamps they had then. */
  datatype Fleet = Fleet(rows: seq<Row>, now: int, selected: map<RowId, int>)

  datatype Event =
    | BeginSweep(chosen: set<RowId>)
    | Visit(row: RowId, seen: State, fate: Fate, timeout: nat, faults: Faults)
    | TopUp(model: ModelId, from: Option<RowId>, fate: Fate, faults: Faults)
    | Stop(row: RowId, queued: bool)
    | SweepFailed
    | Report(row: RowId, to: State, at: int, dead: bool)
    | Arrive(model: ModelId)
    | Tick(seconds: nat)

  /** Whatever happens to a row between two looks at it, the dead stay dead. */
  predicate MayBecome(from: State, to: State) { Dead(from) ==> Dead(to) }

  /** A visit reads the replacement's state and then writes; the row may have
      moved on in between. */
  predicate Consistent(f: Fleet, x: RowId, seen: State)
    requires x < |f.rows|
  {
    var n := f.rows[x].replacedBy;
    n.Some? && n.value < |f.rows| ==> MayBecome(seen, f.rows[n.value].state)
  }

  ghost function Next(f: Fleet, e: Event): Fleet {
    match e
    case BeginSweep(chosen) =>
      if f.selected == map[] && forall x :: x in chosen ==> x < |f.rows| && f.rows[x].state == Unhealthy
      then f.(selected := map x | x in chosen :: f.rows[x].updatedAt) else f
    case Visit(x, seen, fate, timeout, faults) =>
      if x in f.selected && x < |f.rows| && Consistent(f, x, seen)
      then f.(rows := VisitRow(f.rows, f.now, x, f.selected[x], seen, fate, timeout, faults), selected := f.selected - {x}) else f
    case TopUp(model, from, fate, faults) =>
      if f.selected == map[] && Eligible(f.rows, model, from)
      then f.(rows := TopUpRows(f.rows, f.now, model, from, fate, faults)) else f
    case Stop(x, queued) =>
      if x < |f.rows| then f.(rows := f.rows[x := StopDrained(f.rows[x], f.now, queued)]) else f
    case SweepFailed => f.(rows := Swept(f.rows, f.now))
    case Report(x, to, at, dead) =>
      if x < |f.rows| && MayBecome(f.rows[x].state, to)
      then f.(rows := f.rows[x := f.rows[x].(state := to, updatedAt := at, confirmedDead := dead)]) else f
    case Arrive(model) =>
      f.(rows := f.rows + [Row(model, Pending, -1, 0, None, None, None, f.now, false)])
    case Tick(seconds) => f.(now := f.now + seconds)
  }

  ghost function Run(f: Fleet, es: seq<Event>): Fleet
    decreases |es|
  {
    if es == [] then f else Run(Next(f, es[0]), es[1..])
  }

  // ----- backoff in machine arithmetic -----

  /** A 64-bit two's complement value. */
  function Wrap64(x: int): int {
    var m := x % 0x1_0000_0000_0000_0000;
    if m >= 0x8000_0000_0000_0000 then m - 0x1_0000_0000_0000_0000 else m
  }

  /** The cooldown in nanoseconds as the program computes it: a 64-bit shift
      followed by a wrapping 64-bit multiplication. */
  function CooldownNanos(attempt: nat): int {
    var shifted := if attempt >= 64 then 0 else Pow2(attempt);
    var d := Wrap64(30_000_000_000 * Wrap64(shifted));
    if d > 900_000_000_000 then 900_000_000_000 else d
  }

  lemma {:induction false} Pow2Grows(a: nat, b: nat)
    requires a <= b
    ensures 1 <= Pow2(a) <= Pow2(b)
    decreases b
  {
    if b > 0 {
      if a == b { Pow2Grows(0, b - 1); } else { Pow2Grows(a, b - 1); }
      if a == b { assert Pow2(b) == 2 * Pow2(b - 1) >= 1; }
    }
  }

  lemma Pow2At28()
    ensures Pow2(28) == 0x1000_0000
  {
    assert Pow2(7) == 128;
    assert Pow2(14) == 0x4000;
    assert Pow2(21) == 0x20_0000;
  }

  lemma NoWrap(x: int)
    requires 0 <= x < 0x8000_0000_0000_0000
    ensures Wrap64(x) == x
  {
  }

  /** Up to a shift of 28 nothing wraps, and the program's value is the intended
      one; at 29 it is negative. */
  lemma CooldownIsExact(attempt: nat)
    requires attempt <= 28
    ensures CooldownNanos(attempt) == 1_000_000_000 * Cooldown(attempt)
  {
    Pow2Grows(attempt, 28);
    Pow2At28();
    hide Pow2, Wrap64;
    var p := Pow2(attempt);
    assert 1 <= p <= 0x1000_0000;
    NoWrap(p);
    NoWrap(30_000_000_000 * p);
  }

  lemma CooldownOverflowsAt29()
    ensures CooldownNanos(29) < 0
  {
    Pow2At28();
    assert Pow2(29) == 0x2000_0000;
  }
}
