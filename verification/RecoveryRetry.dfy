/** When the reconciler does spawn: the waits, the attempt budget and the outcome
    of a spawn, in times and states. */
module RecoveryRetry {
  import opened Common
  import opened Runtimes
  import opened Recovery
  import opened RecoveryInvariant
  import opened RecoveryTheorems

  /** The wait is over: the retry time has come, or, before the first attempt, thirty
      seconds have passed since the row was found unhealthy. */
  predicate Due(row: Row, now: int, since: int) {
    match row.nextRetryAt
    case Some(t) => t <= now
    case None => now - since >= 30
  }

  predicate WithinBudget(row: Row, faults: Faults) { row.attempt < 5 || faults.lookup }

  predicate Inserts(fate: Fate) { fate == Started || fate == EnqueueFailed }

  /** The row that a spawn adds. */
  ghost predicate NewRowIs(rows: seq<Row>, row: Row, now: int, model: ModelId, from: Option<RowId>, attempt: nat, failed: bool) {
    && row.model == model && row.recoveredFrom == from && row.attempt == attempt
    && row.state == (if failed then Failed else Pending)
    && IsLeastFree(UsedIndexes(rows, model), row.index)
    && row.replacedBy == None && row.nextRetryAt == None && row.updatedAt == now
  }

  /** A visit to a row without replacement spawns exactly when the row's wait is
      over, its budget allows another attempt and nothing prevents the insertion.
      The new row continues the counter, and the visited row is linked to it once it
      is started.  A row whose budget is used up is marked lost; otherwise nothing
      changes. */
  lemma VisitSpawnsIff(f: Fleet, e: Event)
    requires Happens(f, e) && f.rows[e.row].replacedBy == None
    ensures var rows, rows', x, now := f.rows, Next(f, e).rows, e.row, f.now;
      var due := Due(rows[x], now, f.selected[x]);
      var attempt := if e.faults.lookup then 1 else rows[x].attempt + 1;
      && (|rows'| != |rows| <==> due && WithinBudget(rows[x], e.faults) && Inserts(e.fate))
      && (|rows'| != |rows| ==>
            && |rows'| == |rows| + 1
            && NewRowIs(rows, rows'[|rows|], now, rows[x].model, Some(x), attempt, e.fate == EnqueueFailed && !e.faults.mark)
            && rows'[..|rows|] == if e.fate == Started && !e.faults.link
                                  then rows[x := rows[x].(replacedBy := Some(|rows|), attempt := attempt, updatedAt := now)] else rows)
      && (|rows'| == |rows| ==>
            rows' == if due && !WithinBudget(rows[x], e.faults) && !e.faults.mark
                        && rows[x].state != Lost && rows[x].state != Stopped && rows[x].state != Deleted && rows[x].state != Archived
                     then rows[x := rows[x].(state := Lost, updatedAt := now)] else rows)
  {
    assert Cooldown(0) == 30;
    hide UsedIndexes, Cooldown;
    var rows, rows', x := f.rows, Next(f, e).rows, e.row;
    if |rows'| != |rows| {
      assert rows'[..|rows|] == if e.fate == Started && !e.faults.link
        then rows[x := rows[x].(replacedBy := Some(|rows|), attempt := rows'[|rows|].attempt, updatedAt := f.now)] else rows;
    }
  }

  /** A visit to a row whose replacement cannot be read, or has vanished, forgets the
      replacement at once and sets no new wait; one that finds the replacement still
      starting, within its time, changes nothing. */
  lemma VisitForgetsOrWaits(f: Fleet, e: Event, n: RowId)
    requires Happens(f, e) && f.rows[e.row].replacedBy == Some(n) && !e.faults.link
    ensures var rows, rows', x := f.rows, Next(f, e).rows, e.row;
      && (e.faults.read || n >= |rows| ==> rows' == rows[x := rows[x].(replacedBy := None, updatedAt := f.now)])
      && (!e.faults.read && n < |rows| && f.now - f.selected[x] <= e.timeout
          && (e.seen == Pending || e.seen == Pulling || e.seen == Loading || e.seen == Starting || e.seen == Unhealthy || e.seen == Lost) ==>
            rows' == rows)
  {
    hide Cooldown;
  }

  /** The same for a top-up: it spawns exactly when the predecessor it continues, if
      any, has budget left. */
  lemma TopUpSpawnsIff(f: Fleet, e: Event)
    requires e.TopUp? && f.selected == map[] && Eligible(f.rows, e.model, e.from)
    ensures var rows, rows', now := f.rows, Next(f, e).rows, f.now;
      var attempt := if e.from == None || e.faults.lookup then 1 else rows[e.from.value].attempt + 1;
      && (|rows'| != |rows| <==> (e.from.Some? ==> WithinBudget(rows[e.from.value], e.faults)) && Inserts(e.fate))
      && (|rows'| != |rows| ==>
            && |rows'| == |rows| + 1
            && NewRowIs(rows, rows'[|rows|], now, e.model, e.from, attempt, e.fate == EnqueueFailed && !e.faults.mark)
            && rows'[..|rows|] == if e.from.Some? && e.fate == Started && !e.faults.link
                                  then rows[e.from.value := rows[e.from.value].(replacedBy := Some(|rows|), updatedAt := now)] else rows)
  {
    hide UsedIndexes;
    var rows, rows' := f.rows, Next(f, e).rows;
    if |rows'| != |rows| {
      assert rows'[..|rows|] == if e.from.Some? && e.fate == Started && !e.faults.link
        then rows[e.from.value := rows[e.from.value].(replacedBy := Some(|rows|), updatedAt := f.now)] else rows;
    }
  }

  /** Until its retry time has come, and then until it is visited, nothing but a
      top-up changes that row `h` waits. */
  ghost predicate LeavesWaiting(f: Fleet, es: seq<Event>, h: RowId, until: int)
    decreases |es|
  {
    es == [] ||
    (&& !(es[0].TopUp? && es[0].from == Some(h)) && (es[0].Visit? && es[0].row == h ==> f.now < until)
     && LeavesWaiting(Next(f, es[0]), es[1..], h, until))
  }

  lemma {:induction false} StillWaiting(f: Fleet, es: seq<Event>, h: RowId, until: int)
    requires WaitsUntil(f, h, until) && LeavesWaiting(f, es, h, until)
    ensures WaitsUntil(Run(f, es), h, until)
    decreases |es|
  {
    hide Next, WaitsUntil;
    if es != [] {
      StepKeepsWaiting(f, es[0], h, until);
      StillWaiting(Next(f, es[0]), es[1..], h, until);
    }
  }

  /** An undisturbed visit that starts a replica for a row with budget left. */
  predicate StartsReplica(f: Fleet, v: Event, h: RowId) {
    Happens(f, v) && v.row == h && f.rows[h].attempt < 5 && v.fate == Started && v.faults == NoFaults
  }

  /** The visit gave the row a new live replacement with the next attempt number. */
  predicate HasNewReplica(f: Fleet, f': Fleet, h: RowId) {
    && h < |f.rows| && |f'.rows| == |f.rows| + 1
    && f'.rows[h].replacedBy == Some(|f.rows|) && f'.rows[|f.rows|].recoveredFrom == Some(h)
    && f'.rows[|f.rows|].state == Pending && f'.rows[|f.rows|].attempt == f'.rows[h].attempt == f.rows[h].attempt + 1
  }

  /** A failed replacement is retried: the first visit at or after the retry time
      that finds budget left and starts a replica links it to the row. */
  lemma RetryHappens(f: Fleet, e: Event, n: RowId, es: seq<Event>, v: Event)
    requires Happens(f, e) && f.rows[e.row].replacedBy == Some(n) && n < |f.rows| && !Serving(e.seen)
    requires !e.faults.read && !e.faults.link
    requires e.seen == Failed || e.seen == Stopped || e.seen == Deleted || f.now - f.selected[e.row] > e.timeout
    ensures var until := f.now + Cooldown(f.rows[n].attempt + 1); var g := Run(Next(f, e), es);
      LeavesWaiting(Next(f, e), es, e.row, until) && until <= g.now && StartsReplica(g, v, e.row) ==>
        HasNewReplica(g, Next(g, v), e.row)
  {
    hide Next, Run, Cooldown, LeavesWaiting;
    var until := f.now + Cooldown(f.rows[n].attempt + 1);
    var g := Run(Next(f, e), es);
    if LeavesWaiting(Next(f, e), es, e.row, until) && until <= g.now && StartsReplica(g, v, e.row) {
      FailureStartsCooldown(f, e, n);
      StillWaiting(Next(f, e), es, e.row, until);
      VisitSpawnsIff(g, v);
      assert Next(g, v).rows[..|g.rows|][e.row] == Next(g, v).rows[e.row];
    }
  }

  /** The backoff in numbers: it doubles from thirty seconds up to fifteen minutes. */
  lemma BackoffValues(attempt: nat)
    ensures Cooldown(0) == 30 && Cooldown(attempt) <= 900
    ensures Cooldown(attempt + 1) == if 2 * Cooldown(attempt) <= 900 then 2 * Cooldown(attempt) else 900
  {
  }
}
