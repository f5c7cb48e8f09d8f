/** Consequences for whole runs: one live replacement per row, exact backoff,
    and when exactly a reconciler step takes a replica out of service. */
module RecoveryTheorems {
  import opened Common
  import opened Runtimes
  import opened Recovery
  import opened RecoveryInvariant
  import opened RecoveryBound

  /** As long as no read or write of a visit is lost, two different rows recovered
      from the same row are never both alive. */
  lemma OneLiveReplacement(f: Fleet, es: seq<Event>, i: RowId, j: RowId)
    requires Inv(f) && OneLive(f.rows) && forall k :: 0 <= k < |es| ==> Intact(es[k])
    requires i < j < |Run(f, es).rows|
    requires var rows := Run(f, es).rows; rows[i].recoveredFrom.Some? && rows[i].recoveredFrom == rows[j].recoveredFrom
    ensures var rows := Run(f, es).rows; Dead(rows[i].state) || Dead(rows[j].state)
  {
    RunKeepsInv(f, es);
    RunKeepsOneLive(f, es);
    var rows := Run(f, es).rows;
    assert RowOk(rows, i);
    assert Orphaned(rows, i) || Orphaned(rows, j);
  }

  /** So two live replacements of one row mean that something was lost on the way. */
  lemma TwoLiveMeansLoss(now: int, es: seq<Event>, i: RowId, j: RowId)
    requires i < j < |Run(Fleet([], now, map[]), es).rows|
    requires var rows := Run(Fleet([], now, map[]), es).rows;
      && rows[i].recoveredFrom.Some? && rows[i].recoveredFrom == rows[j].recoveredFrom
      && !Dead(rows[i].state) && !Dead(rows[j].state)
    ensures exists k :: 0 <= k < |es| && !Intact(es[k])
  {
    hide Run, Intact;
    if forall k :: 0 <= k < |es| ==> Intact(es[k]) {
      OneLiveReplacement(Fleet([], now, map[]), es, i, j);
    }
  }

  /** In every reachable state, whatever fails, the counter is at most five and the
      backoff that a failed replacement leads to is computed without overflow. */
  lemma AttemptsAndBackoffBounded(f: Fleet, es: seq<Event>, i: RowId)
    requires Inv(f) && i < |Run(f, es).rows|
    ensures var rows := Run(f, es).rows;
      && rows[i].attempt <= MAX_ATTEMPTS
      && CooldownNanos(rows[i].attempt + 1) == 1_000_000_000 * Cooldown(rows[i].attempt + 1)
  {
    hide Run, CooldownNanos, Cooldown;
    RunKeepsInv(f, es);
    assert RowOk(Run(f, es).rows, i);
    CooldownIsExact(Run(f, es).rows[i].attempt + 1);
  }

  /** As long as no counter lookup fails, no chain is longer than five. */
  lemma ChainsWithinCounter(f: Fleet, es: seq<Event>, i: RowId)
    requires Inv(f) && Deep(f.rows) && (forall k :: 0 <= k < |es| ==> !LookupFails(es[k])) && i < |Run(f, es).rows|
    ensures Depth(Run(f, es).rows, i) <= Run(f, es).rows[i].attempt <= MAX_ATTEMPTS
  {
    hide Run;
    RunKeepsInv(f, es);
    RunKeepsDeep(f, es);
    assert RowOk(Run(f, es).rows, i);
  }

  /** A replacement spawned after a failed lookup keeps chains within the counter
      if and only if the replaced row is the first of its chain. */
  lemma FailedLookupKeepsChainsIff(f: Fleet, e: Event)
    requires Inv(f) && Deep(f.rows) && Happens(f, e) && e.faults.lookup
    requires f.rows[e.row].replacedBy == None && |Next(f, e).rows| > |f.rows|
    ensures Deep(Next(f, e).rows) <==> Depth(f.rows, e.row) == 0
  {
    hide ReplaceUnhealthy, Inv;
    var rows' := Next(f, e).rows;
    ReplaceCases(f.rows, f.now, e.row, f.selected[e.row], e.fate, e.faults);
    forall i | 0 <= i < |f.rows| ensures Depth(rows', i) == Depth(f.rows, i) { DepthSame(f.rows, rows', i); }
    assert Depth(rows', |f.rows|) == Depth(f.rows, e.row) + 1;
  }

  /** How far a row's attempt counter is ahead of its chain. */
  function Lead(rows: seq<Row>, i: RowId): int
    requires i < |rows|
  {
    rows[i].attempt - Depth(rows, i)
  }

  /** The counter is not the length of the chain: a replacement inherits the lead
      of its predecessor, and the predecessor's own lead grows with every
      replacement, so its next one stands as deep with a higher counter.  After a
      failed lookup the new row starts again at one. */
  lemma ReplacementInheritsLead(f: Fleet, e: Event)
    requires Inv(f) && Happens(f, e) && f.rows[e.row].replacedBy == None && |Next(f, e).rows| > |f.rows|
    ensures var rows := Next(f, e).rows; var before := Lead(f.rows, e.row);
      && |rows| == |f.rows| + 1
      && Depth(rows, |f.rows|) == Depth(f.rows, e.row) + 1
      && Lead(rows, |f.rows|) == (if e.faults.lookup then 0 - Depth(f.rows, e.row) else before)
      && (!e.faults.lookup ==> Lead(rows, e.row) == before + (if Links(e.fate, e.faults) then 1 else 0))
  {
    hide ReplaceUnhealthy, Inv;
    ReplaceCases(f.rows, f.now, e.row, f.selected[e.row], e.fate, e.faults);
    DepthSame(f.rows, Next(f, e).rows, e.row);
  }

  // ----- zero-downtime draining -----

  predicate ByReconciler(e: Event) {
    e.BeginSweep? || e.Visit? || e.TopUp? || e.Stop? || e.SweepFailed?
  }

  predicate Happens(f: Fleet, e: Event) {
    e.Visit? && e.row in f.selected && e.row < |f.rows| && Consistent(f, e.row, e.seen)
  }

  /** The visit saw a replacement that was still starting, gave up on it, and the
      replacement became ready before the unconditional write. */
  predicate LateTimeout(f: Fleet, e: Event, i: RowId) {
    && Happens(f, e) && f.rows[e.row].replacedBy == Some(i)
    && !Serving(e.seen) && !(e.seen == Failed || e.seen == Stopped || e.seen == Deleted)
    && f.now - f.selected[e.row] > e.timeout && !e.faults.read && !e.faults.mark
  }

  /** The row was selected as unhealthy, recovered, and its chain is exhausted. */
  predicate LateExhaustion(f: Fleet, e: Event, i: RowId) {
    && Happens(f, e) && e.row == i && f.rows[i].replacedBy == None
    && !CoolingDown(f.rows[i], f.now, f.selected[i]) && f.rows[i].attempt >= MAX_ATTEMPTS
    && !e.faults.lookup && !e.faults.mark
  }

  /** A reconciler step takes a serving replica out of service exactly when it
      acts on a state it read before the replica became ready. */
  lemma TakesOutOfServiceIff(f: Fleet, e: Event, i: RowId)
    requires ByReconciler(e) && i < |f.rows| && Serving(f.rows[i].state)
    ensures i < |Next(f, e).rows|
    ensures !Serving(Next(f, e).rows[i].state) <==> LateTimeout(f, e, i) || LateExhaustion(f, e, i)
  {
    hide UsedIndexes, Cooldown, CoolingDown;
    match e
    case Visit(x, seen, fate, timeout, faults) =>
      if Happens(f, e) {
        match f.rows[x].replacedBy
        case Some(n) => CheckServing(f.rows, f.now, x, n, f.selected[x], seen, timeout, faults, i);
        case None => ReplaceServing(f.rows, f.now, x, f.selected[x], fate, faults, i);
      }
    case TopUp(_, _, _, _) =>
    case BeginSweep(_) =>
    case Stop(_, _) =>
    case SweepFailed =>
  }

  lemma CheckServing(rows: seq<Row>, now: int, x: RowId, n: RowId, since: int, seen: State, timeout: nat, faults: Faults, i: RowId)
    requires x < |rows| && i < |rows| && Serving(rows[i].state)
    ensures !Serving(CheckReplacement(rows, now, x, n, since, seen, timeout, faults)[i].state)
      <==> (i == n && !Serving(seen) && !(seen == Failed || seen == Stopped || seen == Deleted) && now - since > timeout
            && !faults.read && !faults.mark)
  {
    hide Cooldown;
  }

  lemma ReplaceServing(rows: seq<Row>, now: int, x: RowId, since: int, fate: Fate, faults: Faults, i: RowId)
    requires x < |rows| && i < |rows| && Serving(rows[i].state)
    ensures i < |ReplaceUnhealthy(rows, now, x, since, fate, faults)|
    ensures !Serving(ReplaceUnhealthy(rows, now, x, since, fate, faults)[i].state)
      <==> (i == x && !CoolingDown(rows[x], now, since) && rows[x].attempt >= MAX_ATTEMPTS && !faults.lookup && !faults.mark)
  {
    hide UsedIndexes, CoolingDown;
  }

  /** Nothing moved between reading and writing: no reconciler step takes a
      replica out of service. */
  lemma UndisturbedStepKeepsServing(f: Fleet, e: Event, i: RowId)
    requires ByReconciler(e) && i < |f.rows| && Serving(f.rows[i].state)
    requires e.Visit? && e.row < |f.rows| ==>
      && f.rows[e.row].state == Unhealthy
      && (f.rows[e.row].replacedBy.Some? && f.rows[e.row].replacedBy.value < |f.rows| ==>
            e.seen == f.rows[f.rows[e.row].replacedBy.value].state)
    ensures i < |Next(f, e).rows| && Serving(Next(f, e).rows[i].state)
  {
    hide Next;
    TakesOutOfServiceIff(f, e, i);
  }

  /** A reconciler step puts a row into draining exactly when it visits the row, the
      row is unhealthy, and its replacement, of the same model, was read as ready,
      active, warm or idle. */
  lemma DrainsBehindServingIff(f: Fleet, e: Event, x: RowId)
    requires Inv(f) && ByReconciler(e) && x < |f.rows| && f.rows[x].state != Draining
    ensures x < |Next(f, e).rows|
    ensures Next(f, e).rows[x].state == Draining <==>
      && Happens(f, e) && e.row == x && f.rows[x].state == Unhealthy && f.rows[x].replacedBy.Some?
      && (e.seen == Ready || e.seen == Active || e.seen == Warm || e.seen == Idle) && !e.faults.read && !e.faults.mark
    ensures f.rows[x].replacedBy.Some? ==>
      f.rows[x].replacedBy.value < |f.rows| && f.rows[f.rows[x].replacedBy.value].model == f.rows[x].model
  {
    hide UsedIndexes, CheckReplacement, ReplaceUnhealthy;
    assert RowOk(f.rows, x);
    if Happens(f, e) {
      var h := e.row;
      assert RowOk(f.rows, h);
      match f.rows[h].replacedBy
      case Some(n) => CheckDrains(f.rows, f.now, h, n, f.selected[h], e.seen, e.timeout, e.faults, x);
      case None => ReplaceNeverDrains(f.rows, f.now, h, f.selected[h], e.fate, e.faults, x);
    }
  }

  lemma CheckDrains(rows: seq<Row>, now: int, h: RowId, n: RowId, since: int, seen: State, timeout: nat, faults: Faults, x: RowId)
    requires h < |rows| && x < |rows| && rows[x].state != Draining
    ensures |CheckReplacement(rows, now, h, n, since, seen, timeout, faults)| == |rows|
    ensures CheckReplacement(rows, now, h, n, since, seen, timeout, faults)[x].state == Draining
      <==> x == h && n < |rows| && Serving(seen) && rows[x].state == Unhealthy && !faults.read && !faults.mark
  {
    hide Cooldown;
  }

  lemma ReplaceNeverDrains(rows: seq<Row>, now: int, h: RowId, since: int, fate: Fate, faults: Faults, x: RowId)
    requires h < |rows| && x < |rows| && rows[x].state != Draining
    ensures x < |ReplaceUnhealthy(rows, now, h, since, fate, faults)|
    ensures ReplaceUnhealthy(rows, now, h, since, fate, faults)[x].state != Draining
  {
    hide UsedIndexes, CoolingDown;
  }

  /** Only draining rows enter stopping, only when the stop task could be queued;
      otherwise they are back in draining. */
  lemma StopsOnlyDrained(f: Fleet, e: Event, x: RowId)
    requires ByReconciler(e) && x < |f.rows|
    ensures x < |Next(f, e).rows|
    ensures f.rows[x].state != Stopping && Next(f, e).rows[x].state == Stopping
      <==> (f.rows[x].state == Draining && e == Stop(x, true))
    ensures f.rows[x].state == Draining && e == Stop(x, false) ==> Next(f, e).rows[x].state == Draining
  {
    hide UsedIndexes, Cooldown, CoolingDown;
  }

  /** After the failed sweep no failure is left that was confirmed or past its
      grace period, and nothing else has changed. */
  lemma SweepIsExact(f: Fleet, i: RowId)
    requires i < |f.rows|
    ensures var row := f.rows[i]; var row' := Next(f, SweepFailed).rows[i];
      && (row'.state == Failed ==> !row'.confirmedDead && row'.updatedAt >= f.now - 300)
      && (row' != row ==> row.state == Failed && row' == row.(state := Stopped, updatedAt := f.now))
      && (row'.state == Stopped && row.state != Stopped <==>
            row.state == Failed && (row.confirmedDead || row.updatedAt < f.now - 300))
  {
    hide Swept;
  }

  // ----- the cooldown cannot be reset -----

  /** Waiting for its next attempt until `until`. */
  predicate WaitsUntil(f: Fleet, h: RowId, until: int) {
    h < |f.rows| && f.rows[h].replacedBy == None && f.rows[h].nextRetryAt == Some(until)
  }

  /** A visit that finds the replacement failed, or times it out, starts the wait. */
  lemma FailureStartsCooldown(f: Fleet, e: Event, n: RowId)
    requires Happens(f, e) && f.rows[e.row].replacedBy == Some(n) && n < |f.rows| && !e.faults.read && !e.faults.link
    requires !Serving(e.seen)
    requires e.seen == Failed || e.seen == Stopped || e.seen == Deleted || f.now - f.selected[e.row] > e.timeout
    ensures WaitsUntil(Next(f, e), e.row, f.now + Cooldown(f.rows[n].attempt + 1))
    ensures |Next(f, e).rows| == |f.rows|
  {
    hide Cooldown;
  }

  lemma {:induction false} TimeMovesForward(f: Fleet, es: seq<Event>)
    ensures f.now <= Run(f, es).now
    decreases |es|
  {
    if es != [] {
      TimeMovesForward(Next(f, es[0]), es[1..]);
    }
  }

  lemma StepKeepsWaiting(f: Fleet, e: Event, h: RowId, until: int)
    requires WaitsUntil(f, h, until) && !(e.TopUp? && e.from == Some(h)) && (e.Visit? && e.row == h ==> f.now < until)
    ensures WaitsUntil(Next(f, e), h, until)
    ensures |f.rows| <= |Next(f, e).rows|
    ensures forall i :: |f.rows| <= i < |Next(f, e).rows| ==> Next(f, e).rows[i].recoveredFrom != Some(h)
    ensures forall i :: 0 <= i < |f.rows| ==> Next(f, e).rows[i].recoveredFrom == f.rows[i].recoveredFrom
  {
    hide UsedIndexes, Cooldown;
    match e
    case Visit(x, seen, fate, timeout, faults) =>
      if Happens(f, e) {
        match f.rows[x].replacedBy
        case Some(n) => CheckKeepsWaiting(f.rows, f.now, x, n, f.selected[x], seen, timeout, faults, h);
        case None => ReplaceKeepsWaiting(f.rows, f.now, x, f.selected[x], fate, faults, h, until);
      }
    case TopUp(_, _, _, _) =>
    case BeginSweep(_) =>
    case Stop(_, _) =>
    case SweepFailed =>
    case Report(_, _, _, _) =>
    case Arrive(_) =>
    case Tick(_) =>
  }

  lemma CheckKeepsWaiting(rows: seq<Row>, now: int, x: RowId, n: RowId, since: int, seen: State, timeout: nat, faults: Faults, h: RowId)
    requires x < |rows| && h < |rows| && rows[x].replacedBy == Some(n) && rows[h].replacedBy == None
    ensures var rows' := CheckReplacement(rows, now, x, n, since, seen, timeout, faults);
      && |rows'| == |rows| && rows'[h].replacedBy == None && rows'[h].nextRetryAt == rows[h].nextRetryAt
      && forall i :: 0 <= i < |rows| ==> rows'[i].recoveredFrom == rows[i].recoveredFrom
  {
    hide Cooldown;
  }

  lemma ReplaceKeepsWaiting(rows: seq<Row>, now: int, x: RowId, since: int, fate: Fate, faults: Faults, h: RowId, until: int)
    requires x < |rows| && h < |rows| && rows[x].replacedBy == None && rows[h].replacedBy == None
    requires rows[h].nextRetryAt == Some(until) && (x == h ==> now < until)
    ensures var rows' := ReplaceUnhealthy(rows, now, x, since, fate, faults);
      && |rows| <= |rows'| && rows'[h].replacedBy == None && rows'[h].nextRetryAt == Some(until)
      && (forall i :: 0 <= i < |rows| ==> rows'[i].recoveredFrom == rows[i].recoveredFrom)
      && (forall i :: |rows| <= i < |rows'| ==> rows'[i].recoveredFrom != Some(h))
  {
    hide UsedIndexes, Cooldown;
  }

  /** A top-up that continues row `h` and inserts something. */
  predicate TopsUp(f: Fleet, e: Event, h: RowId) {
    && e.TopUp? && e.from == Some(h) && f.selected == map[] && Eligible(f.rows, e.model, e.from)
    && (f.rows[h].attempt < MAX_ATTEMPTS || e.faults.lookup) && (e.fate == Started || e.fate == EnqueueFailed)
  }

  /** The cooldown binds the rolling replacement only: while a row waits, a step
      adds a row recovered from it exactly when it is a top-up that picks it. */
  lemma SpawnsDuringCooldownIff(f: Fleet, e: Event, h: RowId, until: int)
    requires WaitsUntil(f, h, until) && f.now < until
    ensures (exists i :: |f.rows| <= i < |Next(f, e).rows| && Next(f, e).rows[i].recoveredFrom == Some(h))
      <==> TopsUp(f, e, h)
  {
    hide UsedIndexes;
    if e.TopUp? && e.from == Some(h) {
      if TopsUp(f, e, h) { assert Next(f, e).rows[|f.rows|].recoveredFrom == Some(h); }
    } else {
      StepKeepsWaiting(f, e, h, until);
    }
  }

  /** Until the cooldown is over, the rolling-replacement path adds no row
      recovered from the waiting one, whatever else happens to that row. */
  lemma {:induction false} NothingSpawnsDuringCooldown(f: Fleet, es: seq<Event>, h: RowId, until: int)
    requires WaitsUntil(f, h, until) && Run(f, es).now < until
    requires forall k :: 0 <= k < |es| ==> !(es[k].TopUp? && es[k].from == Some(h))
    ensures WaitsUntil(Run(f, es), h, until)
    ensures |f.rows| <= |Run(f, es).rows|
    ensures forall i :: |f.rows| <= i < |Run(f, es).rows| ==> Run(f, es).rows[i].recoveredFrom != Some(h)
    ensures forall i :: 0 <= i < |f.rows| ==> Run(f, es).rows[i].recoveredFrom == f.rows[i].recoveredFrom
    decreases |es|
  {
    hide Next;
    if es != [] {
      TimeMovesForward(f, es);
      StepKeepsWaiting(f, es[0], h, until);
      NothingSpawnsDuringCooldown(Next(f, es[0]), es[1..], h, until);
    }
  }

  /** After a replacement with attempt number `a` has failed, its predecessor is
      left alone for min(30 * 2^(a+1), 900) seconds. */
  lemma FailedReplacementBlocksSpawning(f: Fleet, e: Event, n: RowId, es: seq<Event>)
    requires Happens(f, e) && f.rows[e.row].replacedBy == Some(n) && n < |f.rows| && !Serving(e.seen)
    requires !e.faults.read && !e.faults.link
    requires e.seen == Failed || e.seen == Stopped || e.seen == Deleted || f.now - f.selected[e.row] > e.timeout
    requires forall k :: 0 <= k < |es| ==> !(es[k].TopUp? && es[k].from == Some(e.row))
    requires Run(Next(f, e), es).now < f.now + Cooldown(f.rows[n].attempt + 1)
    ensures var g := Run(Next(f, e), es);
      forall i :: |f.rows| <= i < |g.rows| ==> g.rows[i].recoveredFrom != Some(e.row)
  {
    hide Next, Run, Cooldown;
    FailureStartsCooldown(f, e, n);
    NothingSpawnsDuringCooldown(Next(f, e), es, e.row, f.now + Cooldown(f.rows[n].attempt + 1));
  }
}
