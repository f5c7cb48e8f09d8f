/** The reconciler's procedures as it runs them, statement by statement on the
    table of runtime rows, each tied to the step it stands for. */
module Reconciler {
  import opened Common
  import opened Runtimes
  import opened Recovery

  class RuntimeTable {
    var rows: seq<Row>
    var now: int

    constructor (rows: seq<Row>, now: int)
      ensures this.rows == rows && this.now == now
    {
      this.rows, this.now := rows, now;
    }

    /** The logical replica a top-up continues: the latest failure that nothing
        replaced yet, if there is one. */
    method MostRecentUnrepairedFailure(model: ModelId) returns (from: Option<RowId>)
      ensures Eligible(rows, model, from)
      ensures from == None <==> forall i :: 0 <= i < |rows| && rows[i].model == model && rows[i].replacedBy == None ==>
        rows[i].state != Failed && rows[i].state != Stopped && rows[i].state != Lost
      ensures from.Some? ==>
        && from.value < |rows| && rows[from.value].model == model && rows[from.value].replacedBy == None
        && forall i :: 0 <= i < |rows| && rows[i].model == model && rows[i].replacedBy == None ==>
             rows[i].state == Failed || rows[i].state == Stopped || rows[i].state == Lost ==>
               rows[i].updatedAt <= rows[from.value].updatedAt
    {
      from := None;
      for k := 0 to |rows|
        invariant from.Some? ==> from.value < k && Unrepaired(rows[from.value], model)
        invariant from == None ==> forall i :: 0 <= i < k ==> !Unrepaired(rows[i], model)
        invariant from.Some? ==> forall i :: 0 <= i < k && Unrepaired(rows[i], model) ==> rows[i].updatedAt <= rows[from.value].updatedAt
      {
        if Unrepaired(rows[k], model) && (from == None || rows[from.value].updatedAt < rows[k].updatedAt) {
          from := Some(k);
        }
      }
    }

    /** Inserts the replacement row under the number found inside the lock. */
    method InsertReplica(model: ModelId, from: Option<RowId>, attempt: nat)
      modifies this`rows
      ensures rows == old(rows) + [NewReplica(old(rows), now, model, from, attempt)]
    {
      hide UsedIndexes;
      var index := NextReplicaIndex(rows, model);
      LeastFreeUnique(UsedIndexes(rows, model), index, LeastFree(UsedIndexes(rows, model)));
      rows := rows + [Row(model, Pending, index, attempt, from, None, None, now, false)];
    }

    /** Creates the replacement row, or marks an exhausted chain lost. */
    method ExecuteReturningID(model: ModelId, from: Option<RowId>, fate: Fate, faults: Faults) returns (result: SpawnResult)
      modifies this`rows
      ensures (rows, result) == Spawn(old(rows), now, model, from, fate, faults)
      ensures |old(rows)| <= |rows|
    {
      hide NewReplica;
      var attempt := 1;
      if from.Some? && from.value < |rows| && !faults.lookup {
        attempt := rows[from.value].attempt + 1;
      }
      if attempt > MAX_ATTEMPTS {
        var x := from.value;
        var s := rows[x].state;
        if !faults.mark && !(s == Lost || s == Stopped || s == Deleted || s == Archived) {
          rows := rows[x := rows[x].(state := Lost, updatedAt := now)];
        }
        return Exhausted;
      }
      if fate == Aborted || fate == NoSlot || (from.Some? && from.value >= |rows|) { return NotSpawned; }
      var id := |rows|;
      InsertReplica(model, from, attempt);
      if fate == EnqueueFailed {
        if !faults.mark {
          rows := rows[id := rows[id].(state := Failed)];
        }
        assert rows == old(rows) + [rows[id]];
        return NotSpawned;
      }
      return Spawned(id, attempt);
    }

    /** One visit to a row that was unhealthy when it was selected at `since`. */
    method HandleUnhealthyReplica(x: RowId, since: int, seen: State, fate: Fate, timeout: nat, faults: Faults)
      requires x < |rows|
      modifies this`rows
      ensures rows == VisitRow(old(rows), now, x, since, seen, fate, timeout, faults)
    {
      hide Spawn, Cooldown;
      if rows[x].replacedBy.Some? {
        CheckProgress(x, rows[x].replacedBy.value, since, seen, timeout, faults);
        return;
      }
      if rows[x].nextRetryAt.Some? {
        if now < rows[x].nextRetryAt.value { return; }
      } else if now - since < Cooldown(0) {
        return;
      }
      var result := ExecuteReturningID(rows[x].model, Some(x), fate, faults);
      if result.Spawned? && !faults.link {
        rows := rows[x := rows[x].(replacedBy := Some(result.id), attempt := result.attempt, updatedAt := now)];
      }
    }

    /** The first case of a visit: row `n` was started as a replacement before. */
    method CheckProgress(x: RowId, n: RowId, since: int, seen: State, timeout: nat, faults: Faults)
      requires x < |rows|
      modifies this`rows
      ensures rows == CheckReplacement(old(rows), now, x, n, since, seen, timeout, faults)
    {
      hide Cooldown;
      if n >= |rows| || faults.read {
        if !faults.link { rows := rows[x := rows[x].(replacedBy := None, updatedAt := now)]; }
        return;
      }
      var retryAt := now + Cooldown(rows[n].attempt + 1);
      if Serving(seen) {
        if rows[x].state == Unhealthy && !faults.mark {
          rows := rows[x := rows[x].(state := Draining, updatedAt := now)];
        }
      } else if seen == Failed || seen == Stopped || seen == Deleted {
        if !faults.link {
          rows := rows[x := rows[x].(replacedBy := None, nextRetryAt := Some(retryAt), updatedAt := now)];
        }
      } else if now - since > timeout {
        if !faults.mark { rows := rows[n := rows[n].(state := Failed, updatedAt := now, confirmedDead := false)]; }
        if !faults.link {
          rows := rows[x := rows[x].(replacedBy := None, nextRetryAt := Some(retryAt), updatedAt := now)];
        }
      }
    }

    /** The under-replication step of a sweep for one model. */
    method TopUpModel(model: ModelId, from: Option<RowId>, fate: Fate, faults: Faults)
      modifies this`rows
      ensures rows == TopUpRows(old(rows), now, model, from, fate, faults)
    {
      var result := ExecuteReturningID(model, from, fate, faults);
      if result.Spawned? && from.Some? && from.value < |rows| && !faults.link {
        rows := rows[from.value := rows[from.value].(replacedBy := Some(result.id), updatedAt := now)];
      }
    }

    method StopDrainedRuntime(x: RowId, queued: bool)
      requires x < |rows|
      modifies this`rows
      ensures rows == old(rows)[x := StopDrained(old(rows)[x], now, queued)]
    {
      if rows[x].state == Draining {
        rows := rows[x := rows[x].(state := Stopping, updatedAt := now)];
        if !queued {
          rows := rows[x := rows[x].(state := Draining, updatedAt := now)];
        }
      }
    }

    /** Moves failed rows to stopped: confirmed deaths at once, others after a
        grace period. */
    method SweepFailedContainers()
      modifies this`rows
      ensures rows == Swept(old(rows), now)
    {
      for k := 0 to |rows|
        invariant |rows| == |old(rows)|
        invariant forall i :: 0 <= i < |rows| ==>
          rows[i] == if i < k && old(rows)[i].state == Failed && old(rows)[i].confirmedDead
                     then SweptRow(old(rows)[i], now) else old(rows)[i]
      {
        if rows[k].state == Failed && rows[k].confirmedDead {
          rows := rows[k := rows[k].(state := Stopped, updatedAt := now)];
        }
      }
      for k := 0 to |rows|
        invariant |rows| == |old(rows)|
        invariant forall i :: 0 <= i < k ==> rows[i] == SweptRow(old(rows)[i], now)
        invariant forall i :: k <= i < |rows| ==>
          rows[i] == if old(rows)[i].state == Failed && old(rows)[i].confirmedDead
                     then SweptRow(old(rows)[i], now) else old(rows)[i]
      {
        if rows[k].state == Failed && !rows[k].confirmedDead && rows[k].updatedAt < now - FAILED_GRACE {
          rows := rows[k := rows[k].(state := Stopped, updatedAt := now)];
        }
      }
    }
  }
}
