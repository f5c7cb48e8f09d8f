/** Rows of `agent_runtimes` and the classes of runtime state. */
module Runtimes {
  import opened Common

  type ModelId = string
  type RowId = nat

  datatype State =
    | Created | Validating | Downloading | Starting | LoadingModel | WaitingReady
    | Ready | Idle | Stopping | Stopped | Pending | Pulling | Loading | Warm | Active
    | Unhealthy | Draining | Failed | Unloaded | Lost | Archived | Deleted | Recovering

  /** In the routing pool. */
  predicate Serving(s: State) {
    s == Ready || s == Active || s == Warm || s == Idle
  }

  /** Counted against a model's capacity by claim_replica_slot and by the index search. */
  predicate Counted(s: State) {
    !(s == Stopped || s == Deleted || s == Archived || s == Unloaded || s == Lost
      || s == Draining || s == Failed || s == Unhealthy)
  }

  /** The container is gone, or given up on. */
  predicate Dead(s: State) {
    s == Failed || s == Stopped || s == Deleted || s == Lost || s == Archived || s == Unloaded
  }

  /** A state is counted unless the container is gone, is being drained, or is being
      replaced; so everything that serves or is about to serve is counted. */
  lemma StateClasses(s: State)
    ensures Counted(s) <==> !Dead(s) && s != Draining && s != Unhealthy
    ensures s == Ready || s == Active || s == Warm || s == Idle ==> Serving(s)
    ensures Serving(s) ==> Counted(s)
    ensures s == Pending || s == Pulling || s == Loading || s == Starting || s == Stopping ==> Counted(s) && !Serving(s)
  {
  }

  /** Rows are never removed, so a row is named by its position.  Times are in
      seconds; `confirmedDead` is the container-dead tag in the error message. */
  datatype Row = Row(
    model: ModelId, state: State, index: int, attempt: nat,
    recoveredFrom: Option<RowId>, replacedBy: Option<RowId>,
    nextRetryAt: Option<int>, updatedAt: int, confirmedDead: bool)

  // ----- replica indexes -----

  predicate CountedFor(row: Row, model: ModelId) {
    row.model == model && Counted(row.state)
  }

  /** The index numbers of the counted rows of a model; -1 stands for none. */
  function UsedIndexes(rows: seq<Row>, model: ModelId): set<int> {
    if rows == [] then {} else
      var last := rows[|rows| - 1];
      UsedIndexes(rows[..|rows| - 1], model) + (if CountedFor(last, model) then {last.index} else {})
  }

  /** How many rows of a model are in one of the states `p`. */
  function CountIn(rows: seq<Row>, model: ModelId, p: State -> bool): nat {
    if rows == [] then 0 else
      var last := rows[|rows| - 1];
      CountIn(rows[..|rows| - 1], model, p) + (if last.model == model && p(last.state) then 1 else 0)
  }

  function CountedRows(rows: seq<Row>, model: ModelId): nat {
    CountIn(rows, model, Counted)
  }

  ghost predicate IsLeastFree(used: set<int>, r: int) {
    r >= 0 && r !in used && forall i :: 0 <= i < r ==> i in used
  }

  lemma {:induction false} CountedRowIsUsed(rows: seq<Row>, model: ModelId, i: nat)
    requires i < |rows| && CountedFor(rows[i], model)
    ensures rows[i].index in UsedIndexes(rows, model)
  {
    if i < |rows| - 1 {
      CountedRowIsUsed(rows[..|rows| - 1], model, i);
    }
  }

  /** No more indexes are in use than rows are counted. */
  lemma {:induction false} IndexesWithinCount(rows: seq<Row>, model: ModelId)
    ensures |UsedIndexes(rows, model)| <= CountedRows(rows, model)
  {
    if rows != [] {
      IndexesWithinCount(rows[..|rows| - 1], model);
    }
  }

  /** Wherever the search stands, it has passed at most as many indexes as are used. */
  lemma {:induction false} PassedIndexes(used: set<int>, n: nat)
    requires forall i :: 0 <= i < n ==> i in used
    ensures n <= |used|
    decreases n
  {
    if n > 0 {
      PassedIndexes(used - {n - 1}, n - 1);
    }
  }

  /** The smallest index no counted row of the model uses; the search takes at
      most one step more than there are counted rows. */
  method NextReplicaIndex(rows: seq<Row>, model: ModelId) returns (r: nat)
    ensures IsLeastFree(UsedIndexes(rows, model), r)
    ensures r <= CountedRows(rows, model)
  {
    var taken: set<int> := {};
    for k := 0 to |rows|
      invariant taken == UsedIndexes(rows[..k], model)
    {
      assert rows[..k + 1][..k] == rows[..k];
      if CountedFor(rows[k], model) {
        taken := taken + {rows[k].index};
      }
    }
    assert rows[..|rows|] == rows;
    r := 0;
    while r in taken
      invariant forall i :: 0 <= i < r ==> i in taken
      decreases |taken| + 1 - r
    {
      PassedIndexes(taken, r + 1);
      r := r + 1;
    }
    PassedIndexes(taken, r);
    IndexesWithinCount(rows, model);
  }

  /** The least free index, as a value. */
  ghost function LeastFree(used: set<int>): (r: nat)
    ensures IsLeastFree(used, r) && r <= |used|
  {
    LeastFreeExists(used, 0);
    var r: nat :| IsLeastFree(used, r);
    PassedIndexes(used, r);
    r
  }

  lemma {:induction false} LeastFreeExists(used: set<int>, from: nat)
    requires forall i :: 0 <= i < from ==> i in used
    ensures exists r: nat :: IsLeastFree(used, r)
    decreases |used| + 1 - from
  {
    PassedIndexes(used, from);
    if from in used {
      PassedIndexes(used, from + 1);
      LeastFreeExists(used, from + 1);
    } else {
      assert IsLeastFree(used, from);
    }
  }

  lemma LeastFreeUnique(used: set<int>, r: nat, q: nat)
    requires IsLeastFree(used, r) && IsLeastFree(used, q)
    ensures r == q
  {
  }
}
