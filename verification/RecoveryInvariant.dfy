/** What every step of the recovery protocol keeps: always, as long as no counter
    lookup fails, and as long as no read or write of a visit is lost. */
module RecoveryInvariant {
  import opened Common
  import opened Runtimes
  import opened Recovery

  /** How many predecessors a row has. */
  function Depth(rows: seq<Row>, i: RowId): nat
    requires i < |rows|
    decreases i
  {
    match rows[i].recoveredFrom
    case None => 0
    case Some(x) => if x < i then 1 + Depth(rows, x) else 0
  }

  /** Chains point backwards, counters keep to the bound, and a replacement serves
      the same model. */
  ghost predicate RowOk(rows: seq<Row>, i: RowId)
    requires i < |rows|
  {
    var row := rows[i];
    && row.attempt <= MAX_ATTEMPTS
    && (row.recoveredFrom.Some? ==> row.recoveredFrom.value < i)
    && (row.replacedBy.Some? ==> row.replacedBy.value < |rows| && rows[row.replacedBy.value].model == row.model)
  }

  ghost predicate WellFormed(rows: seq<Row>) {
    forall i :: 0 <= i < |rows| ==> RowOk(rows, i)
  }

  ghost predicate Inv(f: Fleet) {
    WellFormed(f.rows) && forall x :: x in f.selected ==> x < |f.rows|
  }

  /** Chains are no longer than the attempt counter. */
  ghost predicate Deep(rows: seq<Row>) {
    forall i :: 0 <= i < |rows| ==> Depth(rows, i) <= rows[i].attempt
  }

  /** Of the rows recovered from `x`, only the one `x` points to may be alive. */
  ghost predicate OneLive(rows: seq<Row>) {
    forall i :: 0 <= i < |rows| && Orphaned(rows, i) ==> Dead(rows[i].state)
  }

  /** Recovered from a row that no longer points to it. */
  predicate Orphaned(rows: seq<Row>, i: RowId)
    requires i < |rows|
  {
    var x := rows[i].recoveredFrom;
    x.Some? && x.value < |rows| && rows[x.value].replacedBy != Some(i)
  }

  // ----- what a step can do to the table -----

  /** No row is added: states move on, pointers may be cleared. */
  ghost predicate Kept(rows: seq<Row>, rows': seq<Row>) {
    |rows'| == |rows| && forall i :: 0 <= i < |rows| ==> RowKept(rows[i], rows'[i])
  }

  predicate RowKept(row: Row, row': Row) {
    && row'.model == row.model && row'.recoveredFrom == row.recoveredFrom && row'.attempt == row.attempt
    && MayBecome(row.state, row'.state)
    && (row'.replacedBy == row.replacedBy || row'.replacedBy == None)
  }

  /** A pointer is cleared only when the row it pointed to is dead. */
  ghost predicate ClearsDead(rows: seq<Row>, rows': seq<Row>)
    requires |rows'| == |rows|
  {
    forall i :: 0 <= i < |rows| && rows'[i].replacedBy != rows[i].replacedBy ==>
      rows[i].replacedBy.Some? && rows[i].replacedBy.value < |rows| ==> Dead(rows'[rows[i].replacedBy.value].state)
  }

  /** One row is added; its predecessor, if it has one, may be linked to it. */
  ghost predicate Grown(rows: seq<Row>, rows': seq<Row>) {
    && |rows'| == |rows| + 1
    && var row := rows'[|rows|];
    && row.replacedBy == None && row.attempt <= MAX_ATTEMPTS
    && (row.recoveredFrom == None ==> rows'[..|rows|] == rows)
    && (row.recoveredFrom.Some? ==>
          var x := row.recoveredFrom.value;
          && x < |rows| && rows[x].replacedBy == None && row.model == rows[x].model
          && (forall i :: 0 <= i < |rows| && i != x ==> rows'[i] == rows[i])
          && (rows'[x] == rows[x] || LinkedTo(rows[x], rows'[x], |rows|, row.attempt)))
  }

  predicate LinkedTo(row: Row, row': Row, n: RowId, attempt: nat) {
    && row' == row.(replacedBy := Some(n), attempt := row'.attempt, updatedAt := row'.updatedAt)
    && (row'.attempt == row.attempt || row'.attempt == attempt)
  }

  /** The new row continues the counter of its predecessor. */
  ghost predicate Continues(rows: seq<Row>, rows': seq<Row>)
    requires Grown(rows, rows')
  {
    rows'[|rows|].recoveredFrom.Some? ==> rows'[|rows|].attempt == rows[rows'[|rows|].recoveredFrom.value].attempt + 1
  }

  /** The new row is dead unless its predecessor points to it. */
  ghost predicate LinksLive(rows: seq<Row>, rows': seq<Row>)
    requires Grown(rows, rows')
  {
    Orphaned(rows', |rows|) ==> Dead(rows'[|rows|].state)
  }

  predicate LookupFails(e: Event) { (e.Visit? || e.TopUp?) && e.faults.lookup }

  /** No read of a replacement's state fails and no write is lost. */
  predicate Intact(e: Event) { (e.Visit? || e.TopUp?) ==> !e.faults.read && !e.faults.mark && !e.faults.link }

  lemma CheckEffect(rows: seq<Row>, now: int, x: RowId, n: RowId, since: int, seen: State, timeout: nat, faults: Faults)
    requires x < |rows| && rows[x].replacedBy == Some(n)
    ensures var rows' := CheckReplacement(rows, now, x, n, since, seen, timeout, faults);
      && Kept(rows, rows')
      && (!faults.read && !faults.mark && !faults.link && (n < |rows| ==> MayBecome(seen, rows[n].state)) ==> ClearsDead(rows, rows'))
  {
    hide Cooldown;
  }

  /** What both recovery paths do once they try to spawn. */
  lemma SpawnEffect(rows: seq<Row>, now: int, model: ModelId, from: Option<RowId>, fate: Fate, faults: Faults)
    requires WellFormed(rows)
    requires from.Some? && from.value < |rows| ==> rows[from.value].model == model && rows[from.value].replacedBy == None
    ensures var (rows', result) := Spawn(rows, now, model, from, fate, faults);
      && (|rows'| == |rows| ==> !result.Spawned? && Kept(rows, rows') && ClearsDead(rows, rows'))
      && (|rows'| != |rows| ==>
            && Grown(rows, rows') && rows'[..|rows|] == rows && rows'[|rows|].recoveredFrom == from
            && (!faults.lookup ==> Continues(rows, rows'))
            && (result.Spawned? ==> result.id == |rows| && result.attempt == rows'[|rows|].attempt)
            && (!result.Spawned? && !faults.mark ==> Dead(rows'[|rows|].state)))
  {
    hide UsedIndexes;
    if from.Some? && from.value < |rows| { assert RowOk(rows, from.value); }
  }

  /** The new row with its predecessor linked to it. */
  lemma LinkEffect(rows: seq<Row>, grown: seq<Row>, x: RowId, row: Row, counted: bool)
    requires Grown(rows, grown) && grown[..|rows|] == rows && grown[|rows|].recoveredFrom == Some(x)
    requires LinkedTo(rows[x], row, |rows|, grown[|rows|].attempt) && (counted ==> Continues(rows, grown))
    ensures Effect(rows, grown[x := row], counted, true)
  {
    var rows' := grown[x := row];
    assert forall i :: 0 <= i < |rows| && i != x ==> rows'[i] == grown[..|rows|][i];
    assert Grown(rows, rows');
  }

  /** The new row as it was inserted. */
  lemma InsertEffect(rows: seq<Row>, grown: seq<Row>, counted: bool, intact: bool)
    requires Grown(rows, grown) && grown[..|rows|] == rows && (counted ==> Continues(rows, grown))
    requires intact ==> grown[|rows|].recoveredFrom == None || Dead(grown[|rows|].state)
    ensures Effect(rows, grown, counted, intact)
  {
  }

  lemma ReplaceEffect(rows: seq<Row>, now: int, x: RowId, since: int, fate: Fate, faults: Faults)
    requires WellFormed(rows) && x < |rows| && rows[x].replacedBy == None
    ensures Effect(rows, ReplaceUnhealthy(rows, now, x, since, fate, faults), !faults.lookup, !faults.mark && !faults.link)
  {
    var (rows', result) := Spawn(rows, now, rows[x].model, Some(x), fate, faults);
    SpawnEffect(rows, now, rows[x].model, Some(x), fate, faults);
    hide Spawn, WellFormed, Kept, Grown, Continues, CoolingDown;
    if |rows'| == |rows| || CoolingDown(rows[x], now, since) {
      NothingChanges(rows);
    } else if result.Spawned? && !faults.link {
      assert rows'[..|rows|][x] == rows'[x];
      LinkEffect(rows, rows', x,
        rows'[x].(replacedBy := Some(result.id), attempt := result.attempt, updatedAt := now), !faults.lookup);
    } else {
      InsertEffect(rows, rows', !faults.lookup, !faults.mark && !faults.link);
    }
  }

  lemma NothingChanges(rows: seq<Row>)
    ensures Kept(rows, rows) && ClearsDead(rows, rows)
  {
  }

  lemma TopUpEffect(rows: seq<Row>, now: int, model: ModelId, from: Option<RowId>, fate: Fate, faults: Faults)
    requires WellFormed(rows) && Eligible(rows, model, from)
    ensures Effect(rows, TopUpRows(rows, now, model, from, fate, faults), !faults.lookup, !faults.mark && !faults.link)
  {
    var (rows', result) := Spawn(rows, now, model, from, fate, faults);
    SpawnEffect(rows, now, model, from, fate, faults);
    hide Spawn, WellFormed, Kept, Grown, Continues;
    if |rows'| != |rows| {
      if result.Spawned? && from.Some? && !faults.link {
        assert rows'[..|rows|][from.value] == rows'[from.value];
        LinkEffect(rows, rows', from.value, rows'[from.value].(replacedBy := Some(result.id), updatedAt := now), !faults.lookup);
      } else {
        InsertEffect(rows, rows', !faults.lookup, !faults.mark && !faults.link);
      }
    }
  }

  /** The effect of any step: `counted` if it continues the counter, `intact` if
      all its writes arrive. */
  ghost predicate Effect(rows: seq<Row>, rows': seq<Row>, counted: bool, intact: bool) {
    || (Kept(rows, rows') && (intact ==> ClearsDead(rows, rows')))
    || (Grown(rows, rows') && (counted ==> Continues(rows, rows')) && (intact ==> LinksLive(rows, rows')))
  }

  lemma StepEffect(f: Fleet, e: Event)
    requires Inv(f)
    ensures Effect(f.rows, Next(f, e).rows, !LookupFails(e), Intact(e))
  {
    hide Spawn, UsedIndexes, Swept, CheckReplacement, ReplaceUnhealthy, TopUpRows, Orphaned, WellFormed;
    match e
    case Visit(x, seen, fate, timeout, faults) =>
      if x in f.selected && x < |f.rows| && Consistent(f, x, seen) {
        match f.rows[x].replacedBy
        case Some(n) => CheckEffect(f.rows, f.now, x, n, f.selected[x], seen, timeout, faults);
        case None => ReplaceEffect(f.rows, f.now, x, f.selected[x], fate, faults);
      }
    case TopUp(model, from, fate, faults) =>
      if f.selected == map[] && Eligible(f.rows, model, from) {
        TopUpEffect(f.rows, f.now, model, from, fate, faults);
      }
    case Arrive(model) => FreshIsNoOrphan(f.rows, Next(f, e).rows);
    case BeginSweep(_) =>
    case Stop(_, _) =>
    case SweepFailed =>
    case Report(_, _, _, _) =>
    case Tick(_) =>
  }

  lemma FreshIsNoOrphan(rows: seq<Row>, rows': seq<Row>)
    requires |rows'| == |rows| + 1 && rows'[|rows|].recoveredFrom == None
    ensures !Orphaned(rows', |rows|)
  {
  }

  // ----- what every step keeps -----

  /** Two tables agree on who was recovered from whom. */
  ghost predicate SameLineage(rows: seq<Row>, rows': seq<Row>) {
    |rows| <= |rows'| && forall i :: 0 <= i < |rows| ==> rows'[i].recoveredFrom == rows[i].recoveredFrom
  }

  lemma {:induction false} DepthSame(rows: seq<Row>, rows': seq<Row>, i: RowId)
    requires SameLineage(rows, rows') && i < |rows|
    ensures Depth(rows', i) == Depth(rows, i)
    decreases i
  {
    assert rows'[i].recoveredFrom == rows[i].recoveredFrom;
    if rows[i].recoveredFrom.Some? && rows[i].recoveredFrom.value < i {
      DepthSame(rows, rows', rows[i].recoveredFrom.value);
    }
  }

  /** Every step keeps the lineage and adds at most one row, below an older one. */
  lemma EffectGrows(rows: seq<Row>, rows': seq<Row>, counted: bool, intact: bool)
    requires Effect(rows, rows', counted, intact)
    ensures SameLineage(rows, rows') && |rows'| <= |rows| + 1
    ensures |rows'| > |rows| && rows'[|rows|].recoveredFrom.Some? ==> rows'[|rows|].recoveredFrom.value < |rows|
  {
    if Grown(rows, rows') && rows'[|rows|].recoveredFrom == None {
      assert forall i :: 0 <= i < |rows| ==> rows'[..|rows|][i] == rows'[i];
    }
  }

  lemma EffectKeepsWellFormed(rows: seq<Row>, rows': seq<Row>, counted: bool, intact: bool)
    requires WellFormed(rows) && Effect(rows, rows', counted, intact)
    ensures WellFormed(rows')
  {
    hide Orphaned;
    EffectGrows(rows, rows', counted, intact);
    forall i | 0 <= i < |rows'| ensures RowOk(rows', i) {
      if i < |rows| {
        assert RowOk(rows, i);
        assert Grown(rows, rows') ==> rows'[i].model == rows[i].model && rows'[..|rows|][i] == rows'[i];
      }
    }
  }

  lemma EffectKeepsDeep(rows: seq<Row>, rows': seq<Row>, intact: bool)
    requires WellFormed(rows) && Deep(rows) && Effect(rows, rows', true, intact)
    ensures Deep(rows')
  {
    hide Orphaned, WellFormed, MayBecome;
    EffectGrows(rows, rows', true, intact);
    forall i | 0 <= i < |rows'| ensures Depth(rows', i) <= rows'[i].attempt {
      if i < |rows| {
        DepthSame(rows, rows', i);
        assert Grown(rows, rows') ==> rows'[..|rows|][i] == rows'[i];
      } else if rows'[i].recoveredFrom.Some? {
        DepthSame(rows, rows', rows'[i].recoveredFrom.value);
      }
    }
  }

  lemma KeptKeepsOneLive(rows: seq<Row>, rows': seq<Row>)
    requires OneLive(rows) && Kept(rows, rows') && ClearsDead(rows, rows')
    ensures OneLive(rows')
  {
    forall i | 0 <= i < |rows'| && Orphaned(rows', i) ensures Dead(rows'[i].state) {
      assert RowKept(rows[i], rows'[i]);
      var x := rows[i].recoveredFrom.value;
      assert RowKept(rows[x], rows'[x]);
      assert Orphaned(rows, i) || rows[x].replacedBy == Some(i);
    }
  }

  lemma GrownKeepsOneLive(rows: seq<Row>, rows': seq<Row>)
    requires WellFormed(rows) && OneLive(rows) && Grown(rows, rows') && LinksLive(rows, rows')
    ensures OneLive(rows')
  {
    forall i | 0 <= i < |rows'| && Orphaned(rows', i) ensures Dead(rows'[i].state) {
      if i < |rows| {
        assert RowOk(rows, i) && rows'[..|rows|][i] == rows'[i];
        assert rows'[i].state == rows[i].state && rows'[i].recoveredFrom == rows[i].recoveredFrom;
        var x := rows[i].recoveredFrom.value;
        assert rows'[..|rows|][x] == rows'[x];
        assert Orphaned(rows, i);
      }
    }
  }

  lemma StepKeepsInv(f: Fleet, e: Event)
    requires Inv(f)
    ensures Inv(Next(f, e))
  {
    StepEffect(f, e);
    EffectGrows(f.rows, Next(f, e).rows, !LookupFails(e), Intact(e));
    EffectKeepsWellFormed(f.rows, Next(f, e).rows, !LookupFails(e), Intact(e));
    hide VisitRow, TopUpRows, Swept, Effect, WellFormed, SameLineage;
  }

  /** In every reachable state, whatever fails, counters are bounded, chains are
      acyclic and replacements are of the same model. */
  lemma {:induction false} RunKeepsInv(f: Fleet, es: seq<Event>)
    requires Inv(f)
    ensures Inv(Run(f, es))
    decreases |es|
  {
    hide Next, Inv;
    if es != [] {
      StepKeepsInv(f, es[0]);
      RunKeepsInv(Next(f, es[0]), es[1..]);
    }
  }

  lemma StepKeepsDeep(f: Fleet, e: Event)
    requires Inv(f) && Deep(f.rows) && !LookupFails(e)
    ensures Deep(Next(f, e).rows)
  {
    hide Next, Deep;
    StepEffect(f, e);
    EffectKeepsDeep(f.rows, Next(f, e).rows, Intact(e));
  }

  /** As long as no counter lookup fails, chains are no longer than the counter. */
  lemma {:induction false} RunKeepsDeep(f: Fleet, es: seq<Event>)
    requires Inv(f) && Deep(f.rows) && forall k :: 0 <= k < |es| ==> !LookupFails(es[k])
    ensures Deep(Run(f, es).rows)
    decreases |es|
  {
    hide Next, Inv, Deep;
    if es != [] {
      StepKeepsInv(f, es[0]);
      StepKeepsDeep(f, es[0]);
      RunKeepsDeep(Next(f, es[0]), es[1..]);
    }
  }

  lemma StepKeepsOneLive(f: Fleet, e: Event)
    requires Inv(f) && OneLive(f.rows) && Intact(e)
    ensures OneLive(Next(f, e).rows)
  {
    hide Next, OneLive;
    StepEffect(f, e);
    if Kept(f.rows, Next(f, e).rows) && ClearsDead(f.rows, Next(f, e).rows) {
      KeptKeepsOneLive(f.rows, Next(f, e).rows);
    } else {
      GrownKeepsOneLive(f.rows, Next(f, e).rows);
    }
  }

  /** As long as no read or write of a visit is lost, no row has two live replacements. */
  lemma {:induction false} RunKeepsOneLive(f: Fleet, es: seq<Event>)
    requires Inv(f) && OneLive(f.rows) && forall k :: 0 <= k < |es| ==> Intact(es[k])
    ensures OneLive(Run(f, es).rows)
    decreases |es|
  {
    hide Next, Inv, OneLive;
    if es != [] {
      StepKeepsInv(f, es[0]);
      StepKeepsOneLive(f, es[0]);
      RunKeepsOneLive(Next(f, es[0]), es[1..]);
    }
  }
}
