/** Recovery is bounded.  A row that can still be recovered from carries a
    budget of 2^(5-attempt)-1 future rows; every spawn uses some of it up. */
module RecoveryBound {
  import opened Common
  import opened Runtimes
  import opened Recovery
  import opened RecoveryInvariant

  function Budget(attempt: nat): nat {
    if attempt > MAX_ATTEMPTS then 0 else
      Pow2Grows(0, MAX_ATTEMPTS - attempt);
      Pow2(MAX_ATTEMPTS - attempt) - 1
  }

  /** Replaced, dead, and not about to be visited: nothing can be recovered from
      this row any more. */
  predicate Retired(f: Fleet, i: RowId)
    requires i < |f.rows|
  {
    Dead(f.rows[i].state) && f.rows[i].replacedBy.Some? && i !in f.selected
  }

  function Potential(f: Fleet, i: RowId): nat
    requires i < |f.rows|
  {
    if Retired(f, i) then 0 else Budget(f.rows[i].attempt)
  }

  /** Recovered from `x`, directly or through other rows. */
  predicate Below(rows: seq<Row>, x: RowId, i: RowId)
    requires i < |rows|
    decreases i
  {
    match rows[i].recoveredFrom
    case None => false
    case Some(y) => y < i && (y == x || Below(rows, x, y))
  }

  /** Rows recovered, directly or not, from `x`, among the first `k`. */
  function Descendants(rows: seq<Row>, x: RowId, k: nat): nat
    requires k <= |rows|
  {
    if k == 0 then 0 else Descendants(rows, x, k - 1) + (if Below(rows, x, k - 1) then 1 else 0)
  }

  /** The descendants of `x` so far plus all that may still come. */
  function Total(f: Fleet, x: RowId, k: nat): nat
    requires k <= |f.rows|
  {
    if k == 0 then 0 else
      Total(f, x, k - 1)
      + (if k - 1 == x then Potential(f, x) else if Below(f.rows, x, k - 1) then Potential(f, k - 1) + 1 else 0)
  }

  // ----- arithmetic of budgets and totals -----

  lemma BudgetSplits(attempt: nat)
    requires attempt < MAX_ATTEMPTS
    ensures Budget(attempt) == 2 * Budget(attempt + 1) + 1
  {
    Pow2Grows(0, MAX_ATTEMPTS - attempt - 1);
  }

  lemma BudgetShrinks(a: nat, b: nat)
    requires a <= b
    ensures Budget(b) <= Budget(a) <= 31
  {
    assert Pow2(MAX_ATTEMPTS) == 32;
    if b <= MAX_ATTEMPTS { Pow2Grows(MAX_ATTEMPTS - b, MAX_ATTEMPTS - a); }
    if a <= MAX_ATTEMPTS { Pow2Grows(MAX_ATTEMPTS - a, MAX_ATTEMPTS); }
  }

  lemma {:induction false} BelowSame(rows: seq<Row>, rows': seq<Row>, x: RowId, i: RowId)
    requires SameLineage(rows, rows') && i < |rows|
    ensures Below(rows', x, i) == Below(rows, x, i)
    decreases i
  {
    assert rows'[i].recoveredFrom == rows[i].recoveredFrom;
    if rows[i].recoveredFrom.Some? && rows[i].recoveredFrom.value < i {
      BelowSame(rows, rows', x, rows[i].recoveredFrom.value);
    }
  }

  lemma {:induction false} BelowIsLater(rows: seq<Row>, x: RowId, i: RowId)
    requires i < |rows| && Below(rows, x, i)
    ensures x < i
    decreases i
  {
    var y := rows[i].recoveredFrom.value;
    if y != x { BelowIsLater(rows, x, y); }
  }

  lemma {:induction false} DescendantsWithinTotal(f: Fleet, x: RowId, k: nat)
    requires k <= |f.rows|
    ensures Descendants(f.rows, x, k) <= Total(f, x, k)
  {
    if k > 0 {
      DescendantsWithinTotal(f, x, k - 1);
      if k - 1 == x && Below(f.rows, x, x) { BelowIsLater(f.rows, x, x); }
    }
  }

  /** In the tree of `x`. */
  predicate InTree(rows: seq<Row>, x: RowId, i: RowId)
    requires i < |rows|
  {
    i == x || Below(rows, x, i)
  }

  /** If no potential grows but that of `y`, which drops by `d` or grows by `-d`,
      then so does the total of every tree that `y` is in, and no other total grows. */
  lemma {:induction false} TotalDrops(f: Fleet, f': Fleet, x: RowId, k: nat, y: RowId, d: int)
    requires SameLineage(f.rows, f'.rows) && k <= |f.rows| && y < |f.rows|
    requires forall i :: 0 <= i < |f.rows| ==> Potential(f', i) + (if i == y then d else 0) <= Potential(f, i)
    ensures Total(f', x, k) + (if y < k && InTree(f.rows, x, y) then d else 0) <= Total(f, x, k)
  {
    if k > 0 {
      TotalDrops(f, f', x, k - 1, y, d);
      BelowSame(f.rows, f'.rows, x, k - 1);
      assert Potential(f', k - 1) + (if k - 1 == y then d else 0) <= Potential(f, k - 1);
    }
  }

  // ----- every step -----

  /** A step that adds no row. */
  lemma QuietStepShrinks(f: Fleet, f': Fleet, x: RowId)
    requires SameLineage(f.rows, f'.rows) && |f'.rows| == |f.rows| && x < |f.rows|
    requires forall i :: 0 <= i < |f.rows| ==> Potential(f', i) <= Potential(f, i)
    ensures Total(f', x, |f'.rows|) <= Total(f, x, |f.rows|)
  {
    TotalDrops(f, f', x, |f.rows|, x, 0);
  }

  /** A step that adds a row with no predecessor. */
  lemma FreshRowShrinks(f: Fleet, f': Fleet, x: RowId, row: Row)
    requires x < |f.rows| && f'.rows == f.rows + [row] && f'.selected == f.selected && row.recoveredFrom == None
    ensures Total(f', x, |f'.rows|) <= Total(f, x, |f.rows|)
  {
    TotalDrops(f, f', x, |f.rows|, x, 0);
  }

  /** A step that adds a row recovered from `y` and pays for all of it but
      `surcharge` out of the potential of `y`. */
  lemma SpawnShrinks(f: Fleet, f': Fleet, x: RowId, y: RowId, surcharge: nat)
    requires SameLineage(f.rows, f'.rows) && |f'.rows| == |f.rows| + 1 && x < |f.rows| && y < |f.rows|
    requires f'.rows[|f.rows|].recoveredFrom == Some(y)
    requires forall i :: 0 <= i < |f.rows| && i != y ==> Potential(f', i) <= Potential(f, i)
    requires Potential(f', y) + Potential(f', |f.rows|) + 1 <= Potential(f, y) + surcharge
    ensures Total(f', x, |f'.rows|) <= Total(f, x, |f.rows|) + surcharge
  {
    var n := |f.rows|;
    assert Below(f'.rows, x, n) == (y == x || Below(f'.rows, x, y));
    hide Potential, Retired, Budget;
    TotalDrops(f, f', x, n, y, Potential(f, y) - Potential(f', y));
    BelowSame(f.rows, f'.rows, x, y);
    assert Total(f', x, n + 1) == Total(f', x, n) + (if Below(f'.rows, x, n) then Potential(f', n) + 1 else 0);
  }

  lemma CheckShrinks(f: Fleet, f': Fleet, h: RowId, n: RowId, seen: State, timeout: nat, faults: Faults, x: RowId)
    requires x < |f.rows| && h in f.selected && h < |f.rows| && f.rows[h].replacedBy == Some(n)
    requires f'.rows == CheckReplacement(f.rows, f.now, h, n, f.selected[h], seen, timeout, faults)
    requires f'.selected == f.selected - {h}
    ensures |f'.rows| == |f.rows| && Total(f', x, |f'.rows|) <= Total(f, x, |f.rows|)
  {
    hide Budget, Total;
    CheckEffect(f.rows, f.now, h, n, f.selected[h], seen, timeout, faults);
    CheckClearsOwn(f.rows, f.now, h, n, f.selected[h], seen, timeout, faults);
    hide CheckReplacement;
    forall i | 0 <= i < |f.rows| ensures Potential(f', i) <= Potential(f, i) {
      assert RowKept(f.rows[i], f'.rows[i]);
    }
    QuietStepShrinks(f, f', x);
  }

  /** A check clears no pointer but the visited row's own. */
  lemma CheckClearsOwn(rows: seq<Row>, now: int, h: RowId, n: RowId, since: int, seen: State, timeout: nat, faults: Faults)
    requires h < |rows|
    ensures var rows' := CheckReplacement(rows, now, h, n, since, seen, timeout, faults);
      |rows'| == |rows| && forall i :: 0 <= i < |rows| && i != h ==> rows'[i].replacedBy == rows[i].replacedBy
  {
    hide Cooldown;
  }

  /** The counter a new row gets. */
  function NewAttempt(row: Row, faults: Faults): nat {
    if faults.lookup then 1 else row.attempt + 1
  }

  /** A row recovered from `y` was added and, if `linked`, `y` now looks like `row`. */
  ghost predicate Spawns(rows: seq<Row>, rows': seq<Row>, y: RowId, attempt: nat, linked: bool, row: Row) {
    && |rows'| == |rows| + 1 && y < |rows| && attempt <= MAX_ATTEMPTS
    && rows'[|rows|].recoveredFrom == Some(y) && rows'[|rows|].replacedBy == None && rows'[|rows|].attempt == attempt
    && (forall i :: 0 <= i < |rows| && i != y ==> rows'[i] == rows[i])
    && rows'[y] == if linked then row else rows[y]
  }

  predicate Links(fate: Fate, faults: Faults) { fate == Started && !faults.link }

  /** The three things a replacement step can do to the table. */
  lemma ReplaceCases(rows: seq<Row>, now: int, x: RowId, since: int, fate: Fate, faults: Faults)
    requires x < |rows|
    ensures var rows' := ReplaceUnhealthy(rows, now, x, since, fate, faults); var attempt := NewAttempt(rows[x], faults);
      || rows' == rows || rows' == MarkedLost(rows, x, now)
      || Spawns(rows, rows', x, attempt, Links(fate, faults),
           rows[x].(replacedBy := Some(|rows|), attempt := attempt, updatedAt := now))
    ensures var rows' := ReplaceUnhealthy(rows, now, x, since, fate, faults);
      (fate == EnqueueFailed || fate == Started) && !CoolingDown(rows[x], now, since) && NewAttempt(rows[x], faults) <= MAX_ATTEMPTS
      ==> |rows'| == |rows| + 1
  {
    hide UsedIndexes, Cooldown, CoolingDown;
  }

  lemma TopUpCases(rows: seq<Row>, now: int, model: ModelId, y: RowId, fate: Fate, faults: Faults)
    requires y < |rows|
    ensures var rows' := TopUpRows(rows, now, model, Some(y), fate, faults); var attempt := NewAttempt(rows[y], faults);
      || rows' == rows || rows' == MarkedLost(rows, y, now)
      || Spawns(rows, rows', y, attempt, Links(fate, faults), rows[y].(replacedBy := Some(|rows|), updatedAt := now))
  {
    hide UsedIndexes;
  }

  /** The hub path: the predecessor's counter rises with the new row's. */
  lemma HubSpawnShrinks(f: Fleet, f': Fleet, h: RowId, row: Row, x: RowId)
    requires x < |f.rows| && h < |f.rows| && h in f.selected && f'.selected == f.selected - {h}
    requires Spawns(f.rows, f'.rows, h, f.rows[h].attempt + 1, true, row)
    requires row.recoveredFrom == f.rows[h].recoveredFrom && row.attempt == f.rows[h].attempt + 1
    ensures Total(f', x, |f'.rows|) <= Total(f, x, |f.rows|)
  {
    hide Budget, Total;
    BudgetSplits(f.rows[h].attempt);
    SpawnShrinks(f, f', x, h, 0);
  }

  /** A new row whose predecessor is left as it was is paid for by nobody: it costs
      its tree itself and its own budget, sixteen at most. */
  lemma UnlinkedSpawnCosts(f: Fleet, f': Fleet, y: RowId, attempt: nat, row: Row, x: RowId)
    requires x < |f.rows| && Spawns(f.rows, f'.rows, y, attempt, false, row) && attempt >= 1
    requires f'.selected == f.selected || (f'.selected == f.selected - {y} && f.rows[y].replacedBy == None)
    ensures Total(f', x, |f'.rows|) <= Total(f, x, |f.rows|) + 16
  {
    hide Total;
    FirstBudget(attempt);
    hide Budget;
    SpawnShrinks(f, f', x, y, 16);
  }

  /** A failed lookup gives the new row a fresh budget and may reset that of its
      predecessor: thirty-one at most. */
  lemma ResetCosts(f: Fleet, f': Fleet, y: RowId, row: Row, x: RowId)
    requires x < |f.rows| && Spawns(f.rows, f'.rows, y, 1, true, row)
    requires row.recoveredFrom == f.rows[y].recoveredFrom && row.replacedBy.Some?
    requires row.attempt == 1 || (Dead(row.state) && y !in f'.selected)
    requires forall i :: i in f'.selected <==> i in f.selected && i != y
    ensures Total(f', x, |f'.rows|) <= Total(f, x, |f.rows|) + 31
  {
    hide Total;
    FirstBudget(1);
    hide Budget;
    SpawnShrinks(f, f', x, y, 31);
  }

  lemma FirstBudget(attempt: nat)
    requires attempt >= 1
    ensures Budget(attempt) <= 15
  {
    assert Budget(1) == 15 by { assert Pow2(4) == 16; }
    BudgetShrinks(1, attempt);
  }

  /** What failures may add to a tree: a lookup that fails thirty-one, a row that is
      not started or not linked sixteen. */
  function Surcharge(e: Event): nat {
    if !(e.Visit? || e.TopUp?) then 0
    else if e.faults.lookup then 31
    else if e.fate == EnqueueFailed || e.faults.link then 16
    else 0
  }

  lemma ReplaceShrinks(f: Fleet, f': Fleet, h: RowId, e: Event, x: RowId)
    requires e.Visit? && x < |f.rows| && h in f.selected && h < |f.rows| && f.rows[h].replacedBy == None
    requires f'.rows == ReplaceUnhealthy(f.rows, f.now, h, f.selected[h], e.fate, e.faults) && f'.selected == f.selected - {h}
    ensures Total(f', x, |f'.rows|) <= Total(f, x, |f.rows|) + Surcharge(e)
  {
    hide ReplaceUnhealthy, Budget, Total;
    ReplaceCases(f.rows, f.now, h, f.selected[h], e.fate, e.faults);
    if |f'.rows| == |f.rows| {
      QuietStepShrinks(f, f', x);
    } else {
      var attempt := NewAttempt(f.rows[h], e.faults);
      var row := f.rows[h].(replacedBy := Some(|f.rows|), attempt := attempt, updatedAt := f.now);
      hide Potential, Spawns;
      if !Links(e.fate, e.faults) {
        assert Spawns(f.rows, f'.rows, h, attempt, false, row);
        UnlinkedSpawnCosts(f, f', h, attempt, row, x);
        assert Surcharge(e) >= 16 by { SpawnedSomething(f, f', h, e); }
      } else if e.faults.lookup {
        ResetCosts(f, f', h, row, x);
      } else {
        HubSpawnShrinks(f, f', h, row, x);
      }
    }
  }

  /** Only a fate that inserts adds a row. */
  lemma SpawnedSomething(f: Fleet, f': Fleet, h: RowId, e: Event)
    requires e.Visit? && h in f.selected && h < |f.rows| && |f'.rows| != |f.rows| && !Links(e.fate, e.faults)
    requires f'.rows == ReplaceUnhealthy(f.rows, f.now, h, f.selected[h], e.fate, e.faults)
    ensures Surcharge(e) >= 16
  {
    hide UsedIndexes, CoolingDown;
  }

  lemma TopUpShrinks(f: Fleet, f': Fleet, e: Event, x: RowId)
    requires e.TopUp? && x < |f.rows| && f.selected == map[] && Eligible(f.rows, e.model, e.from)
    requires f' == f.(rows := TopUpRows(f.rows, f.now, e.model, e.from, e.fate, e.faults))
    ensures Total(f', x, |f'.rows|) <= Total(f, x, |f.rows|) + Surcharge(e)
  {
    hide UsedIndexes, Budget, Total;
    if |f'.rows| == |f.rows| {
      QuietStepShrinks(f, f', x);
    } else if e.from == None {
      FreshRowShrinks(f, f', x, f'.rows[|f.rows|]);
    } else {
      var y := e.from.value;
      var attempt := NewAttempt(f.rows[y], e.faults);
      var row := f.rows[y].(replacedBy := Some(|f.rows|), updatedAt := f.now);
      TopUpCases(f.rows, f.now, e.model, y, e.fate, e.faults);
      hide TopUpRows;
      if !Links(e.fate, e.faults) {
        UnlinkedSpawnCosts(f, f', y, attempt, row, x);
      } else if e.faults.lookup {
        ResetCosts(f, f', y, row, x);
      } else {
        BudgetSplits(f.rows[y].attempt);
        SpawnShrinks(f, f', x, y, 0);
      }
    }
  }

  /** Steps that only change states and times. */
  lemma OtherStepShrinks(f: Fleet, e: Event, x: RowId)
    requires x < |f.rows| && (e.BeginSweep? || e.Stop? || e.SweepFailed? || e.Report? || e.Tick?)
    ensures |Next(f, e).rows| == |f.rows|
    ensures Total(Next(f, e), x, |f.rows|) <= Total(f, x, |f.rows|)
  {
    hide Budget, Total, Swept;
    QuietStepShrinks(f, Next(f, e), x);
  }

  lemma StepShrinksTotal(f: Fleet, e: Event, x: RowId)
    requires Inv(f) && x < |f.rows|
    ensures |f.rows| <= |Next(f, e).rows|
    ensures Total(Next(f, e), x, |Next(f, e).rows|) <= Total(f, x, |f.rows|) + Surcharge(e)
  {
    hide Budget, CheckReplacement, ReplaceUnhealthy, TopUpRows, Total, Surcharge, Swept;
    var f' := Next(f, e);
    StepEffect(f, e);
    EffectGrows(f.rows, f'.rows, !LookupFails(e), Intact(e));
    hide Effect, Inv;
    match e
    case Visit(h, seen, fate, timeout, faults) =>
      if h in f.selected && h < |f.rows| && Consistent(f, h, seen) {
        match f.rows[h].replacedBy
        case Some(n) => CheckShrinks(f, f', h, n, seen, timeout, faults, x);
        case None => ReplaceShrinks(f, f', h, e, x);
      }
    case TopUp(model, from, fate, faults) =>
      if f.selected == map[] && Eligible(f.rows, model, from) {
        TopUpShrinks(f, f', e, x);
      }
    case Arrive(model) => FreshRowShrinks(f, f', x, f'.rows[|f.rows|]);
    case _ =>
      hide Next;
      OtherStepShrinks(f, e, x);
  }

  function Surcharges(es: seq<Event>): nat
    decreases |es|
  {
    if es == [] then 0 else Surcharge(es[0]) + Surcharges(es[1..])
  }

  lemma {:induction false} RunShrinksTotal(f: Fleet, es: seq<Event>, x: RowId)
    requires Inv(f) && x < |f.rows|
    ensures |f.rows| <= |Run(f, es).rows|
    ensures Total(Run(f, es), x, |Run(f, es).rows|) <= Total(f, x, |f.rows|) + Surcharges(es)
    decreases |es|
  {
    hide Next, Surcharge;
    if es != [] {
      StepKeepsInv(f, es[0]);
      StepShrinksTotal(f, es[0], x);
      RunShrinksTotal(Next(f, es[0]), es[1..], x);
    }
  }

  // ----- the theorems -----

  lemma {:induction false} ChildlessTotal(f: Fleet, x: RowId, k: nat)
    requires k <= |f.rows| && x < |f.rows|
    requires forall i :: 0 <= i < |f.rows| ==> !Below(f.rows, x, i)
    ensures Total(f, x, k) <= if x < k then Budget(f.rows[x].attempt) else 0
  {
    if k > 0 {
      ChildlessTotal(f, x, k - 1);
    }
  }

  /** However the two recovery paths and everything else interleave, a row from
      which nothing has been recovered yet, wherever it stands in a chain, gets at
      most 2^(5-attempt)-1 descendants, sixteen more for every new row that was not
      started or not linked, and thirty-one more for every failed lookup. */
  lemma BoundedRecovery(f: Fleet, es: seq<Event>, x: RowId)
    requires Inv(f) && x < |f.rows|
    requires forall i :: 0 <= i < |f.rows| ==> !Below(f.rows, x, i)
    ensures Descendants(Run(f, es).rows, x, |Run(f, es).rows|) <= Budget(f.rows[x].attempt) + Surcharges(es)
  {
    hide Run, Budget;
    RunShrinksTotal(f, es, x);
    DescendantsWithinTotal(Run(f, es), x, |Run(f, es).rows|);
    ChildlessTotal(f, x, |f.rows|);
  }

  /** Every tree is within what its root's depth allows, plus `extra`. */
  ghost predicate TreesBounded(f: Fleet, extra: nat) {
    && (forall x :: 0 <= x < |f.rows| ==> Total(f, x, |f.rows|) <= Budget(Depth(f.rows, x)) + extra)
    && (Deep(f.rows) || extra >= 31)
  }

  lemma NothingBelowNewest(f: Fleet, x: RowId)
    requires Inv(f) && x < |f.rows|
    requires forall i :: x <= i < |f.rows| ==> f.rows[i].recoveredFrom.Some? ==> f.rows[i].recoveredFrom.value < x
    ensures forall i :: 0 <= i < |f.rows| ==> !Below(f.rows, x, i)
  {
    forall i | 0 <= i < |f.rows| ensures !Below(f.rows, x, i) { NothingBelow(f, x, i); }
  }

  lemma {:induction false} NothingBelow(f: Fleet, x: RowId, i: RowId)
    requires x < |f.rows| && i < |f.rows|
    requires forall i :: x <= i < |f.rows| ==> f.rows[i].recoveredFrom.Some? ==> f.rows[i].recoveredFrom.value < x
    ensures !Below(f.rows, x, i)
    decreases i
  {
    if Below(f.rows, x, i) {
      BelowIsLater(f.rows, x, i);
      var y := f.rows[i].recoveredFrom.value;
      NothingBelow(f, x, y);
    }
  }

  /** The tree of an old row. */
  lemma OldTreeStaysBounded(f: Fleet, e: Event, x: RowId, extra: nat)
    requires Inv(f) && x < |f.rows| && Total(f, x, |f.rows|) <= Budget(Depth(f.rows, x)) + extra
    ensures var f' := Next(f, e);
      x < |f'.rows| && Total(f', x, |f'.rows|) <= Budget(Depth(f'.rows, x)) + extra + Surcharge(e)
  {
    hide *;
    StepShrinksTotal(f, e, x);
    StepEffect(f, e);
    EffectGrows(f.rows, Next(f, e).rows, !LookupFails(e), Intact(e));
    DepthSame(f.rows, Next(f, e).rows, x);
  }

  /** The tree of a new one. */
  lemma NewTreeIsBounded(f: Fleet, e: Event, x: RowId, extra: nat)
    requires Inv(f) && (Deep(f.rows) || extra >= 31) && |f.rows| <= x < |Next(f, e).rows|
    ensures var f' := Next(f, e);
      Total(f', x, |f'.rows|) <= Budget(Depth(f'.rows, x)) + extra + Surcharge(e) && (Deep(f'.rows) || extra + Surcharge(e) >= 31)
  {
    StepIsDeep(f, e, extra);
    hide *;
    StepKeepsInv(f, e);
    StepEffect(f, e);
    EffectGrows(f.rows, Next(f, e).rows, !LookupFails(e), Intact(e));
    NewestIsBounded(Next(f, e), x);
  }

  lemma StepIsDeep(f: Fleet, e: Event, extra: nat)
    requires Inv(f) && (Deep(f.rows) || extra >= 31)
    ensures Deep(Next(f, e).rows) || extra + Surcharge(e) >= 31
  {
    hide Next, Inv, Deep;
    if extra + Surcharge(e) < 31 { StepKeepsDeep(f, e); }
  }

  lemma StepKeepsTreesBounded(f: Fleet, e: Event, extra: nat)
    requires Inv(f) && TreesBounded(f, extra)
    ensures TreesBounded(Next(f, e), extra + Surcharge(e))
  {
    hide Next, Inv, Deep, Depth, Total, Budget, Surcharge;
    StepIsDeep(f, e, extra);
    var f' := Next(f, e);
    forall x | 0 <= x < |f'.rows| ensures Total(f', x, |f'.rows|) <= Budget(Depth(f'.rows, x)) + extra + Surcharge(e) {
      if x < |f.rows| {
        OldTreeStaysBounded(f, e, x, extra);
      } else {
        NewTreeIsBounded(f, e, x, extra);
      }
    }
  }

  /** The newest row has a whole budget and nothing below it. */
  lemma NewestIsBounded(f: Fleet, x: RowId)
    requires Inv(f) && |f.rows| == x + 1
    requires f.rows[x].recoveredFrom.Some? ==> f.rows[x].recoveredFrom.value < x
    ensures Total(f, x, |f.rows|) <= 31
    ensures Deep(f.rows) ==> Total(f, x, |f.rows|) <= Budget(Depth(f.rows, x))
  {
    hide Budget;
    NothingBelowNewest(f, x);
    ChildlessTotal(f, x, |f.rows|);
    BudgetShrinks(0, f.rows[x].attempt);
    if Deep(f.rows) { BudgetShrinks(Depth(f.rows, x), f.rows[x].attempt); }
  }

  lemma {:induction false} RunKeepsTreesBounded(f: Fleet, es: seq<Event>, extra: nat)
    requires Inv(f) && TreesBounded(f, extra)
    ensures TreesBounded(Run(f, es), extra + Surcharges(es))
    decreases |es|
  {
    hide Next, Surcharge, TreesBounded, Inv;
    if es != [] {
      StepKeepsInv(f, es[0]);
      StepKeepsTreesBounded(f, es[0], extra);
      RunKeepsTreesBounded(Next(f, es[0]), es[1..], extra + Surcharge(es[0]));
    }
  }

  /** In every state reachable from an empty table, a row that stands `d` deep in
      its chain has at most 2^(5-d)-1 descendants, sixteen more for every new row
      that was not started or not linked, and thirty-one for every failed lookup. */
  lemma EveryTreeIsBounded(now: int, es: seq<Event>, x: RowId)
    requires x < |Run(Fleet([], now, map[]), es).rows|
    ensures var rows := Run(Fleet([], now, map[]), es).rows;
      Descendants(rows, x, |rows|) <= Budget(Depth(rows, x)) + Surcharges(es)
  {
    var f := Fleet([], now, map[]);
    RunKeepsTreesBounded(f, es, 0);
    DescendantsWithinTotal(Run(f, es), x, |Run(f, es).rows|);
  }

  // ----- the surcharge is needed -----

  predicate ReadyToReplace(f: Fleet, x: RowId) {
    && f.selected == map[] && x < |f.rows|
    && f.rows[x].state == Unhealthy && f.rows[x].replacedBy == None && f.rows[x].attempt < MAX_ATTEMPTS
    && !CoolingDown(f.rows[x], f.now, f.rows[x].updatedAt)
  }

  function FailedAttempts(x: RowId, n: nat): seq<Event> {
    if n == 0 then [] else [BeginSweep({x})] + [Visit(x, Failed, EnqueueFailed, 0, NoFaults)] + FailedAttempts(x, n - 1)
  }

  lemma {:induction false} DescendantsSame(rows: seq<Row>, rows': seq<Row>, x: RowId, k: nat)
    requires SameLineage(rows, rows') && k <= |rows|
    ensures Descendants(rows', x, k) == Descendants(rows, x, k)
  {
    if k > 0 {
      DescendantsSame(rows, rows', x, k - 1);
      BelowSame(rows, rows', x, k - 1);
    }
  }

  /** One sweep whose start task cannot be queued leaves a failed row behind and
      the unhealthy row as it was. */
  lemma FailedRound(f: Fleet, x: RowId)
    requires ReadyToReplace(f, x)
    ensures var g := Next(Next(f, BeginSweep({x})), Visit(x, Failed, EnqueueFailed, 0, NoFaults));
      && ReadyToReplace(g, x) && |g.rows| == |f.rows| + 1 && g.rows[..|f.rows|] == f.rows
      && g.rows[|f.rows|].recoveredFrom == Some(x)
  {
    hide ReplaceUnhealthy, CoolingDown;
    var f1 := Next(f, BeginSweep({x}));
    assert f1 == f.(selected := map[x := f.rows[x].updatedAt]);
    ReplaceCases(f.rows, f.now, x, f.rows[x].updatedAt, EnqueueFailed, NoFaults);
    assert Next(f1, Visit(x, Failed, EnqueueFailed, 0, NoFaults)).rows[..|f.rows|] == f.rows;
  }

  lemma ChildCounts(rows: seq<Row>, rows': seq<Row>, x: RowId)
    requires x < |rows| && |rows'| == |rows| + 1 && rows'[..|rows|] == rows && rows'[|rows|].recoveredFrom == Some(x)
    ensures Descendants(rows', x, |rows'|) == Descendants(rows, x, |rows|) + 1
  {
    assert forall i :: 0 <= i < |rows| ==> rows'[i] == rows'[..|rows|][i];
    DescendantsSame(rows, rows', x, |rows|);
  }

  lemma RunTwo(f: Fleet, a: Event, b: Event, rest: seq<Event>)
    ensures Run(f, [a] + [b] + rest) == Run(Next(Next(f, a), b), rest)
  {
    hide Next;
    assert ([a] + [b] + rest)[1..] == [b] + rest && ([b] + rest)[1..] == rest;
    assert Run(Next(f, a), [b] + rest) == Run(Next(Next(f, a), b), rest);
  }

  /** While start tasks cannot be queued, every sweep adds another failed row:
      any number of descendants is reached. */
  lemma {:induction false} EnqueueFailuresAreUnbounded(f: Fleet, x: RowId, n: nat)
    requires ReadyToReplace(f, x)
    ensures var g := Run(f, FailedAttempts(x, n));
      Descendants(g.rows, x, |g.rows|) == Descendants(f.rows, x, |f.rows|) + n
    decreases n
  {
    hide CoolingDown, Next, Descendants;
    if n > 0 {
      var b, v := BeginSweep({x}), Visit(x, Failed, EnqueueFailed, 0, NoFaults);
      var f2 := Next(Next(f, b), v);
      FailedRound(f, x);
      ChildCounts(f.rows, f2.rows, x);
      EnqueueFailuresAreUnbounded(f2, x, n - 1);
      RunTwo(f, b, v, FailedAttempts(x, n - 1));
    }
  }
}
