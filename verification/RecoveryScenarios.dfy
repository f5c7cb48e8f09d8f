/** Runs from an empty table that reach what the recovery protocol does not rule
    out: one for each property that holds only under a condition. */
module RecoveryScenarios {
  import opened Common
  import opened Runtimes
  import opened Recovery
  import opened RecoveryInvariant
  import opened RecoveryTheorems

  lemma {:induction false} RunConcat(f: Fleet, es: seq<Event>, gs: seq<Event>)
    ensures Run(f, es + gs) == Run(Run(f, es), gs)
    decreases |es|
  {
    hide Next;
    if es == [] {
      assert es + gs == gs;
    } else {
      assert (es + gs)[1..] == es[1..] + gs;
      RunConcat(Next(f, es[0]), es[1..], gs);
    }
  }

  lemma RunThen(f: Fleet, es: seq<Event>, e: Event)
    ensures Run(f, es + [e]) == Next(Run(f, es), e)
  {
    hide Next;
    RunConcat(f, es, [e]);
    assert [e][1..] == [];
  }

  // ----- single steps -----

  lemma Reports(f: Fleet, es: seq<Event>, x: RowId, to: State, at: int)
    requires x < |Run(f, es).rows| && MayBecome(Run(f, es).rows[x].state, to)
    ensures var g := Run(f, es);
      Run(f, es + [Report(x, to, at, false)])
      == g.(rows := g.rows[x := g.rows[x].(state := to, updatedAt := at, confirmedDead := false)])
  {
    RunThen(f, es, Report(x, to, at, false));
  }

  lemma Ticks(f: Fleet, es: seq<Event>, seconds: nat)
    ensures Run(f, es + [Tick(seconds)]) == Run(f, es).(now := Run(f, es).now + seconds)
  {
    RunThen(f, es, Tick(seconds));
  }

  lemma Selects(f: Fleet, es: seq<Event>, x: RowId)
    requires var g := Run(f, es); g.selected == map[] && x < |g.rows| && g.rows[x].state == Unhealthy
    ensures Run(f, es + [BeginSweep({x})]) == Run(f, es).(selected := map[x := Run(f, es).rows[x].updatedAt])
  {
    RunThen(f, es, BeginSweep({x}));
  }

  lemma Visits(f: Fleet, es: seq<Event>, e: Event)
    requires var g := Run(f, es);
      e.Visit? && e.row < |g.rows| && g.selected.Keys == {e.row} && Consistent(g, e.row, e.seen)
    ensures var g := Run(f, es);
      Run(f, es + [e]) == g.(
        rows := VisitRow(g.rows, g.now, e.row, g.selected[e.row], e.seen, e.fate, e.timeout, e.faults), selected := map[])
  {
    RunThen(f, es, e);
    hide Run, VisitRow;
    assert Run(f, es).selected - {e.row} == map[];
  }

  // ----- the runs -----

  const Empty := Fleet([], 0, map[])

  /** A deployed row that was reported unhealthy at once. */
  function Hub(m: ModelId): Row { Row(m, Unhealthy, -1, 0, None, None, None, 0, false) }

  /** One row is deployed, turns unhealthy, and is selected after the first cooldown. */
  function Selecting(m: ModelId): seq<Event> {
    [Arrive(m)] + [Report(0, Unhealthy, 0, false)] + [Tick(30)] + [BeginSweep({0})]
  }

  lemma Selected(m: ModelId)
    ensures Run(Empty, Selecting(m)) == Fleet([Hub(m)], 30, map[0 := 0])
  {
    var es1 := [Arrive(m)] + [Report(0, Unhealthy, 0, false)];
    RunThen(Empty, [], Arrive(m));
    assert [] + [Arrive(m)] == [Arrive(m)];
    assert Run(Empty, [Arrive(m)]).rows == [Hub(m).(state := Pending)];
    hide Next, Run;
    Reports(Empty, [Arrive(m)], 0, Unhealthy, 0);
    Ticks(Empty, es1, 30);
    Selects(Empty, es1 + [Tick(30)], 0);
  }

  function Visiting(m: ModelId, faults: Faults): seq<Event> {
    Selecting(m) + [Visit(0, Pending, Started, 900, faults)]
  }

  /** The replacement that the first visit inserts. */
  ghost function Child(m: ModelId): Row { NewReplica([Hub(m)], 30, m, Some(0), 1) }

  lemma ChildIsPending(m: ModelId)
    ensures Child(m) == Row(m, Pending, Child(m).index, 1, Some(0), None, None, 30, false)
  {
  }

  ghost function LinkedHub(m: ModelId): Row { Hub(m).(replacedBy := Some(1), attempt := 1, updatedAt := 30) }

  /** What a visit does to an unhealthy row without replacement whose wait is over. */
  lemma Replaces(rows: seq<Row>, now: int, x: RowId, since: int, faults: Faults)
    requires x < |rows| && rows[x].replacedBy == None && rows[x].nextRetryAt == None && now - since >= 30
    requires faults.lookup || rows[x].attempt < MAX_ATTEMPTS
    ensures var attempt := if faults.lookup then 1 else rows[x].attempt + 1;
      var row := NewReplica(rows, now, rows[x].model, Some(x), attempt);
      VisitRow(rows, now, x, since, Pending, Started, 900, faults)
      == (if faults.link then rows else rows[x := rows[x].(replacedBy := Some(|rows|), attempt := attempt, updatedAt := now)]) + [row]
  {
    hide NewReplica;
    assert Cooldown(0) == 30;
    hide Cooldown;
  }

  lemma Visited(m: ModelId, faults: Faults)
    requires !faults.lookup
    ensures Run(Empty, Visiting(m, faults)) == Fleet([if faults.link then Hub(m) else LinkedHub(m)] + [Child(m)], 30, map[])
  {
    hide NewReplica, Run, Next, VisitRow;
    Selected(m);
    Visits(Empty, Selecting(m), Visit(0, Pending, Started, 900, faults));
    Replaces([Hub(m)], 30, 0, 0, faults);
  }

  /** A lost link write leads to two live replacements of one row. */
  lemma LostLinkLeavesTwoLive(m: ModelId)
    ensures var es := Visiting(m, NoFaults.(link := true)) + [BeginSweep({0})] + [Visit(0, Pending, Started, 900, NoFaults)];
      var rows := Run(Empty, es).rows;
      && |rows| == 3 && rows[1].recoveredFrom == rows[2].recoveredFrom == Some(0)
      && !Dead(rows[1].state) && !Dead(rows[2].state)
  {
    hide Run, Next, VisitRow, Visiting, UsedIndexes;
    var es := Visiting(m, NoFaults.(link := true));
    Visited(m, NoFaults.(link := true));
    Selects(Empty, es, 0);
    Visits(Empty, es + [BeginSweep({0})], Visit(0, Pending, Started, 900, NoFaults));
    Replaces([Hub(m)] + [Child(m)], 30, 0, 0, NoFaults);
  }

  /** A failed lookup leads to a chain that is longer than its counter. */
  lemma FailedLookupLengthensChain(m: ModelId)
    ensures var es := Visiting(m, NoFaults) + [Report(1, Unhealthy, 30, false)] + [Tick(30)] + [BeginSweep({1})]
                      + [Visit(1, Pending, Started, 900, NoFaults.(lookup := true))];
      var rows := Run(Empty, es).rows;
      |rows| == 3 && Depth(rows, 2) == 2 && rows[2].attempt == 1
  {
    hide Run, Next, VisitRow, Visiting, Child, UsedIndexes;
    var es1 := Visiting(m, NoFaults) + [Report(1, Unhealthy, 30, false)];
    Visited(m, NoFaults);
    ChildIsPending(m);
    Reports(Empty, Visiting(m, NoFaults), 1, Unhealthy, 30);
    Ticks(Empty, es1, 30);
    Selects(Empty, es1 + [Tick(30)], 1);
    Visits(Empty, es1 + [Tick(30)] + [BeginSweep({1})], Visit(1, Pending, Started, 900, NoFaults.(lookup := true)));
    Replaces([LinkedHub(m)] + [Child(m).(state := Unhealthy)], 60, 1, 30, NoFaults.(lookup := true));
    assert ([LinkedHub(m)] + [Child(m)])[1 := Child(m).(state := Unhealthy)] == [LinkedHub(m)] + [Child(m).(state := Unhealthy)];
  }

  /** A replacement that becomes ready between the read and the write of a visit
      that times it out is taken out of service. */
  lemma LateTimeoutHappens(m: ModelId)
    ensures var es := Visiting(m, NoFaults) + [Tick(1000)] + [BeginSweep({0})] + [Report(1, Ready, 1030, false)];
      var e := Visit(0, Pending, Aborted, 900, NoFaults);
      var f, g := Run(Empty, es), Run(Empty, es + [e]);
      && |f.rows| == |g.rows| == 2 && Serving(f.rows[1].state) && LateTimeout(f, e, 1) && g.rows[1].state == Failed
  {
    hide Run, Next, Visiting, Child, Cooldown;
    var es1 := Visiting(m, NoFaults) + [Tick(1000)];
    var es := es1 + [BeginSweep({0})] + [Report(1, Ready, 1030, false)];
    Visited(m, NoFaults);
    ChildIsPending(m);
    Ticks(Empty, Visiting(m, NoFaults), 1000);
    Selects(Empty, es1, 0);
    Reports(Empty, es1 + [BeginSweep({0})], 1, Ready, 1030);
    Visits(Empty, es, Visit(0, Pending, Aborted, 900, NoFaults));
  }

  /** A row whose replacement has failed and which has been reported lost. */
  function Abandoning(m: ModelId): seq<Event> {
    Visiting(m, NoFaults) + [Report(1, Failed, 30, false)] + [BeginSweep({0})]
    + [Visit(0, Failed, Aborted, 900, NoFaults)] + [Report(0, Lost, 31, false)]
  }

  lemma Abandoned(m: ModelId)
    ensures Run(Empty, Abandoning(m))
      == Fleet([Hub(m).(attempt := 1, nextRetryAt := Some(150), state := Lost, updatedAt := 31)] + [Child(m).(state := Failed)], 30, map[])
  {
    hide Run, Next, Visiting, Child;
    var es1 := Visiting(m, NoFaults) + [Report(1, Failed, 30, false)];
    var e := Visit(0, Failed, Aborted, 900, NoFaults);
    Visited(m, NoFaults);
    ChildIsPending(m);
    Reports(Empty, Visiting(m, NoFaults), 1, Failed, 30);
    Selects(Empty, es1, 0);
    Visits(Empty, es1 + [BeginSweep({0})], e);
    assert Cooldown(2) == 120;
    hide Cooldown;
    Reports(Empty, es1 + [BeginSweep({0})] + [e], 0, Lost, 31);
  }

  /** Such a row waits for its next attempt, but a top-up spawns from it at once. */
  lemma TopUpIgnoresCooldown(m: ModelId)
    ensures var f := Run(Empty, Abandoning(m));
      var rows := Run(Empty, Abandoning(m) + [TopUp(m, Some(0), Started, NoFaults)]).rows;
      && WaitsUntil(f, 0, 150) && f.now < 150
      && |rows| == 3 && rows[2].recoveredFrom == Some(0)
  {
    hide Run, Abandoning, Child, UsedIndexes;
    Abandoned(m);
    ChildIsPending(m);
    RunThen(Empty, Abandoning(m), TopUp(m, Some(0), Started, NoFaults));
    assert Eligible(Run(Empty, Abandoning(m)).rows, m, Some(0));
  }
}
