/** When a model goes past its capacity: what each way of counting costs, and
    that the bounds of the capacity theorems are reached. */
module ReplicaOvershoot {
  import opened Common
  import opened Runtimes
  import opened ReplicaCapacity

  // ----- runs of one claimer -----

  lemma {:induction false} RunConcat(c: Cluster, es: seq<Event>, fs: seq<Event>)
    ensures Run(c, es + fs) == Run(Run(c, es), fs)
    decreases |es|
  {
    if es == [] {
      assert es + fs == fs;
    } else {
      assert (es + fs)[1..] == es[1..] + fs;
      RunConcat(Next(c, es[0]), es[1..], fs);
    }
  }

  lemma RunOne(c: Cluster, e: Event)
    ensures Run(c, [e]) == Next(c, e)
  {
    assert [e][1..] == [];
  }

  /** The steps of one claimer after it has begun. */
  function Finish(tx: TxId): seq<Event> {
    [ClaimSlot(tx)] + [Insert(tx)] + [Commit(tx)]
  }

  lemma RunFinish(c: Cluster, tx: TxId)
    ensures Run(c, Finish(tx)) == Next(Next(Next(c, ClaimSlot(tx)), Insert(tx)), Commit(tx))
  {
    hide Next, Run;
    RunConcat(c, [ClaimSlot(tx)] + [Insert(tx)], [Commit(tx)]);
    RunConcat(c, [ClaimSlot(tx)], [Insert(tx)]);
    RunOne(c, ClaimSlot(tx));
    RunOne(Next(c, ClaimSlot(tx)), Insert(tx));
    RunOne(Next(Next(c, ClaimSlot(tx)), Insert(tx)), Commit(tx));
  }

  /** Steps that neither open a claim nor stop a row: nothing is asked of them. */
  predicate Plain(es: seq<Event>) {
    forall k :: 0 <= k < |es| ==> !es[k].Begin? && !es[k].StopDrained?
  }

  lemma {:induction false} PlainIsGuarded(c: Cluster, es: seq<Event>, cap: ModelId -> nat, serial: ModelId -> bool, p: State -> bool)
    requires Plain(es)
    ensures GuardedRun(c, es, cap, serial, p)
    decreases |es|
  {
    hide Next;
    if es != [] {
      PlainIsGuarded(Next(c, es[0]), es[1..], cap, serial, p);
    }
  }

  /** Claim `tx` is gone with its lock; others may be doomed now, if it was serializable. */
  ghost predicate Gone(c: Cluster, c': Cluster, tx: TxId)
    requires tx in c.claims
  {
    && c'.claims.Keys == c.claims.Keys - {tx}
    && c'.locks == (if Holds(c, tx) then c.locks - {c.claims[tx].model} else c.locks)
    && (c.claims[tx].discipline != Serializable ==> c'.claims == c.claims - {tx})
    && (forall t :: t in c'.claims ==> c'.claims[t] == c.claims[t] || c'.claims[t] == c.claims[t].(doomed := true))
    && (forall t :: t in c'.claims && c'.claims[t].doomed ==> c.claims[t].doomed || c.claims[t].discipline == Serializable)
  }

  /** And it has left a row. */
  ghost predicate Arrived(c: Cluster, c': Cluster, tx: TxId)
    requires tx in c.claims
  {
    && Gone(c, c', tx)
    && |c'.rows| == |c.rows| + 1 && c'.rows[..|c.rows|] == c.rows
    && c'.rows[|c.rows|].model == c.claims[tx].model && c'.rows[|c.rows|].state == Pending
  }

  lemma ArrivedCounts(c: Cluster, c': Cluster, tx: TxId)
    requires tx in c.claims && Arrived(c, c', tx)
    ensures CountedRows(c'.rows, c.claims[tx].model) == CountedRows(c.rows, c.claims[tx].model) + 1
  {
    assert c'.rows == c.rows + [c'.rows[|c.rows|]];
    CountAppend(c.rows, c'.rows[|c.rows|], c.claims[tx].model, Counted);
  }

  predicate CanInsert(c: Cluster, tx: TxId) {
    && tx in c.claims
    && (!c.claims[tx].phase.Waiting? || (c.claims[tx].model !in c.locks && Seen(c, c.claims[tx]) < c.claims[tx].limit))
  }

  /** A claim that is granted, or about to be, gets as far as its insert. */
  lemma Inserts(c: Cluster, tx: TxId)
    requires CanInsert(c, tx)
    ensures var c' := Next(Next(c, ClaimSlot(tx)), Insert(tx));
      && c'.rows == c.rows && tx in c'.claims && c'.claims[tx].phase.Inserted?
      && c'.claims == c.claims[tx := c.claims[tx].(phase := c'.claims[tx].phase)]
      && Ended(c', tx).locks == (if Holds(c, tx) then c.locks - {c.claims[tx].model} else c.locks)
  {
    hide CountIn, UsedIndexes;
    var c1 := Next(c, ClaimSlot(tx));
    assert c1.rows == c.rows && c1.claims == c.claims[tx := c.claims[tx].(phase := c1.claims[tx].phase)];
    assert !c1.claims[tx].phase.Waiting?;
  }

  /** If it is not doomed, it adds its row. */
  lemma FinishArrives(c: Cluster, tx: TxId)
    requires CanInsert(c, tx) && !c.claims[tx].doomed
    ensures Arrived(c, Run(c, Finish(tx)), tx)
  {
    RunFinish(c, tx);
    Inserts(c, tx);
    var c2 := Next(Next(c, ClaimSlot(tx)), Insert(tx));
    var c3 := Next(c2, Commit(tx));
    assert c3.rows == c2.rows + [NewRow(c2.claims[tx].model, c2.claims[tx].phase.index)];
    assert c3.locks == Ended(c2, tx).locks && c3.claims == AfterCommit(c2.claims, tx);
    hide Run, Next, CanInsert;
    assert c3.claims.Keys == c.claims.Keys - {tx};
    if c.claims[tx].discipline != Serializable { assert c3.claims == c.claims - {tx}; }
  }

  /** A claimer that sees no room goes away without a trace. */
  lemma FinishRefused(c: Cluster, tx: TxId)
    requires tx in c.claims && c.claims[tx].phase.Waiting? && c.claims[tx].model !in c.locks
    requires Seen(c, c.claims[tx]) >= c.claims[tx].limit
    ensures Run(c, Finish(tx)) == Cluster(c.rows, c.locks, c.claims - {tx})
  {
    hide CountIn, UsedIndexes;
    RunFinish(c, tx);
    hide Run;
    var c1 := Next(c, ClaimSlot(tx));
    assert c1 == Cluster(c.rows, c.locks, c.claims - {tx});
    assert Next(c1, Insert(tx)) == c1 && Next(c1, Commit(tx)) == c1;
  }

  /** A doomed claim fails: another serializable claim of the model has committed
      since its snapshot. */
  lemma FinishFails(c: Cluster, tx: TxId)
    requires CanInsert(c, tx) && c.claims[tx].doomed
    ensures Run(c, Finish(tx)).rows == c.rows && Gone(c, Run(c, Finish(tx)), tx)
    ensures Run(c, Finish(tx)).claims == c.claims - {tx}
  {
    RunFinish(c, tx);
    Inserts(c, tx);
    var c2 := Next(Next(c, ClaimSlot(tx)), Insert(tx));
    var c3 := Next(c2, Commit(tx));
    assert c3 == Ended(c2, tx);
    hide Run, Next, CanInsert;
    assert c3.claims == c.claims - {tx};
  }

  /** A claim is doomed exactly by the commit of another serializable claim of its
      own model that is not doomed itself. */
  lemma DoomedIff(c: Cluster, e: Event, tx: TxId)
    requires tx in c.claims && tx in Next(c, e).claims && !c.claims[tx].doomed
    ensures Next(c, e).claims[tx].doomed <==>
      && e.Commit? && e.tx in c.claims && e.tx != tx && c.claims[e.tx].phase.Inserted? && !c.claims[e.tx].doomed
      && c.claims[e.tx].discipline == Serializable && c.claims[tx].discipline == Serializable
      && c.claims[e.tx].model == c.claims[tx].model
  {
    hide CountIn, UsedIndexes;
  }

  /** A claim that is rolled back leaves no trace and frees its lock. */
  lemma RollbackFrees(c: Cluster, tx: TxId)
    requires tx in c.claims
    ensures var c' := Next(c, Rollback(tx)); var m := c.claims[tx].model;
      && c'.rows == c.rows && c'.claims == c.claims - {tx}
      && (Holds(c, tx) ==> m !in c'.locks)
      && (forall n :: n != m || !Holds(c, tx) ==> (n in c'.locks <==> n in c.locks) && (n in c'.locks ==> c'.locks[n] == c.locks[n]))
  {
  }

  // ----- counting before the lock -----

  /** From any state, a serializable claim that gets the lock overshoots exactly
      when its snapshot was below the limit, no other serializable claim of the
      model has committed since, and the count by now is not below the limit. */
  lemma SerializableOvershootsIff(c: Cluster, tx: TxId)
    requires tx in c.claims && c.claims[tx].phase.Waiting? && c.claims[tx].discipline == Serializable
    requires c.claims[tx].model !in c.locks && CountedRows(c.rows, c.claims[tx].model) <= c.claims[tx].limit
    ensures var k := c.claims[tx];
      CountedRows(Run(c, Finish(tx)).rows, k.model) > k.limit
      <==> k.phase.snapshot < k.limit && !k.doomed && CountedRows(c.rows, k.model) >= k.limit
  {
    hide Run, Finish, CountIn;
    var k := c.claims[tx];
    if k.phase.snapshot >= k.limit {
      FinishRefused(c, tx);
    } else if k.doomed {
      FinishFails(c, tx);
    } else {
      FinishArrives(c, tx);
      ArrivedCounts(c, Run(c, Finish(tx)), tx);
    }
  }

  /** A locking claim, from any state, never does. */
  lemma LockedClaimNeverOvershoots(c: Cluster, tx: TxId)
    requires tx in c.claims && c.claims[tx].phase.Waiting? && c.claims[tx].discipline == Locked
    requires c.claims[tx].model !in c.locks && CountedRows(c.rows, c.claims[tx].model) <= c.claims[tx].limit
    ensures CountedRows(Run(c, Finish(tx)).rows, c.claims[tx].model) <= c.claims[tx].limit
  {
    hide Run, Finish, CountIn;
    var k := c.claims[tx];
    if Seen(c, k) >= k.limit {
      FinishRefused(c, tx);
    } else if k.doomed {
      FinishFails(c, tx);
    } else {
      FinishArrives(c, tx);
      ArrivedCounts(c, Run(c, Finish(tx)), tx);
    }
  }

  /** With the lock free, a decided serializable claim can arrive, if there is one. */
  lemma SerializableArrives(c: Cluster, m: ModelId, cap: ModelId -> nat, serial: ModelId -> bool) returns (es: seq<Event>)
    requires ClaimsOk(c, cap, serial) && m !in c.locks
    ensures Plain(es) && CountedRows(Run(c, es).rows, m) == CountedRows(c.rows, m) + (if SomeDecided(c, m) then 1 else 0)
  {
    hide CountIn;
    es := [];
    if SomeDecided(c, m) {
      var tx :| tx in c.claims && Decided(c.claims[tx], m);
      assert ClaimOk(c, tx, cap, serial);
      es := Finish(tx);
      FinishArrives(c, tx);
      ArrivedCounts(c, Run(c, es), tx);
    }
  }

  /** Who holds the lock can finish, and frees it. */
  lemma HolderFinishes(c: Cluster, m: ModelId, cap: ModelId -> nat, serial: ModelId -> bool)
    requires ClaimsOk(c, cap, serial) && m in c.locks
    ensures var h := c.locks[m]; var c' := Run(c, Finish(h));
      && h in c.claims && Gone(c, c', h) && ClaimsOk(c', cap, serial) && m !in c'.locks
      && CountedRows(c'.rows, m) + Coming(c', m) == CountedRows(c.rows, m) + Coming(c, m)
  {
    hide CountIn, Finish, Run;
    var h := c.locks[m];
    var c' := Run(c, Finish(h));
    assert ClaimOk(c, h, cap, serial);
    if c.claims[h].doomed {
      FinishFails(c, h);
      SameDecided(c, c', h, m);
    } else {
      FinishArrives(c, h);
      ArrivedCounts(c, c', h);
      if c.claims[h].discipline == Locked { SameDecided(c, c', h, m); } else { NoneDecided(c, h, m); }
    }
    GoneKeepsClaims(c, c', h, cap, serial);
  }

  lemma GoneKeepsClaims(c: Cluster, c': Cluster, tx: TxId, cap: ModelId -> nat, serial: ModelId -> bool)
    requires ClaimsOk(c, cap, serial) && tx in c.claims && Gone(c, c', tx)
    ensures ClaimsOk(c', cap, serial)
  {
    forall t | t in c'.claims ensures ClaimOk(c', t, cap, serial) { assert ClaimOk(c, t, cap, serial); }
  }

  lemma SameDecided(c: Cluster, c': Cluster, tx: TxId, m: ModelId)
    requires tx in c.claims && c'.claims == c.claims - {tx} && !Decided(c.claims[tx], m)
    ensures SomeDecided(c', m) == SomeDecided(c, m)
  {
    hide Decided;
    if SomeDecided(c, m) {
      var t :| t in c.claims && Decided(c.claims[t], m);
      assert Decided(c'.claims[t], m);
    }
    if SomeDecided(c', m) {
      var t :| t in c'.claims && Decided(c'.claims[t], m);
      assert Decided(c.claims[t], m);
    }
  }

  /** The commit of a serializable claim dooms all others of the model. */
  lemma NoneDecided(c: Cluster, tx: TxId, m: ModelId)
    requires tx in c.claims && c.claims[tx].model == m && c.claims[tx].discipline == Serializable
    requires !c.claims[tx].doomed && !c.claims[tx].phase.Waiting?
    ensures SomeDecided(c, m) && !SomeDecided(Run(c, Finish(tx)), m)
  {
    RunFinish(c, tx);
    Inserts(c, tx);
    var c2 := Next(Next(c, ClaimSlot(tx)), Insert(tx));
    assert Next(c2, Commit(tx)).claims == AfterCommit(c2.claims, tx);
    hide Run, Next;
    assert Decided(c.claims[tx], m);
    assert forall t :: t in AfterCommit(c2.claims, tx) ==> !Decided(AfterCommit(c2.claims, tx)[t], m);
  }

  /** All rows that are bound to come to a model can come, whatever the count is by then. */
  lemma ComingRowsArrive(c: Cluster, m: ModelId, cap: ModelId -> nat, serial: ModelId -> bool) returns (es: seq<Event>)
    requires ClaimsOk(c, cap, serial)
    ensures Plain(es) && CountedRows(Run(c, es).rows, m) == CountedRows(c.rows, m) + Coming(c, m)
  {
    hide CountIn, SomeDecided, ClaimsOk, Next;
    if m in c.locks {
      var h := c.locks[m];
      HolderFinishes(c, m, cap, serial);
      var rest := SerializableArrives(Run(c, Finish(h)), m, cap, serial);
      es := Finish(h) + rest;
      RunConcat(c, Finish(h), rest);
    } else {
      es := SerializableArrives(c, m, cap, serial);
    }
  }

  // ----- the bound with serializable claimers is reached -----

  lemma {:induction false} GuardedConcat(
      c: Cluster, es: seq<Event>, fs: seq<Event>, cap: ModelId -> nat, serial: ModelId -> bool, p: State -> bool)
    requires GuardedRun(c, es, cap, serial, p) && GuardedRun(Run(c, es), fs, cap, serial, p)
    ensures GuardedRun(c, es + fs, cap, serial, p)
    decreases |es|
  {
    hide Next, Guarded;
    if es == [] {
      assert es + fs == fs;
    } else {
      assert (es + fs)[1..] == es[1..] + fs;
      GuardedConcat(Next(c, es[0]), es[1..], fs, cap, serial, p);
    }
  }

  /** `n` locking claimers, one after the other. */
  function FillUp(n: nat, tx: TxId, m: ModelId, desired: nat, surge: int): seq<Event> {
    if n == 0 then [] else FillUp(n - 1, tx, m, desired, surge) + ([Begin(tx, m, desired, surge, Locked, false)] + Finish(tx))
  }

  /** One locking claimer with room, from a state where nobody holds a lock. */
  lemma LockedOneArrives(c: Cluster, tx: TxId, m: ModelId, desired: nat, surge: int)
    requires c.locks == map[] && tx !in c.claims && CountedRows(c.rows, m) < Limit(desired, surge)
    ensures var c' := Run(c, [Begin(tx, m, desired, surge, Locked, false)] + Finish(tx));
      c'.locks == c.locks && c'.claims == c.claims && CountedRows(c'.rows, m) == CountedRows(c.rows, m) + 1
  {
    hide Finish, Run, CountIn;
    var b := Begin(tx, m, desired, surge, Locked, false);
    var c1 := Next(c, b);
    RunOne(c, b);
    FinishArrives(c1, tx);
    ArrivedCounts(c1, Run(c1, Finish(tx)), tx);
    RunConcat(c, [b], Finish(tx));
    assert c1.claims - {tx} == c.claims;
  }

  lemma {:induction false} LockedOnesFill(
      c: Cluster, n: nat, tx: TxId, m: ModelId, desired: nat, surge: int, cap: ModelId -> nat, serial: ModelId -> bool)
    requires c.locks == map[] && tx !in c.claims && CountedRows(c.rows, m) + n <= Limit(desired, surge) <= cap(m)
    ensures var es := FillUp(n, tx, m, desired, surge); var c' := Run(c, es);
      && GuardedRun(c, es, cap, serial, Counted)
      && c'.locks == c.locks && c'.claims == c.claims && CountedRows(c'.rows, m) == CountedRows(c.rows, m) + n
    decreases n
  {
    hide CountIn, CountedRows;
    if n > 0 {
      LockedOnesFill(c, n - 1, tx, m, desired, surge, cap, serial);
      var before := FillUp(n - 1, tx, m, desired, surge);
      var c1 := Run(c, before);
      var b := Begin(tx, m, desired, surge, Locked, false);
      var one := [b] + Finish(tx);
      LockedOneArrives(c1, tx, m, desired, surge);
      assert one[1..] == Finish(tx);
      hide Next, Run, Finish;
      PlainIsGuarded(Next(c1, b), Finish(tx), cap, serial, Counted) by { FinishIsPlain(tx); }
      GuardedConcat(c, before, one, cap, serial, Counted);
      RunConcat(c, before, one);
    }
  }

  lemma FinishIsPlain(tx: TxId)
    ensures Plain(Finish(tx))
  {
  }

  /** An empty table with one serializable claim open, if the model has such claimers. */
  function Opened(m: ModelId, desired: nat, surge: int, serial: ModelId -> bool): Cluster {
    if serial(m)
    then Cluster([], map[], map[0 := Claim(m, Limit(desired, surge), Serializable, false, Waiting(0), false)])
    else Quiet([])
  }

  function Opening(m: ModelId, desired: nat, surge: int, serial: ModelId -> bool): seq<Event> {
    if serial(m) then [Begin(0, m, desired, surge, Serializable, false)] else []
  }

  lemma Opens(m: ModelId, desired: nat, surge: int, cap: ModelId -> nat, serial: ModelId -> bool)
    requires Limit(desired, surge) == cap(m)
    ensures var es := Opening(m, desired, surge, serial); var c := Opened(m, desired, surge, serial);
      && GuardedRun(Quiet([]), es, cap, serial, Counted) && Run(Quiet([]), es) == c
      && ClaimsOk(c, cap, serial) && Coming(c, m) == (if serial(m) then 1 else 0)
  {
    if serial(m) {
      RunOne(Quiet([]), Begin(0, m, desired, surge, Serializable, false));
      assert Decided(Opened(m, desired, surge, serial).claims[0], m);
    }
  }

  /** The bound of the capacity theorems is exact: there is a run that takes a model
      to its capacity, and to one more if it has serializable claimers. */
  lemma BoundIsReached(m: ModelId, desired: nat, surge: int, cap: ModelId -> nat, serial: ModelId -> bool)
      returns (es: seq<Event>)
    requires cap(m) == desired + (if surge > 1 then surge else 1)
    ensures GuardedRun(Quiet([]), es, cap, serial, Counted)
    ensures CountedRows(Run(Quiet([]), es).rows, m) == Bound(cap, serial, m)
  {
    var begin := Opening(m, desired, surge, serial);
    Opens(m, desired, surge, cap, serial);
    var c1 := Opened(m, desired, surge, serial);
    var fill := FillUp(cap(m), 1, m, desired, surge);
    assert CountedRows(c1.rows, m) == 0;
    hide Run, GuardedRun, CountIn;
    LockedOnesFill(c1, cap(m), 1, m, desired, surge, cap, serial);
    var c2 := Run(c1, fill);
    SameClaims(c1, c2, cap, serial);
    hide Opened, Coming, Plain, ClaimsOk;
    var rest := ComingRowsArrive(c2, m, cap, serial);
    PlainIsGuarded(c2, rest, cap, serial, Counted);
    RunConcat(Quiet([]), begin, fill);
    RunConcat(Quiet([]), begin + fill, rest);
    GuardedConcat(Quiet([]), begin, fill, cap, serial, Counted);
    GuardedConcat(Quiet([]), begin + fill, rest, cap, serial, Counted);
    es := begin + fill + rest;
  }

  lemma SameClaims(c: Cluster, c': Cluster, cap: ModelId -> nat, serial: ModelId -> bool)
    requires ClaimsOk(c, cap, serial) && c'.claims == c.claims && c'.locks == c.locks
    ensures ClaimsOk(c', cap, serial) && forall m :: Coming(c', m) == Coming(c, m)
  {
    forall t | t in c'.claims ensures ClaimOk(c', t, cap, serial) { assert ClaimOk(c, t, cap, serial); }
    forall m ensures Coming(c', m) == Coming(c, m) {
      ComesNoMore(c, c', m);
      ComesNoMore(c', c, m);
    }
  }

  // ----- stopping a drained row -----

  /** Stopping a drained row takes it back into the counted states without a
      claim.  All that may follow stays within the bound exactly when the counted
      rows and the rows that are bound to come leave room for it. */
  lemma StopIsHarmlessIff(c: Cluster, row: RowId, cap: ModelId -> nat, serial: ModelId -> bool)
    requires Roomy(c, cap, serial, Counted) && row < |c.rows| && c.rows[row].state == Draining
    ensures var m := c.rows[row].model; var c' := Next(c, StopDrained(row));
      (forall es :: GuardedRun(c', es, cap, serial, Counted) ==> CountedRows(Run(c', es).rows, m) <= Bound(cap, serial, m))
      <==> RoomToStop(c, row, cap, serial)
  {
    var m := c.rows[row].model;
    var c' := Next(c, StopDrained(row));
    if RoomToStop(c, row, cap, serial) {
      StepKeepsRoomy(c, StopDrained(row), cap, serial, Counted);
      forall es | GuardedRun(c', es, cap, serial, Counted) ensures CountedRows(Run(c', es).rows, m) <= Bound(cap, serial, m) {
        hide Next, Run, GuardedRun;
        RunKeepsRoomy(c', es, cap, serial, Counted);
      }
    } else {
      CountMove(c.rows, row, Stopping, m, Counted);
      SameClaims(c, c', cap, serial);
      hide CountIn, Run, GuardedRun, Coming;
      var es := ComingRowsArrive(c', m, cap, serial);
      PlainIsGuarded(c', es, cap, serial, Counted);
    }
  }

  function OneClaim(tx: TxId, m: ModelId, numbered: bool): seq<Event> {
    [Begin(tx, m, 1, 1, Locked, numbered)] + Finish(tx)
  }

  ghost function ClaimedRow(rows: seq<Row>, m: ModelId, numbered: bool): Row {
    NewRow(m, if numbered then LeastFree(UsedIndexes(rows, m)) else -1)
  }

  /** One whole claim of a model with one desired replica, from a quiet state with room. */
  lemma ClaimAdds(rows: seq<Row>, tx: TxId, m: ModelId, numbered: bool)
    requires CountedRows(rows, m) < 2
    ensures Run(Quiet(rows), OneClaim(tx, m, numbered)) == Quiet(rows + [ClaimedRow(rows, m, numbered)])
    ensures CountedRows(rows + [ClaimedRow(rows, m, numbered)], m) == CountedRows(rows, m) + 1
  {
    hide CountIn, UsedIndexes;
    var b := Begin(tx, m, 1, 1, Locked, numbered);
    RunConcat(Quiet(rows), [b], Finish(tx));
    RunOne(Quiet(rows), b);
    RunFinish(Next(Quiet(rows), b), tx);
    hide Run;
    CountAppend(rows, ClaimedRow(rows, m, numbered), m, Counted);
  }

  /** The first row is claimed and drained. */
  function DrainFirst(m: ModelId, numbered: bool): seq<Event> {
    OneClaim(1, m, numbered) + [Move(0, Draining)]
  }

  ghost function Drained(m: ModelId, numbered: bool): Row { ClaimedRow([], m, numbered).(state := Draining) }

  lemma FirstDrained(m: ModelId, numbered: bool)
    ensures Run(Quiet([]), DrainFirst(m, numbered)) == Quiet([Drained(m, numbered)])
    ensures CountedRows([Drained(m, numbered)], m) == 0 && UsedIndexes([Drained(m, numbered)], m) == {}
  {
    var row := ClaimedRow([], m, numbered);
    ClaimAdds([], 1, m, numbered);
    RunConcat(Quiet([]), OneClaim(1, m, numbered), [Move(0, Draining)]);
    RunOne(Quiet([row]), Move(0, Draining));
    assert [] + [row] == [row] && [row][0 := Drained(m, numbered)] == [Drained(m, numbered)];
    hide Run, OneClaim, ClaimedRow;
    assert [Drained(m, numbered)][..0] == [];
  }

  /** The reconciler's own drain-and-stop reaches three counted rows of a model
      with one desired replica and a surge of one, from an empty table, with
      every claimer locking first. */
  lemma DrainAndStopOvershoots(m: ModelId)
    ensures var es := DrainFirst(m, false) + OneClaim(2, m, false) + OneClaim(3, m, false) + [StopDrained(0)];
      CountedRows(Run(Quiet([]), es).rows, m) > Limit(1, 1)
  {
    var es := DrainFirst(m, false) + OneClaim(2, m, false) + OneClaim(3, m, false);
    FirstDrained(m, false);
    hide OneClaim, DrainFirst, Run, CountIn, CountedRows, UsedIndexes;
    var rows1 := [Drained(m, false)];
    ClaimAdds(rows1, 2, m, false);
    var rows2 := rows1 + [ClaimedRow(rows1, m, false)];
    ClaimAdds(rows2, 3, m, false);
    RunConcat(Quiet([]), DrainFirst(m, false), OneClaim(2, m, false));
    RunConcat(Quiet([]), DrainFirst(m, false) + OneClaim(2, m, false), OneClaim(3, m, false));
    RunConcat(Quiet([]), es, [StopDrained(0)]);
    StopCounts(rows2 + [ClaimedRow(rows2, m, false)], m);
  }

  lemma StopCounts(rows: seq<Row>, m: ModelId)
    requires |rows| > 0 && rows[0].model == m && rows[0].state == Draining
    ensures CountedRows(Run(Quiet(rows), [StopDrained(0)]).rows, m) == CountedRows(rows, m) + 1
  {
    RunOne(Quiet(rows), StopDrained(0));
    CountMove(rows, 0, Stopping, m, Counted);
  }

  // ----- stopping and replica numbers -----

  /** Stopping a drained row keeps the numbers of counted rows distinct, now and
      after the inserts under way, exactly when its own number is not in use. */
  lemma StopKeepsNumbersIff(c: Cluster, row: RowId, cap: ModelId -> nat, serial: ModelId -> bool)
    requires ClaimsOk(c, cap, serial) && Numbered(c, Counted) && row < |c.rows| && c.rows[row].state == Draining
    ensures Numbered(Next(c, StopDrained(row)), Counted) <==> NumberUnused(c, row, Counted)
  {
    var c' := Next(c, StopDrained(row));
    if NumberUnused(c, row, Counted) {
      NumbersNonNegative(c, cap, serial);
      MoveKeepsNumbered(c, row, Stopping, Counted);
    } else if IndexFree(c.rows, c.rows[row].model, c.rows[row].index, Counted) {
      var tx :| tx in c.claims && c.claims[tx].phase.Inserted? && c.claims[tx].model == c.rows[row].model
        && c.claims[tx].phase.index == c.rows[row].index;
      assert ClaimOk(c, tx, cap, serial);
      assert c'.rows[row].index == c'.claims[tx].phase.index;
    } else {
      var i :| 0 <= i < |c.rows| && c.rows[i].model == c.rows[row].model && Counted(c.rows[i].state)
        && c.rows[i].index == c.rows[row].index;
      assert c'.rows[i].index == c'.rows[row].index >= 0 && i != row;
    }
  }

  /** A drained row's number is given to the next row; stopping it then leaves two
      counted rows with one number. */
  lemma StoppedRowSharesNumber(m: ModelId)
    ensures var rows := Run(Quiet([]), DrainFirst(m, true) + OneClaim(2, m, true) + [StopDrained(0)]).rows;
      |rows| == 2 && CountedFor(rows[0], m) && CountedFor(rows[1], m) && rows[0].index == rows[1].index == 0
  {
    var rows1 := [Drained(m, true)];
    FirstDrained(m, true);
    ClaimAdds(rows1, 2, m, true);
    assert UsedIndexes([], m) == {};
    LeastFreeUnique({}, LeastFree({}), 0);
    hide OneClaim, DrainFirst, Run, CountIn, UsedIndexes;
    var rows2 := rows1 + [ClaimedRow(rows1, m, true)];
    RunConcat(Quiet([]), DrainFirst(m, true), OneClaim(2, m, true));
    RunConcat(Quiet([]), DrainFirst(m, true) + OneClaim(2, m, true), [StopDrained(0)]);
    RunOne(Quiet(rows2), StopDrained(0));
  }

  // ----- no guard at all -----

  /** The first claimer has read and decided; the second one begins. */
  lemma BothRead(c: Cluster, m: ModelId, desired: nat, surge: int)
    requires c.claims == map[] && c.locks == map[] && CountedRows(c.rows, m) < Limit(desired, surge)
    ensures Run(c, [Begin(1, m, desired, surge, Unguarded, false)] + [ClaimSlot(1)] + [Begin(2, m, desired, surge, Unguarded, false)])
      == Cluster(c.rows, map[], map[1 := Claim(m, Limit(desired, surge), Unguarded, false, Claimed, false),
           2 := Claim(m, Limit(desired, surge), Unguarded, false, Waiting(CountedRows(c.rows, m)), false)])
  {
    hide CountIn;
    var b1, b2 := Begin(1, m, desired, surge, Unguarded, false), Begin(2, m, desired, surge, Unguarded, false);
    RunConcat(c, [b1] + [ClaimSlot(1)], [b2]);
    RunConcat(c, [b1], [ClaimSlot(1)]);
    RunOne(c, b1);
    RunOne(Next(c, b1), ClaimSlot(1));
    RunOne(Next(Next(c, b1), ClaimSlot(1)), b2);
    hide Run;
  }

  /** The plain read-then-insert: when both claimers read before either inserts,
      the last free slot is given away twice. */
  lemma UnguardedInsertsOvershootIff(c: Cluster, m: ModelId, desired: nat, surge: int)
    requires c.claims == map[] && c.locks == map[] && CountedRows(c.rows, m) < Limit(desired, surge)
    ensures var es := [Begin(1, m, desired, surge, Unguarded, false)] + [ClaimSlot(1)] + [Begin(2, m, desired, surge, Unguarded, false)]
                      + Finish(2) + Finish(1);
      CountedRows(Run(c, es).rows, m) > Limit(desired, surge) <==> CountedRows(c.rows, m) + 1 == Limit(desired, surge)
  {
    hide Finish, Run, Next, CountIn;
    var start := [Begin(1, m, desired, surge, Unguarded, false)] + [ClaimSlot(1)] + [Begin(2, m, desired, surge, Unguarded, false)];
    BothRead(c, m, desired, surge);
    var c1 := Run(c, start);
    FinishArrives(c1, 2);
    var c2 := Run(c1, Finish(2));
    ArrivedCounts(c1, c2, 2);
    FinishArrives(c2, 1);
    ArrivedCounts(c2, Run(c2, Finish(1)), 1);
    RunConcat(c, start, Finish(2));
    RunConcat(c, start + Finish(2), Finish(1));
  }
}
