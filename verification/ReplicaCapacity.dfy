/** Claiming replica slots.  Any number of claimers (the reconciler, the
    stuck-runtime sweeper, the activator) begin, claim under the per-model
    advisory lock, insert and commit or roll back, in any interleaving. */
module ReplicaCapacity {
  import opened Common
  import opened Runtimes

  type TxId = nat

  /** How a claimer counts.  `Locked` counts after the lock is granted (READ
      COMMITTED, the reconciler).  `Serializable` counts in the snapshot its
      transaction took when the claim statement began, before waiting for the
      lock (the stuck-runtime sweeper and the admin handlers).  `Unguarded` is the
      plain read-then-insert that the guard replaced. */
  datatype Discipline = Locked | Serializable | Unguarded

  datatype Phase = Waiting(snapshot: nat) | Claimed | Inserted(index: int)

  /** `doomed`: another serializable claim of the model has committed since this
      one took its snapshot.  Each has read what the other inserts, so the database
      fails the one that comes second. */
  datatype Claim = Claim(
    model: ModelId, limit: nat, discipline: Discipline, numbered: bool, phase: Phase, doomed: bool)

  datatype Cluster = Cluster(rows: seq<Row>, locks: map<ModelId, TxId>, claims: map<TxId, Claim>)

  datatype Event =
    | Begin(tx: TxId, model: ModelId, desired: nat, surge: int, discipline: Discipline, numbered: bool)
    | ClaimSlot(tx: TxId)
    | Insert(tx: TxId)
    | Commit(tx: TxId)
    | Rollback(tx: TxId)
    | Move(row: RowId, to: State)
    | StopDrained(row: RowId)

  /** A surge below one is taken as one. */
  function Limit(desired: nat, surge: int): nat {
    desired + (if surge > 1 then surge else 1)
  }

  /** Counted, and not just finishing its shutdown. */
  predicate Live(s: State) { Counted(s) && s != Stopping }

  /** What other components may do to a row: nothing enters the counted states. */
  predicate Allowed(from: State, to: State) {
    (Counted(to) ==> Counted(from)) && (Live(to) ==> Live(from))
  }

  function NewRow(model: ModelId, index: int): Row {
    Row(model, Pending, index, 0, None, None, None, 0, false)
  }

  predicate Holds(c: Cluster, tx: TxId) {
    tx in c.claims && c.claims[tx].model in c.locks && c.locks[c.claims[tx].model] == tx
  }

  /** Ends a transaction: its locks go with it. */
  function Ended(c: Cluster, tx: TxId): Cluster
    requires tx in c.claims
  {
    c.(claims := c.claims - {tx},
       locks := if Holds(c, tx) then c.locks - {c.claims[tx].model} else c.locks)
  }

  function Seen(c: Cluster, k: Claim): nat
    requires k.phase.Waiting?
  {
    if k.discipline == Serializable then k.phase.snapshot else CountedRows(c.rows, k.model)
  }

  /** The open claims after claim `tx` has committed its row. */
  function AfterCommit(claims: map<TxId, Claim>, tx: TxId): map<TxId, Claim>
    requires tx in claims
  {
    map t | t in claims && t != tx ::
      if claims[tx].discipline == Serializable && claims[t].discipline == Serializable && claims[t].model == claims[tx].model
      then claims[t].(doomed := true) else claims[t]
  }

  ghost function Next(c: Cluster, e: Event): Cluster {
    match e
    case Begin(tx, model, desired, surge, discipline, numbered) =>
      if tx in c.claims then c
      else c.(claims := c.claims[tx :=
        Claim(model, Limit(desired, surge), discipline, numbered, Waiting(CountedRows(c.rows, model)), false)])
    case ClaimSlot(tx) =>
      if tx !in c.claims || !c.claims[tx].phase.Waiting? then c
      else
        var k := c.claims[tx];
        if k.discipline != Unguarded && k.model in c.locks then c
        else if Seen(c, k) < k.limit then
          c.(claims := c.claims[tx := k.(phase := Claimed)],
             locks := if k.discipline == Unguarded then c.locks else c.locks[k.model := tx])
        else Ended(c, tx)
    case Insert(tx) =>
      if tx !in c.claims || c.claims[tx].phase != Claimed then c
      else
        var k := c.claims[tx];
        c.(claims := c.claims[tx := k.(phase :=
          Inserted(if k.numbered then LeastFree(UsedIndexes(c.rows, k.model)) else -1))])
    case Commit(tx) =>
      if tx !in c.claims || !c.claims[tx].phase.Inserted? then c
      else
        var k := c.claims[tx];
        if k.doomed then Ended(c, tx)
        else Ended(c, tx).(rows := c.rows + [NewRow(k.model, k.phase.index)], claims := AfterCommit(c.claims, tx))
    case Rollback(tx) => if tx !in c.claims then c else Ended(c, tx)
    case Move(row, to) =>
      if row < |c.rows| && Allowed(c.rows[row].state, to)
      then c.(rows := c.rows[row := c.rows[row].(state := to)]) else c
    case StopDrained(row) =>
      if row < |c.rows| && c.rows[row].state == Draining
      then c.(rows := c.rows[row := c.rows[row].(state := Stopping)]) else c
  }

  ghost function Run(c: Cluster, es: seq<Event>): Cluster
    decreases |es|
  {
    if es == [] then c else Run(Next(c, es[0]), es[1..])
  }

  // ----- how the counts move -----

  lemma CountAppend(rows: seq<Row>, row: Row, model: ModelId, p: State -> bool)
    ensures CountIn(rows + [row], model, p)
         == CountIn(rows, model, p) + (if row.model == model && p(row.state) then 1 else 0)
  {
    assert (rows + [row])[..|rows|] == rows;
  }

  lemma {:induction false} CountMove(rows: seq<Row>, i: nat, to: State, model: ModelId, p: State -> bool)
    requires i < |rows|
    ensures CountIn(rows[i := rows[i].(state := to)], model, p)
         == CountIn(rows, model, p)
            - (if rows[i].model == model && p(rows[i].state) then 1 else 0)
            + (if rows[i].model == model && p(to) then 1 else 0)
  {
    var rows' := rows[i := rows[i].(state := to)];
    var n := |rows| - 1;
    if i == n {
      assert rows'[..n] == rows[..n];
    } else {
      assert rows'[..n] == rows[..n][i := rows[..n][i].(state := to)];
      CountMove(rows[..n], i, to, model, p);
    }
  }

  lemma {:induction false} CountWithin(rows: seq<Row>, model: ModelId, p: State -> bool, q: State -> bool)
    requires forall s :: p(s) ==> q(s)
    ensures CountIn(rows, model, p) <= CountIn(rows, model, q)
  {
    if rows != [] {
      CountWithin(rows[..|rows| - 1], model, p, q);
    }
  }

  // ----- capacity, for the counted states and for the live ones alike -----

  predicate ClaimOk(c: Cluster, tx: TxId, cap: ModelId -> nat, serial: ModelId -> bool)
    requires tx in c.claims
  {
    var k := c.claims[tx];
    && k.discipline != Unguarded && k.limit <= cap(k.model)
    && (!k.phase.Waiting? ==> Holds(c, tx))
    && (k.discipline == Serializable ==> serial(k.model) && !k.numbered)
    && (k.doomed ==> k.discipline == Serializable)
    && (k.phase.Inserted? ==> if k.numbered then k.phase.index >= 0 else k.phase.index == -1)
  }

  /** Claims are in order, and every lock is held by a claim that was granted. */
  ghost predicate ClaimsOk(c: Cluster, cap: ModelId -> nat, serial: ModelId -> bool) {
    && (forall tx :: tx in c.claims ==> ClaimOk(c, tx, cap, serial))
    && (forall m :: m in c.locks ==>
          c.locks[m] in c.claims && c.claims[c.locks[m]].model == m && !c.claims[c.locks[m]].phase.Waiting?)
  }

  /** A locking claim of the model has been granted. */
  predicate Granted(c: Cluster, m: ModelId) {
    m in c.locks && c.locks[m] in c.claims && c.claims[c.locks[m]].discipline == Locked
  }

  /** A serializable claim that will insert a row unless it is rolled back or fails:
      it has been granted, or its snapshot already says that it will be. */
  predicate Decided(k: Claim, m: ModelId) {
    && k.model == m && k.discipline == Serializable && !k.doomed
    && (k.phase.Waiting? ==> k.phase.snapshot < k.limit)
  }

  predicate SomeDecided(c: Cluster, m: ModelId) {
    exists tx :: tx in c.claims && Decided(c.claims[tx], m)
  }

  /** The rows that are bound to come: that of the lock's holder, and of all decided
      serializable claims only one, because its commit fails the others. */
  function Coming(c: Cluster, m: ModelId): nat {
    (if Granted(c, m) then 1 else 0) + (if SomeDecided(c, m) then 1 else 0)
  }

  /** What a model's rows may add up to: its capacity, and one more if it has
      serializable claimers at all. */
  function Bound(cap: ModelId -> nat, serial: ModelId -> bool, m: ModelId): nat {
    cap(m) + (if serial(m) then 1 else 0)
  }

  /** Rows in the states `p`, with all rows that are bound to come, fit. */
  ghost predicate Roomy(c: Cluster, cap: ModelId -> nat, serial: ModelId -> bool, p: State -> bool) {
    ClaimsOk(c, cap, serial) && forall m :: CountIn(c.rows, m, p) + Coming(c, m) <= Bound(cap, serial, m)
  }

  /** Every number ever given out is below the bound. */
  ghost predicate NumbersWithin(c: Cluster, cap: ModelId -> nat, serial: ModelId -> bool) {
    && (forall i :: 0 <= i < |c.rows| ==> c.rows[i].index < Bound(cap, serial, c.rows[i].model))
    && (forall tx :: tx in c.claims && c.claims[tx].phase.Inserted? ==>
          c.claims[tx].phase.index < Bound(cap, serial, c.claims[tx].model))
  }

  /** The states `p` may be either all counted ones or the live ones. */
  ghost predicate Watched(p: State -> bool) {
    (forall s :: p(s) <==> Counted(s)) || (forall s :: p(s) <==> Live(s))
  }

  /** Taking row `row` back into the counted states leaves room for the rows that
      are bound to come. */
  ghost predicate RoomToStop(c: Cluster, row: RowId, cap: ModelId -> nat, serial: ModelId -> bool) {
    row < |c.rows| && c.rows[row].state == Draining ==>
      CountedRows(c.rows, c.rows[row].model) + Coming(c, c.rows[row].model) < Bound(cap, serial, c.rows[row].model)
  }

  /** What is asked of the claimers: nobody claims without the lock or for more
      than the capacity; serializable claimers, of the models that have them, do not
      number their rows.  When stopping rows are watched, stops must leave room. */
  ghost predicate Guarded(c: Cluster, e: Event, cap: ModelId -> nat, serial: ModelId -> bool, p: State -> bool) {
    && (e.Begin? ==>
          && e.discipline != Unguarded && Limit(e.desired, e.surge) <= cap(e.model)
          && (e.discipline == Serializable ==> !e.numbered && serial(e.model)))
    && (e.StopDrained? && p(Stopping) ==> RoomToStop(c, e.row, cap, serial))
  }

  ghost predicate GuardedRun(c: Cluster, es: seq<Event>, cap: ModelId -> nat, serial: ModelId -> bool, p: State -> bool)
    decreases |es|
  {
    es == [] || (Guarded(c, es[0], cap, serial, p) && GuardedRun(Next(c, es[0]), es[1..], cap, serial, p))
  }

  /** Serializable claims exist only where they are allowed. */
  lemma DecidedIsSerial(c: Cluster, cap: ModelId -> nat, serial: ModelId -> bool, m: ModelId)
    requires ClaimsOk(c, cap, serial) && SomeDecided(c, m)
    ensures serial(m)
  {
    var tx :| tx in c.claims && Decided(c.claims[tx], m);
    assert ClaimOk(c, tx, cap, serial);
  }

  /** If every decided claim was one before, no more rows are bound to come. */
  lemma ComesNoMore(c: Cluster, c': Cluster, m: ModelId)
    requires Granted(c', m) ==> Granted(c, m)
    requires forall tx :: tx in c'.claims && Decided(c'.claims[tx], m) ==> tx in c.claims && Decided(c.claims[tx], m)
    ensures Coming(c', m) <= Coming(c, m)
  {
    hide Decided;
    if SomeDecided(c', m) {
      var tx :| tx in c'.claims && Decided(c'.claims[tx], m);
      assert Decided(c.claims[tx], m);
    }
  }

  lemma BeginKeepsClaims(c: Cluster, e: Event, cap: ModelId -> nat, serial: ModelId -> bool, p: State -> bool)
    requires ClaimsOk(c, cap, serial) && e.Begin? && Guarded(c, e, cap, serial, p)
    ensures ClaimsOk(Next(c, e), cap, serial)
  {
    hide CountIn;
    var c' := Next(c, e);
    forall t | t in c'.claims ensures ClaimOk(c', t, cap, serial) { assert t in c.claims ==> ClaimOk(c, t, cap, serial); }
  }

  lemma EndKeepsClaims(c: Cluster, tx: TxId, cap: ModelId -> nat, serial: ModelId -> bool)
    requires ClaimsOk(c, cap, serial) && tx in c.claims
    ensures ClaimsOk(Ended(c, tx), cap, serial)
  {
    var c' := Ended(c, tx);
    forall t | t in c'.claims ensures ClaimOk(c', t, cap, serial) { assert ClaimOk(c, t, cap, serial); }
  }

  lemma ClaimKeepsClaims(c: Cluster, tx: TxId, cap: ModelId -> nat, serial: ModelId -> bool)
    requires ClaimsOk(c, cap, serial)
    ensures ClaimsOk(Next(c, ClaimSlot(tx)), cap, serial)
  {
    hide CountIn;
    var c' := Next(c, ClaimSlot(tx));
    if tx in c.claims {
      assert ClaimOk(c, tx, cap, serial);
      EndKeepsClaims(c, tx, cap, serial);
      forall t | t in c'.claims ensures ClaimOk(c', t, cap, serial) { assert ClaimOk(c, t, cap, serial); }
    }
  }

  lemma InsertKeepsClaims(c: Cluster, tx: TxId, cap: ModelId -> nat, serial: ModelId -> bool)
    requires ClaimsOk(c, cap, serial)
    ensures ClaimsOk(Next(c, Insert(tx)), cap, serial)
  {
    hide UsedIndexes;
    var c' := Next(c, Insert(tx));
    forall t | t in c'.claims ensures ClaimOk(c', t, cap, serial) { assert ClaimOk(c, t, cap, serial); }
  }

  lemma BeginKeepsRoomy(c: Cluster, e: Event, cap: ModelId -> nat, serial: ModelId -> bool, p: State -> bool)
    requires Roomy(c, cap, serial, p) && Watched(p) && e.Begin? && Guarded(c, e, cap, serial, p)
    ensures Roomy(Next(c, e), cap, serial, p)
  {
    hide CountIn, Coming;
    var c' := Next(c, e);
    BeginKeepsClaims(c, e, cap, serial, p);
    if e.tx !in c.claims {
      forall m ensures CountIn(c'.rows, m, p) + Coming(c', m) <= Bound(cap, serial, m) {
        if Decided(c'.claims[e.tx], m) {
          CountWithin(c.rows, m, p, Counted);
          AtMostTwo(c', m);
        } else {
          ComesNoMore(c, c', m);
        }
      }
    }
  }

  lemma AtMostTwo(c: Cluster, m: ModelId)
    ensures Coming(c, m) <= 2
  {
  }

  lemma EndKeepsRoomy(c: Cluster, tx: TxId, cap: ModelId -> nat, serial: ModelId -> bool, p: State -> bool)
    requires Roomy(c, cap, serial, p) && tx in c.claims
    ensures Roomy(Ended(c, tx), cap, serial, p)
  {
    hide CountIn, Coming;
    var c' := Ended(c, tx);
    EndKeepsClaims(c, tx, cap, serial);
    forall m ensures Coming(c', m) <= Coming(c, m) { ComesNoMore(c, c', m); }
  }

  lemma ClaimKeepsRoomy(c: Cluster, tx: TxId, cap: ModelId -> nat, serial: ModelId -> bool, p: State -> bool)
    requires Roomy(c, cap, serial, p) && Watched(p)
    ensures Roomy(Next(c, ClaimSlot(tx)), cap, serial, p)
  {
    hide CountIn, SomeDecided;
    var c' := Next(c, ClaimSlot(tx));
    ClaimKeepsClaims(c, tx, cap, serial);
    if tx in c.claims && c.claims[tx].phase.Waiting? && c' != c {
      var k := c.claims[tx];
      assert ClaimOk(c, tx, cap, serial);
      if Seen(c, k) < k.limit {
        CountWithin(c.rows, k.model, p, Counted);
        forall m ensures CountIn(c'.rows, m, p) + Coming(c', m) <= Bound(cap, serial, m) {
          if m == k.model && k.discipline == Locked {
            if SomeDecided(c', m) { DecidedIsSerial(c', cap, serial, m); }
          } else {
            ComesNoMore(c, c', m);
          }
        }
      } else {
        EndKeepsRoomy(c, tx, cap, serial, p);
      }
    }
  }

  lemma InsertKeepsRoomy(c: Cluster, tx: TxId, cap: ModelId -> nat, serial: ModelId -> bool, p: State -> bool)
    requires Roomy(c, cap, serial, p)
    ensures Roomy(Next(c, Insert(tx)), cap, serial, p)
  {
    hide CountIn, UsedIndexes, Coming;
    var c' := Next(c, Insert(tx));
    InsertKeepsClaims(c, tx, cap, serial);
    forall m ensures Coming(c', m) <= Coming(c, m) { ComesNoMore(c, c', m); }
  }

  /** A committed row is one of those that were bound to come. */
  lemma CommitTakesOne(c: Cluster, tx: TxId, cap: ModelId -> nat, serial: ModelId -> bool, m: ModelId)
    requires ClaimsOk(c, cap, serial) && tx in c.claims && c.claims[tx].phase.Inserted? && !c.claims[tx].doomed
    ensures Coming(Next(c, Commit(tx)), m) + (if m == c.claims[tx].model then 1 else 0) <= Coming(c, m)
  {
    var c' := Next(c, Commit(tx));
    var k := c.claims[tx];
    assert ClaimOk(c, tx, cap, serial);
    if k.discipline == Serializable && m == k.model {
      assert Decided(c.claims[tx], m);
      assert !SomeDecided(c', m);
    } else if SomeDecided(c', m) {
      var t :| t in c'.claims && Decided(c'.claims[t], m);
      assert Decided(c.claims[t], m);
    }
  }

  lemma CommitKeepsClaims(c: Cluster, tx: TxId, cap: ModelId -> nat, serial: ModelId -> bool)
    requires ClaimsOk(c, cap, serial)
    ensures ClaimsOk(Next(c, Commit(tx)), cap, serial)
  {
    var c' := Next(c, Commit(tx));
    if tx in c.claims { assert ClaimOk(c, tx, cap, serial); }
    forall t | t in c'.claims ensures ClaimOk(c', t, cap, serial) { assert ClaimOk(c, t, cap, serial); }
  }

  lemma CommitKeepsRoomy(c: Cluster, tx: TxId, cap: ModelId -> nat, serial: ModelId -> bool, p: State -> bool)
    requires Roomy(c, cap, serial, p)
    ensures Roomy(Next(c, Commit(tx)), cap, serial, p)
  {
    hide CountIn, Coming, AfterCommit;
    if tx in c.claims && c.claims[tx].phase.Inserted? {
      if c.claims[tx].doomed {
        EndKeepsRoomy(c, tx, cap, serial, p);
      } else {
        var c' := Next(c, Commit(tx));
        var k := c.claims[tx];
        CommitKeepsClaims(c, tx, cap, serial);
        forall m ensures CountIn(c'.rows, m, p) + Coming(c', m) <= Bound(cap, serial, m) {
          CommitTakesOne(c, tx, cap, serial, m);
          CountAppend(c.rows, NewRow(k.model, k.phase.index), m, p);
        }
      }
    }
  }

  lemma MoveKeepsRoomy(c: Cluster, row: RowId, to: State, cap: ModelId -> nat, serial: ModelId -> bool, p: State -> bool)
    requires Roomy(c, cap, serial, p) && row < |c.rows|
    requires p(to) && !p(c.rows[row].state) ==>
      CountIn(c.rows, c.rows[row].model, p) + Coming(c, c.rows[row].model) < Bound(cap, serial, c.rows[row].model)
    ensures Roomy(c.(rows := c.rows[row := c.rows[row].(state := to)]), cap, serial, p)
  {
    hide CountIn, Coming;
    var c' := c.(rows := c.rows[row := c.rows[row].(state := to)]);
    forall m ensures CountIn(c'.rows, m, p) + Coming(c', m) <= Bound(cap, serial, m) {
      CountMove(c.rows, row, to, m, p);
      ComesNoMore(c, c', m);
    }
    forall t | t in c'.claims ensures ClaimOk(c', t, cap, serial) { assert ClaimOk(c, t, cap, serial); }
  }

  lemma SameCount(rows: seq<Row>, m: ModelId, p: State -> bool, q: State -> bool)
    requires forall s :: p(s) <==> q(s)
    ensures CountIn(rows, m, p) == CountIn(rows, m, q)
  {
    CountWithin(rows, m, p, q);
    CountWithin(rows, m, q, p);
  }

  lemma StepKeepsRoomy(c: Cluster, e: Event, cap: ModelId -> nat, serial: ModelId -> bool, p: State -> bool)
    requires Roomy(c, cap, serial, p) && Watched(p) && Guarded(c, e, cap, serial, p)
    ensures Roomy(Next(c, e), cap, serial, p)
  {
    hide CountIn, UsedIndexes, Roomy, Coming;
    match e
    case Begin(_, _, _, _, _, _) => BeginKeepsRoomy(c, e, cap, serial, p);
    case ClaimSlot(tx) => ClaimKeepsRoomy(c, tx, cap, serial, p);
    case Insert(tx) => InsertKeepsRoomy(c, tx, cap, serial, p);
    case Commit(tx) => CommitKeepsRoomy(c, tx, cap, serial, p);
    case Rollback(tx) => if tx in c.claims { EndKeepsRoomy(c, tx, cap, serial, p); }
    case Move(row, to) =>
      if row < |c.rows| && Allowed(c.rows[row].state, to) { MoveKeepsRoomy(c, row, to, cap, serial, p); }
    case StopDrained(row) =>
      if row < |c.rows| && c.rows[row].state == Draining {
        if p(Stopping) { SameCount(c.rows, c.rows[row].model, p, Counted); }
        MoveKeepsRoomy(c, row, Stopping, cap, serial, p);
      }
  }

  lemma {:induction false} RunKeepsRoomy(c: Cluster, es: seq<Event>, cap: ModelId -> nat, serial: ModelId -> bool, p: State -> bool)
    requires Roomy(c, cap, serial, p) && Watched(p) && GuardedRun(c, es, cap, serial, p)
    ensures Roomy(Run(c, es), cap, serial, p)
    decreases |es|
  {
    hide Roomy, Guarded, Next;
    if es != [] {
      StepKeepsRoomy(c, es[0], cap, serial, p);
      RunKeepsRoomy(Next(c, es[0]), es[1..], cap, serial, p);
    }
  }

  // ----- replica numbers -----

  /** No row of the model in a state of `p` has this index. */
  ghost predicate IndexFree(rows: seq<Row>, model: ModelId, index: int, p: State -> bool) {
    forall i :: 0 <= i < |rows| && rows[i].model == model && p(rows[i].state) ==> rows[i].index != index
  }

  /** Numbered rows of one model in the states `p` carry different numbers. */
  ghost predicate DistinctNumbers(rows: seq<Row>, p: State -> bool) {
    forall i, j :: 0 <= i < j < |rows| && p(rows[i].state) && p(rows[j].state) && rows[i].model == rows[j].model ==>
      rows[i].index < 0 || rows[i].index != rows[j].index
  }

  /** Numbers are distinct, and those about to be inserted are still free. */
  ghost predicate Numbered(c: Cluster, p: State -> bool) {
    && DistinctNumbers(c.rows, p)
    && (forall tx :: tx in c.claims && c.claims[tx].phase.Inserted? && c.claims[tx].numbered ==>
          IndexFree(c.rows, c.claims[tx].model, c.claims[tx].phase.index, p))
  }

  /** The number of a row that comes back is not in use. */
  ghost predicate NumberUnused(c: Cluster, row: RowId, p: State -> bool)
    requires row < |c.rows|
  {
    c.rows[row].index >= 0 ==>
      && IndexFree(c.rows, c.rows[row].model, c.rows[row].index, p)
      && forall tx :: tx in c.claims && c.claims[tx].phase.Inserted? && c.claims[tx].model == c.rows[row].model ==>
           c.claims[tx].phase.index != c.rows[row].index
  }

  /** Stops of watched rows whose number has not been given to another row. */
  ghost predicate KeepsNumber(c: Cluster, e: Event, p: State -> bool) {
    e.StopDrained? && p(Stopping) && e.row < |c.rows| && c.rows[e.row].state == Draining ==> NumberUnused(c, e.row, p)
  }

  ghost predicate NumberingRun(c: Cluster, es: seq<Event>, p: State -> bool)
    decreases |es|
  {
    es == [] || (KeepsNumber(c, es[0], p) && NumberingRun(Next(c, es[0]), es[1..], p))
  }

  lemma InsertKeepsNumbered(c: Cluster, tx: TxId, cap: ModelId -> nat, serial: ModelId -> bool, p: State -> bool)
    requires Numbered(c, p) && ClaimsOk(c, cap, serial) && Watched(p)
    ensures Numbered(Next(c, Insert(tx)), p)
  {
    hide CountIn, UsedIndexes, DistinctNumbers;
    if tx in c.claims && c.claims[tx].phase == Claimed {
      var m := c.claims[tx].model;
      forall i | 0 <= i < |c.rows| && c.rows[i].model == m && p(c.rows[i].state)
        ensures c.rows[i].index != LeastFree(UsedIndexes(c.rows, m))
      {
        CountedRowIsUsed(c.rows, m, i);
      }
    }
  }

  lemma CommitKeepsNumbered(c: Cluster, tx: TxId, cap: ModelId -> nat, serial: ModelId -> bool, p: State -> bool)
    requires Numbered(c, p) && ClaimsOk(c, cap, serial)
    ensures Numbered(Next(c, Commit(tx)), p)
  {
    var c' := Next(c, Commit(tx));
    if tx in c.claims && c.claims[tx].phase.Inserted? {
      assert ClaimOk(c, tx, cap, serial);
      forall t | t in c'.claims && c'.claims[t].phase.Inserted? && c'.claims[t].numbered
        ensures IndexFree(c'.rows, c'.claims[t].model, c'.claims[t].phase.index, p)
      {
        assert ClaimOk(c, t, cap, serial);
      }
    }
  }

  lemma MoveKeepsNumbered(c: Cluster, row: RowId, to: State, p: State -> bool)
    requires Numbered(c, p) && row < |c.rows| && (p(to) && !p(c.rows[row].state) ==> NumberUnused(c, row, p))
    requires forall tx :: tx in c.claims && c.claims[tx].phase.Inserted? && c.claims[tx].numbered ==> c.claims[tx].phase.index >= 0
    ensures Numbered(c.(rows := c.rows[row := c.rows[row].(state := to)]), p)
  {
  }

  lemma StepKeepsNumbered(c: Cluster, e: Event, cap: ModelId -> nat, serial: ModelId -> bool, p: State -> bool)
    requires Numbered(c, p) && ClaimsOk(c, cap, serial) && Watched(p) && KeepsNumber(c, e, p)
    ensures Numbered(Next(c, e), p)
  {
    hide CountIn, UsedIndexes, DistinctNumbers, NumberUnused;
    match e
    case Insert(tx) => InsertKeepsNumbered(c, tx, cap, serial, p);
    case Commit(tx) => CommitKeepsNumbered(c, tx, cap, serial, p);
    case Move(row, to) =>
      if row < |c.rows| && Allowed(c.rows[row].state, to) {
        NumbersNonNegative(c, cap, serial);
        MoveKeepsNumbered(c, row, to, p);
      }
    case StopDrained(row) =>
      if row < |c.rows| && c.rows[row].state == Draining {
        NumbersNonNegative(c, cap, serial);
        MoveKeepsNumbered(c, row, Stopping, p);
      }
    case Begin(_, _, _, _, _, _) =>
    case ClaimSlot(_) =>
    case Rollback(_) =>
  }

  lemma NumbersNonNegative(c: Cluster, cap: ModelId -> nat, serial: ModelId -> bool)
    requires ClaimsOk(c, cap, serial)
    ensures forall tx :: tx in c.claims && c.claims[tx].phase.Inserted? && c.claims[tx].numbered ==> c.claims[tx].phase.index >= 0
  {
    forall tx | tx in c.claims ensures c.claims[tx].phase.Inserted? && c.claims[tx].numbered ==> c.claims[tx].phase.index >= 0 {
      assert ClaimOk(c, tx, cap, serial);
    }
  }

  lemma {:induction false} RunKeepsNumbered(c: Cluster, es: seq<Event>, cap: ModelId -> nat, serial: ModelId -> bool, p: State -> bool)
    requires Numbered(c, p) && Roomy(c, cap, serial, p) && Watched(p)
    requires GuardedRun(c, es, cap, serial, p) && NumberingRun(c, es, p)
    ensures Numbered(Run(c, es), p)
    decreases |es|
  {
    if es != [] {
      StepKeepsNumbered(c, es[0], cap, serial, p);
      StepKeepsRoomy(c, es[0], cap, serial, p);
      hide Roomy, Numbered, Guarded, KeepsNumber, Next;
      RunKeepsNumbered(Next(c, es[0]), es[1..], cap, serial, p);
    }
  }

  lemma StepKeepsNumbersWithin(c: Cluster, e: Event, cap: ModelId -> nat, serial: ModelId -> bool)
    requires NumbersWithin(c, cap, serial) && Roomy(c, cap, serial, Counted)
    ensures NumbersWithin(Next(c, e), cap, serial)
  {
    hide CountIn, UsedIndexes, SomeDecided;
    if e.Insert? && e.tx in c.claims && c.claims[e.tx].phase == Claimed {
      IndexesWithinCount(c.rows, c.claims[e.tx].model);
      assert ClaimOk(c, e.tx, cap, serial);
      assert c.claims[e.tx].numbered ==> Granted(c, c.claims[e.tx].model);
    }
  }

  lemma {:induction false} RunKeepsNumbersWithin(c: Cluster, es: seq<Event>, cap: ModelId -> nat, serial: ModelId -> bool)
    requires NumbersWithin(c, cap, serial) && Roomy(c, cap, serial, Counted) && GuardedRun(c, es, cap, serial, Counted)
    ensures NumbersWithin(Run(c, es), cap, serial)
    decreases |es|
  {
    if es != [] {
      StepKeepsNumbersWithin(c, es[0], cap, serial);
      StepKeepsRoomy(c, es[0], cap, serial, Counted);
      hide Roomy, NumbersWithin, Guarded, Next;
      RunKeepsNumbersWithin(Next(c, es[0]), es[1..], cap, serial);
    }
  }

  // ----- what it means -----

  /** A cluster with no transaction open. */
  function Quiet(rows: seq<Row>): Cluster { Cluster(rows, map[], map[]) }

  lemma EmptyIsRoomy(cap: ModelId -> nat, serial: ModelId -> bool, p: State -> bool)
    ensures Roomy(Quiet([]), cap, serial, p) && Numbered(Quiet([]), p) && NumbersWithin(Quiet([]), cap, serial)
  {
  }

  /** Claimers of every kind, interleaved with everything the reconciler and the
      other components do, never push the live rows of a model past its capacity,
      or past one more if it has serializable claimers, however many of them; and
      live rows never share a number. */
  lemma LiveRowsWithinCapacity(es: seq<Event>, cap: ModelId -> nat, serial: ModelId -> bool, m: ModelId)
    requires GuardedRun(Quiet([]), es, cap, serial, Live)
    ensures CountIn(Run(Quiet([]), es).rows, m, Live) <= Bound(cap, serial, m)
    ensures DistinctNumbers(Run(Quiet([]), es).rows, Live)
  {
    hide Run, GuardedRun, CountIn;
    EmptyIsRoomy(cap, serial, Live);
    RunKeepsRoomy(Quiet([]), es, cap, serial, Live);
    NumbersAlwaysKept(Quiet([]), es);
    RunKeepsNumbered(Quiet([]), es, cap, serial, Live);
  }

  lemma {:induction false} NumbersAlwaysKept(c: Cluster, es: seq<Event>)
    ensures NumberingRun(c, es, Live)
    decreases |es|
  {
    hide Next;
    if es != [] {
      NumbersAlwaysKept(Next(c, es[0]), es[1..]);
    }
  }

  /** All counted rows, stopping ones included, keep to the same bound as long as
      every stop of a drained row leaves room for the rows that are bound to come; and
      every number is below the bound. */
  lemma CountedRowsWithinCapacity(es: seq<Event>, cap: ModelId -> nat, serial: ModelId -> bool, m: ModelId)
    requires GuardedRun(Quiet([]), es, cap, serial, Counted)
    ensures var rows := Run(Quiet([]), es).rows;
      && CountedRows(rows, m) <= Bound(cap, serial, m)
      && (forall i :: 0 <= i < |rows| ==> rows[i].index < Bound(cap, serial, rows[i].model))
  {
    hide Run, GuardedRun, CountIn;
    EmptyIsRoomy(cap, serial, Counted);
    RunKeepsRoomy(Quiet([]), es, cap, serial, Counted);
    RunKeepsNumbersWithin(Quiet([]), es, cap, serial);
  }

  /** And they never share a number, if no row is stopped whose number has been
      given away meanwhile. */
  lemma CountedNumbersDistinct(es: seq<Event>, cap: ModelId -> nat, serial: ModelId -> bool)
    requires GuardedRun(Quiet([]), es, cap, serial, Counted) && NumberingRun(Quiet([]), es, Counted)
    ensures DistinctNumbers(Run(Quiet([]), es).rows, Counted)
  {
    hide Run, GuardedRun, NumberingRun;
    EmptyIsRoomy(cap, serial, Counted);
    RunKeepsNumbered(Quiet([]), es, cap, serial, Counted);
  }

  // ----- what serves -----

  predicate InPool(row: Row, m: ModelId) {
    row.model == m && (row.state == Ready || row.state == Active || row.state == Warm || row.state == Idle)
  }

  /** The rows of a model that are in the routing pool. */
  ghost function ServingRows(rows: seq<Row>, m: ModelId): set<nat> {
    set i: nat | i < |rows| && InPool(rows[i], m)
  }

  lemma OneMoreServes(rows: seq<Row>, row: Row, m: ModelId)
    ensures |ServingRows(rows + [row], m)| <= |ServingRows(rows, m)| + (if InPool(row, m) then 1 else 0)
  {
    hide InPool;
    SubsetIsSmaller(ServingRows(rows + [row], m), ServingRows(rows, m) + (if InPool(row, m) then {|rows|} else {}));
  }

  lemma {:induction false} ServingWithinLive(rows: seq<Row>, m: ModelId)
    ensures |ServingRows(rows, m)| <= CountIn(rows, m, Live)
  {
    if rows == [] {
      assert ServingRows(rows, m) == {};
    } else {
      var n := |rows| - 1;
      assert rows == rows[..n] + [rows[n]];
      StateClasses(rows[n].state);
      ServingWithinLive(rows[..n], m);
      OneMoreServes(rows[..n], rows[n], m);
      hide ServingRows;
    }
  }

  /** Every claim asks for its model's own replicas and surge, takes the lock, and is
      serializable only where `serial` says so. */
  predicate FollowsSpec(e: Event, desired: ModelId -> nat, surge: ModelId -> int, serial: ModelId -> bool) {
    e.Begin? ==>
      && e.desired == desired(e.model) && e.surge == surge(e.model) && e.discipline != Unguarded
      && (e.discipline == Serializable ==> !e.numbered && serial(e.model))
  }

  lemma {:induction false} SpecIsGuarded(
      c: Cluster, es: seq<Event>, desired: ModelId -> nat, surge: ModelId -> int, cap: ModelId -> nat, serial: ModelId -> bool)
    requires forall k :: 0 <= k < |es| ==> FollowsSpec(es[k], desired, surge, serial)
    requires forall m :: cap(m) == desired(m) + (if surge(m) > 1 then surge(m) else 1)
    ensures GuardedRun(c, es, cap, serial, Live)
    decreases |es|
  {
    hide Next;
    if es != [] {
      SpecIsGuarded(Next(c, es[0]), es[1..], desired, surge, cap, serial);
    }
  }

  /** Whatever the claimers, the reconciler and the other components do: a model never
      has more rows in the routing pool than its desired replicas and its surge, of
      at least one, allow, and one more if it has serializable claimers; and no two
      of them share a number. */
  lemma ServingRowsWithinSpec(
      es: seq<Event>, desired: ModelId -> nat, surge: ModelId -> int, serial: ModelId -> bool, m: ModelId, i: nat, j: nat)
    requires forall k :: 0 <= k < |es| ==> FollowsSpec(es[k], desired, surge, serial)
    ensures var rows := Run(Quiet([]), es).rows;
      && |ServingRows(rows, m)| <= desired(m) + (if surge(m) > 1 then surge(m) else 1) + (if serial(m) then 1 else 0)
      && (i in ServingRows(rows, m) && j in ServingRows(rows, m) && i != j && rows[i].index >= 0 ==>
            rows[i].index != rows[j].index)
  {
    var cap: ModelId -> nat := n => desired(n) + (if surge(n) > 1 then surge(n) else 1);
    var rows := Run(Quiet([]), es).rows;
    SpecIsGuarded(Quiet([]), es, desired, surge, cap, serial);
    LiveRowsWithinCapacity(es, cap, serial, m);
    ServingWithinLive(rows, m);
    hide Run, CountIn, GuardedRun;
    if i < |rows| { StateClasses(rows[i].state); }
    if j < |rows| { StateClasses(rows[j].state); }
  }
}
