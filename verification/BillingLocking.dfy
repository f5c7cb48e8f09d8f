/** Concurrent transactions that read an account row FOR UPDATE and write later:
    reservations of both types and unplanned debits.  The row lock is held in
    between, and every interleaving has the effect of whole transactions. */
module BillingLocking {
  import opened Common
  import opened BillingBooks
  import opened BillingInvariant
  import opened BillingSafety
  import opened BillingTheorems

  type TxId = nat

  datatype RowKey = WalletKey(account: AccountId) | CreditKey(account: AccountId)
  datatype AccountRow = WalletRow(wallet: Wallet) | CreditRow(credit: Credit)

  /** A transaction between its locked read and its writes, with the row it read. */
  datatype Reading = Reading(event: Event, seen: AccountRow)

  datatype System = System(books: Books, open: map<TxId, Reading>)

  datatype Step =
    | Read(tx: TxId, event: Event)
    | Write(tx: TxId)
    | Abort(tx: TxId)
    | Whole(event: Event)

  predicate HasRow(b: Books, key: RowKey) {
    match key
    case WalletKey(a) => a in b.wallets
    case CreditKey(a) => a in b.credits
  }

  function RowAt(b: Books, key: RowKey): AccountRow
    requires HasRow(b, key)
  {
    match key
    case WalletKey(a) => WalletRow(b.wallets[a])
    case CreditKey(a) => CreditRow(b.credits[a])
  }

  function KeyOf(kind: AccountType, a: AccountId): Option<RowKey> {
    match kind
    case Prepaid => Some(WalletKey(a))
    case Postpaid => Some(CreditKey(a))
    case Unrecognised => None
  }

  /** A late settlement that goes for the wallet: the others only mark the usage. */
  predicate DebitsLate(b: Books, input: SettleInput, policy: RecoveryPolicy) {
    && policy == BestEffort && input.kind == Prepaid
    && input.auth < |b.auths| && b.auths[input.auth].status != Committed
  }

  /** The account row a whole transaction writes, if any. */
  function Touches(b: Books, e: Event): Option<RowKey> {
    match e
    case DoReserve(input) => KeyOf(input.kind, input.account)
    case DoSettle(input, policy, fault) =>
      if (!fault && IsActive(b, input.auth)) || DebitsLate(b, input, policy) then KeyOf(input.kind, input.account) else None
    case DoRelease(auth, _, _) => if IsActive(b, auth) then KeyOf(b.auths[auth].kind, b.auths[auth].account) else None
    case DoExpire(auth, _) => if IsActive(b, auth) then KeyOf(b.auths[auth].kind, b.auths[auth].account) else None
    case DoSweepUsage(_, _) => None
  }

  predicate Returned(b: Books, auth: nat) {
    auth < |b.auths| && (b.auths[auth].status == Released || b.auths[auth].status == Expired)
  }

  /** Transactions that begin with a locked read, as far as that read: a
      reservation on an active account, or the debit of a returned authorization. */
  predicate Reads(b: Books, e: Event) {
    && Touches(b, e).Some? && HasRow(b, Touches(b, e).value)
    && (|| (e.DoReserve? && Lockable(b, e.reserve.account))
        || (e.DoSettle? && e.policy == BestEffort && e.settle.kind == Prepaid && Returned(b, e.settle.auth)))
  }

  /** The rest of such a transaction. */
  function Completed(b: Books, r: Reading): Books {
    match (r.event, r.seen)
    case (DoReserve(input), WalletRow(w)) => ReservePrepaidAfterRead(b, input, w).0
    case (DoReserve(input), CreditRow(c)) => ReservePostpaidAfterRead(b, input, c).0
    case (DoSettle(input, _, _), WalletRow(w)) => DebitAfterRead(b, input, w).0
    case _ => b
  }

  predicate Locked(s: System, key: RowKey) {
    exists t :: t in s.open && Touches(s.books, s.open[t].event) == Some(key)
  }

  /** A step that must wait for a row lock leaves the system as it is. */
  function Next(s: System, step: Step): System {
    match step
    case Read(tx, e) =>
      if tx in s.open || !Reads(s.books, e) || Locked(s, Touches(s.books, e).value) then s
      else s.(open := s.open[tx := Reading(e, RowAt(s.books, Touches(s.books, e).value))])
    case Write(tx) =>
      if tx !in s.open then s else System(Completed(s.books, s.open[tx]), s.open - {tx})
    case Abort(tx) => s.(open := s.open - {tx})
    case Whole(e) =>
      if Touches(s.books, e).Some? && Locked(s, Touches(s.books, e).value) then s
      else s.(books := Apply(s.books, e))
  }

  function RunSteps(s: System, steps: seq<Step>): System
    decreases |steps|
  {
    if steps == [] then s else RunSteps(Next(s, steps[0]), steps[1..])
  }

  /** The whole transaction, if any, that a step completes. */
  function Completes(s: System, step: Step): seq<Event> {
    match step
    case Write(tx) => if tx in s.open then [s.open[tx].event] else []
    case Whole(e) => if Touches(s.books, e).Some? && Locked(s, Touches(s.books, e).value) then [] else [e]
    case _ => []
  }

  function Linearised(s: System, steps: seq<Step>): seq<Event>
    decreases |steps|
  {
    if steps == [] then [] else Completes(s, steps[0]) + Linearised(Next(s, steps[0]), steps[1..])
  }

  /** Whoever holds a row lock has read the row's current contents. */
  predicate UpToDate(b: Books, r: Reading) {
    Reads(b, r.event) && r.seen == RowAt(b, Touches(b, r.event).value)
  }

  ghost predicate LockSafe(s: System) {
    && (forall t :: t in s.open ==> UpToDate(s.books, s.open[t]))
    && (forall t, u :: t in s.open && u in s.open && t != u ==>
          Touches(s.books, s.open[t].event) != Touches(s.books, s.open[u].event))
  }

  /** A transaction leaves every account row alone but the one it touches. */
  lemma ApplyTouchesOne(b: Books, e: Event, key: RowKey)
    requires HasRow(b, key) && Touches(b, e) != Some(key)
    ensures HasRow(Apply(b, e), key) && RowAt(Apply(b, e), key) == RowAt(b, key)
    ensures Apply(b, e).accounts == b.accounts
  {
    hide UsageTaken, DebitExists, ReleaseExists, SettledExists, CreditReleaseExists;
    hide Marked, Finalised, MarkedDisputed, WalletPosting, CreditPosting;
  }

  /** A transaction on another row does not disturb one that holds its lock. */
  lemma StaysUpToDate(b: Books, r: Reading, e: Event)
    requires UpToDate(b, r) && Touches(b, e) != Touches(b, r.event)
    ensures UpToDate(Apply(b, e), r) && Touches(Apply(b, e), r.event) == Touches(b, r.event)
  {
    ApplyTouchesOne(b, e, Touches(b, r.event).value);
    StepContinues(b, e);
    hide Apply;
  }

  /** With the row unchanged since the read, the rest is the whole transaction. */
  lemma CompletedIsWhole(b: Books, r: Reading)
    requires UpToDate(b, r)
    ensures Completed(b, r) == Apply(b, r.event)
  {
    hide ReservePrepaidAfterRead, ReservePostpaidAfterRead, DebitAfterRead;
  }

  lemma OthersStaySafe(s: System, e: Event, open: map<TxId, Reading>)
    requires LockSafe(s) && (forall t :: t in open ==> t in s.open && open[t] == s.open[t])
    requires forall t :: t in open ==> Touches(s.books, e) != Touches(s.books, open[t].event)
    ensures LockSafe(System(Apply(s.books, e), open))
  {
    hide Apply, Touches, Reads;
    forall t | t in open
      ensures UpToDate(Apply(s.books, e), open[t]) && Touches(Apply(s.books, e), open[t].event) == Touches(s.books, open[t].event)
    {
      StaysUpToDate(s.books, open[t], e);
    }
  }

  lemma NextKeepsLockSafe(s: System, step: Step)
    requires LockSafe(s)
    ensures LockSafe(Next(s, step))
    ensures Run(s.books, Completes(s, step)) == Next(s, step).books
  {
    hide Apply, Completed;
    match step
    case Read(tx, e) =>
    case Abort(tx) =>
    case Write(tx) =>
      if tx in s.open {
        CompletedIsWhole(s.books, s.open[tx]);
        OthersStaySafe(s, s.open[tx].event, s.open - {tx});
        RunsOne(s.books, s.open[tx].event);
      }
    case Whole(e) =>
      if Completes(s, step) != [] {
        OthersStaySafe(s, e, s.open);
        RunsOne(s.books, e);
      }
  }

  /** Row locking makes reservations atomic: the books after any interleaving are
      those of the completed transactions run one after another. */
  lemma {:induction false} LockingLinearises(s: System, steps: seq<Step>)
    requires LockSafe(s)
    ensures RunSteps(s, steps).books == Run(s.books, Linearised(s, steps))
    ensures LockSafe(RunSteps(s, steps))
    decreases |steps|
  {
    if steps != [] {
      var s' := Next(s, steps[0]);
      NextKeepsLockSafe(s, steps[0]);
      LockingLinearises(s', steps[1..]);
      RunConcat(s.books, Completes(s, steps[0]), Linearised(s', steps[1..]));
    }
  }

  /** So every interleaving of locked reservations with the other transactions is solvent. */
  lemma InterleavingsStaySound(s: System, steps: seq<Step>, opening: map<AccountId, real>)
    requires LockSafe(s) && Sound(s.books, opening)
    requires FaithfulRun(s.books, Linearised(s, steps))
    ensures Sound(RunSteps(s, steps).books, opening)
  {
    LockingLinearises(s, steps);
    RunKeepsSound(s.books, Linearised(s, steps), opening);
  }

  // ----- nobody waits for nothing -----

  /** A transaction whose row nobody holds goes ahead at once.  A reservation or debit
      that reads and then writes undisturbed has the whole effect, one that is
      aborted has none, and both free the row. */
  lemma FreeRowsAreNotWaitedFor(s: System, tx: TxId, e: Event)
    requires tx !in s.open
    requires forall t :: t in s.open ==> Touches(s.books, s.open[t].event) != Touches(s.books, e) || Touches(s.books, e) == None
    ensures Next(s, Whole(e)) == s.(books := Apply(s.books, e))
    ensures Reads(s.books, e) ==>
      && tx in Next(s, Read(tx, e)).open && Next(Next(s, Read(tx, e)), Write(tx)) == s.(books := Apply(s.books, e))
      && Next(Next(s, Read(tx, e)), Abort(tx)) == s
  {
    hide Apply, Completed;
    if Reads(s.books, e) {
      var s1 := Next(s, Read(tx, e));
      assert s1.open == s.open[tx := Reading(e, RowAt(s.books, Touches(s.books, e).value))];
      CompletedIsWhole(s.books, s1.open[tx]);
      assert s1.open - {tx} == s.open;
    }
  }

  // ----- without the lock -----

  /** The same transactions with a plain read: nobody waits for anybody. */
  function NextUnlocked(s: System, step: Step): System {
    match step
    case Read(tx, e) =>
      if !Reads(s.books, e) then s
      else s.(open := s.open[tx := Reading(e, RowAt(s.books, Touches(s.books, e).value))])
    case Write(tx) =>
      if tx !in s.open then s else System(Completed(s.books, s.open[tx]), s.open - {tx})
    case Abort(tx) => s.(open := s.open - {tx})
    case Whole(e) => s.(books := Apply(s.books, e))
  }

  predicate CanReserve(b: Books, input: ReserveInput) {
    && input.kind == Prepaid && input.account in b.wallets && Lockable(b, input.account)
    && input.usage in b.usages && !UsageTaken(b.auths, input.usage)
    && 0.0 <= input.estimate <= b.wallets[input.account].balance - b.wallets[input.account].reserved
  }

  /** Two plain reads that both see enough money: the second write asks for a row
      that only the wallet table's check stands against, exactly when the two
      estimates together do not fit. */
  lemma UnlockedReadsOverdraw(b: Books, first: ReserveInput, second: ReserveInput)
    requires CanReserve(b, first) && CanReserve(b, second)
    requires first.account == second.account && first.usage != second.usage && AllowedRow(b.wallets[first.account])
    ensures var s := NextUnlocked(NextUnlocked(System(b, map[]), Read(0, DoReserve(first))), Read(1, DoReserve(second)));
      var w := b.wallets[first.account];
      var w' := NextUnlocked(NextUnlocked(s, Write(0)), Write(1)).books.wallets;
      first.account in w' && (!AllowedRow(w'[first.account]) <==> first.estimate + second.estimate > w.balance - w.reserved)
  {
    var s := NextUnlocked(NextUnlocked(System(b, map[]), Read(0, DoReserve(first))), Read(1, DoReserve(second)));
    var s1 := NextUnlocked(s, Write(0));
    assert s1.books.auths == b.auths + [NewAuthorization(first)];
    assert !UsageTaken(s1.books.auths, second.usage);
    assert s1.open[1] == Reading(DoReserve(second), WalletRow(b.wallets[first.account]));
  }
}
