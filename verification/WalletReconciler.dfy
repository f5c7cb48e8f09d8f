/** The hourly wallet reconciliation against the ledger and the authorizations. */
module WalletReconciler {
  import opened Common
  import opened BillingBooks
  import opened BillingInvariant
  import opened BillingSafety
  import opened BillingTheorems

  const DRIFT_THRESHOLD := 0.000001

  function Abs(x: real): real { if x < 0.0 then -x else x }

  function LedgerBalance(ledger: seq<WalletEntry>, a: AccountId): real {
    Sum(ledger, Posted(Topup, a)) - Sum(ledger, Posted(Debit, a)) - Sum(ledger, Posted(UnplannedDebit, a))
  }

  /** What an authorization of either type still holds on account `a`: the
      reconciler's query does not look at the account type. */
  function HeldAny(a: AccountId): Authorization -> real {
    (x: Authorization) => if x.account == a && x.status == Active then x.estimate else 0.0
  }

  predicate DriftSeen(listed: Wallet, ledger: real, active: real) {
    Abs(ledger - listed.balance) >= DRIFT_THRESHOLD || Abs(active - listed.reserved) >= DRIFT_THRESHOLD
  }

  /** The locked repair.  The ledger is summed again under the lock, `active` is
      the sum that was taken before; the wallet table's checks may refuse the row. */
  function Repair(b: Books, a: AccountId, active: real): (Books, Outcome) {
    if a !in b.wallets then (b, Err(LookupFailed))
    else
      var repaired := Wallet(LedgerBalance(b.walletLedger, a), active);
      var drift := repaired.balance - b.wallets[a].balance;
      if !AllowedRow(repaired) then (b, Err(ConstraintViolation))
      else
        (b.(wallets := b.wallets[a := repaired],
            walletLedger := if Abs(drift) < DRIFT_THRESHOLD then b.walletLedger
                            else b.walletLedger + [WalletEntry(a, Adjustment, Abs(drift), None, None)]),
         Ok(()))
  }

  /** One reconciliation of wallet `a`.  `listed` is the row from the opening
      query, `ledger` and `active` the sums of the two queries that follow, and
      `b` the books when the row lock is finally taken. */
  function Reconcile(b: Books, a: AccountId, listed: Wallet, ledger: real, active: real): (Books, Outcome) {
    if DriftSeen(listed, ledger, active) then Repair(b, a, active) else (b, Ok(()))
  }

  lemma {:induction false} HeldSplits(auths: seq<Authorization>, a: AccountId)
    requires forall i :: 0 <= i < |auths| ==> auths[i].kind == Prepaid || auths[i].kind == Postpaid
    ensures Sum(auths, HeldAny(a)) == Sum(auths, Held(Prepaid, a)) + Sum(auths, Held(Postpaid, a))
  {
    if auths != [] {
      HeldSplits(auths[..|auths| - 1], a);
    }
  }

  lemma HoldsAreNonNegative(b: Books, opening: map<AccountId, real>, a: AccountId)
    requires Sound(b, opening)
    ensures forall k :: Sum(b.auths, Held(k, a)) >= 0.0
  {
    hide Sum;
    forall k ensures Sum(b.auths, Held(k, a)) >= 0.0 {
      forall i | 0 <= i < |b.auths| ensures Held(k, a)(b.auths[i]) >= 0.0 { assert AuthSound(b, i); }
      SumNonNegative(b.auths, Held(k, a));
    }
  }

  // ----- with nothing beside it -----

  /** The reconciliation of sound books when nothing happens meanwhile. */
  function ReconcileAlone(b: Books, a: AccountId): (Books, Outcome)
    requires a in b.wallets
  {
    Reconcile(b, a, b.wallets[a], LedgerBalance(b.walletLedger, a), Sum(b.auths, HeldAny(a)))
  }

  /** There is nothing to repair exactly when the ledger explains the whole
      balance and the account holds no postpaid reservation.  Otherwise the wallet
      table refuses the repair, and the books stay as they are, exactly when the
      explained part of the balance does not cover the holds. */
  lemma LeavesSoundBooksAloneIff(b: Books, opening: map<AccountId, real>, a: AccountId)
    requires Sound(b, opening) && a in b.wallets
    ensures var postpaid := Sum(b.auths, Held(Postpaid, a));
      var explained := -0.000001 < opening[a] < 0.000001 && postpaid < 0.000001;
      var refused := b.wallets[a].balance - opening[a] < b.wallets[a].reserved + postpaid;
      && (ReconcileAlone(b, a).0 == b <==> explained || refused)
      && (ReconcileAlone(b, a).1 == Err(ConstraintViolation) <==> !explained && refused)
  {
    hide Sum;
    HeldSplits(b.auths, a);
    assert WalletSound(b, opening, a);
    HoldsAreNonNegative(b, opening, a);
    var r := ReconcileAlone(b, a).0;
    assert r != b ==> r.wallets[a] != b.wallets[a];
  }

  // ----- balances that no top-up explains -----

  ghost predicate OnlyCharges(b: Books) {
    forall k :: 0 <= k < |b.walletLedger| ==> b.walletLedger[k].entryType != Topup && b.walletLedger[k].amount >= 0.0
  }

  lemma SettleOnlyCharges(b: Books, input: SettleInput, policy: RecoveryPolicy, fault: bool)
    requires OnlyCharges(b)
    ensures OnlyCharges(Settle(b, input, policy, fault).0)
  {
    hide DebitExists, ReleaseExists, SettledExists, CreditReleaseExists, Finalised, MarkedDisputed, CreditPosting;
  }

  lemma StepOnlyCharges(b: Books, e: Event, opening: map<AccountId, real>)
    requires OnlyCharges(b) && Sound(b, opening)
    ensures OnlyCharges(Apply(b, e))
  {
    hide Sum, Settle, UsageTaken, ReleaseExists, CreditReleaseExists, Marked, WalletSound, CreditSound, Linked;
    if e.DoSettle? {
      SettleOnlyCharges(b, e.settle, e.policy, e.fault);
    } else if (e.DoRelease? || e.DoExpire?) && IsActive(b, e.auth) {
      assert AuthSound(b, e.auth);
    }
  }

  lemma {:induction false} RunOnlyCharges(b: Books, es: seq<Event>, opening: map<AccountId, real>)
    requires OnlyCharges(b) && Sound(b, opening) && FaithfulRun(b, es)
    ensures OnlyCharges(Run(b, es))
    decreases |es|
  {
    hide OnlyCharges, Sound, Apply;
    if es != [] {
      StepOnlyCharges(b, es[0], opening);
      StepKeepsSound(b, es[0], opening);
      RunOnlyCharges(Apply(b, es[0]), es[1..], opening);
    }
  }

  /** When the opening balance is in no ledger entry, a repair can only wipe it
      out: after any run a repair of a drifting wallet commits exactly when the
      account was never charged and holds nothing, and then it sets the balance
      to zero; otherwise the wallet table refuses it. */
  lemma UnexplainedBalanceIsWiped(b: Books, es: seq<Event>, a: AccountId)
    requires Opening(b) && b.walletLedger == [] && FaithfulRun(b, es) && a in Run(b, es).wallets && a in b.wallets
    requires b.wallets[a].balance >= DRIFT_THRESHOLD
    ensures var r := Run(b, es); var (r', outcome) := ReconcileAlone(r, a);
      var untouched := LedgerBalance(r.walletLedger, a) == 0.0 && Sum(r.auths, HeldAny(a)) == 0.0;
      && (untouched ==> outcome == Ok(()) && r'.wallets[a] == Wallet(0.0, 0.0) && r.wallets[a].balance == b.wallets[a].balance)
      && (!untouched ==> outcome == Err(ConstraintViolation) && r' == r)
  {
    hide Sum;
    var opening := OpeningBalances(b);
    var r := Run(b, es);
    OpeningIsSound(b);
    RunKeepsSound(b, es, opening);
    RunOnlyCharges(b, es, opening);
    hide Run;
    assert Sum(b.walletLedger, Posted(Topup, a)) == 0.0 by { SumZero(b.walletLedger, Posted(Topup, a)); }
    assert WalletSound(r, opening, a);
    assert LedgerBalance(r.walletLedger, a) <= 0.0 by { NothingButCharges(r, a); }
    assert LedgerBalance(r.walletLedger, a) == r.wallets[a].balance - opening[a];
    HeldSplits(r.auths, a);
    HoldsAreNonNegative(r, opening, a);
    hide OnlyCharges, Sound, WalletSound, LedgerBalance;
  }

  lemma NothingButCharges(b: Books, a: AccountId)
    requires OnlyCharges(b)
    ensures LedgerBalance(b.walletLedger, a) <= 0.0
  {
    SumZero(b.walletLedger, Posted(Topup, a));
    SumNonNegative(b.walletLedger, Posted(Debit, a));
    SumNonNegative(b.walletLedger, Posted(UnplannedDebit, a));
  }

  // ----- with everything else going on -----

  /** The four reads of one reconciliation at four points of a run: the wallet is
      listed, then its ledger summed, then its authorizations, then its row locked. */
  datatype Sweep = Sweep(start: Books, toLedger: seq<Event>, toActive: seq<Event>, toLock: seq<Event>) {
    function AtLedger(): Books { Run(start, toLedger) }
    function AtActive(): Books { Run(AtLedger(), toActive) }
    function AtLock(): Books { Run(AtActive(), toLock) }

    predicate AllFaithful() {
      FaithfulRun(start, toLedger) && FaithfulRun(AtLedger(), toActive) && FaithfulRun(AtActive(), toLock)
    }

    predicate Drifts(a: AccountId)
      requires a in start.wallets
    {
      DriftSeen(start.wallets[a], LedgerBalance(AtLedger().walletLedger, a), Sum(AtActive().auths, HeldAny(a)))
    }

    function Result(a: AccountId): (Books, Outcome)
      requires a in start.wallets
    {
      Reconcile(AtLock(), a, start.wallets[a], LedgerBalance(AtLedger().walletLedger, a), Sum(AtActive().auths, HeldAny(a)))
    }
  }

  /** An accepted repair sets the balance to what the ledger explains, and leaves an
      adjustment entry of exactly the difference, unless that is negligible. */
  lemma RepairIsAudited(b: Books, a: AccountId, active: real)
    requires Repair(b, a, active).1 == Ok(())
    ensures a in b.wallets && a in Repair(b, a, active).0.wallets
    ensures var r := Repair(b, a, active).0;
      var change := r.wallets[a].balance - b.wallets[a].balance;
      && r.wallets[a].balance == LedgerBalance(b.walletLedger, a)
      && (r.walletLedger != b.walletLedger <==> change >= DRIFT_THRESHOLD || -change >= DRIFT_THRESHOLD)
      && (r.walletLedger != b.walletLedger ==>
            |r.walletLedger| == |b.walletLedger| + 1 && r.walletLedger[..|b.walletLedger|] == b.walletLedger
            && r.walletLedger[|b.walletLedger|].entryType == Adjustment && r.walletLedger[|b.walletLedger|].account == a
            && r.walletLedger[|b.walletLedger|].amount == (if change >= 0.0 then change else -change))
  {
    hide Sum;
    var drift := LedgerBalance(b.walletLedger, a) - b.wallets[a].balance;
    assert |b.walletLedger + [WalletEntry(a, Adjustment, Abs(drift), None, None)]| == |b.walletLedger| + 1;
  }

  /** An accepted repair rewrites one wallet row and moves no ledger total. */
  lemma RepairEffect(b: Books, a: AccountId, active: real)
    requires Repair(b, a, active).1 == Ok(())
    ensures var r := Repair(b, a, active).0;
      && r == b.(wallets := r.wallets, walletLedger := r.walletLedger) && a in b.wallets
      && r.wallets == b.wallets[a := Wallet(LedgerBalance(b.walletLedger, a), active)]
      && 0.0 <= active <= LedgerBalance(b.walletLedger, a)
      && b.walletLedger <= r.walletLedger
      && (forall k :: |b.walletLedger| <= k < |r.walletLedger| ==>
            r.walletLedger[k].auth == None && r.walletLedger[k].entryType == Adjustment)
      && (forall k, n :: k != Adjustment ==> Sum(r.walletLedger, Posted(k, n)) == Sum(b.walletLedger, Posted(k, n)))
      && (forall k, i :: k != Adjustment ==> Sum(r.walletLedger, PostedFor(k, i)) == Sum(b.walletLedger, PostedFor(k, i)))
  {
    hide Sum;
    var drift := LedgerBalance(b.walletLedger, a) - b.wallets[a].balance;
    EntryPosted(b.walletLedger, WalletEntry(a, Adjustment, Abs(drift), None, None));
  }

  lemma RepairKeepsSound(b: Books, a: AccountId, active: real, opening: map<AccountId, real>)
    requires Sound(b, opening) && Repair(b, a, active).1 == Ok(()) && active == Sum(b.auths, Held(Prepaid, a))
    ensures Sound(Repair(b, a, active).0, opening[a := 0.0])
  {
    hide Sum;
    var r := Repair(b, a, active).0;
    RepairEffect(b, a, active);
    hide Repair;
    assert forall n :: n in r.wallets ==> WalletSound(r, opening[a := 0.0], n) by {
      forall n | n in r.wallets ensures WalletSound(r, opening[a := 0.0], n) { assert WalletSound(b, opening, n); }
    }
    assert forall n :: n in r.credits ==> CreditSound(r, n) by { CreditsKept(b, r); }
    assert forall n :: 0 <= n < |r.auths| ==> AuthSound(r, n) by {
      forall n | 0 <= n < |r.auths| ensures AuthSound(r, n) { assert AuthSound(b, n); }
    }
    hide WalletSound, CreditSound, AuthSound;
    UnchargedKeepsLinked(b, r);
  }

  /** A repair that the table accepts leaves the books sound, with the ledger now
      explaining the whole balance, exactly when the sum it writes is what the
      prepaid authorizations hold at the lock. */
  lemma RepairKeepsSoundIff(b: Books, a: AccountId, active: real, opening: map<AccountId, real>)
    requires Sound(b, opening) && Repair(b, a, active).1 == Ok(())
    ensures var r := Repair(b, a, active).0;
      && r.auths == b.auths && a in r.wallets && r.wallets[a].reserved == active
      && (Sound(r, opening[a := 0.0]) <==> active == Sum(b.auths, Held(Prepaid, a)))
  {
    hide Sum;
    RepairEffect(b, a, active);
    if active == Sum(b.auths, Held(Prepaid, a)) {
      RepairKeepsSound(b, a, active, opening);
    } else {
      hide Repair, LedgerBalance;
      assert !WalletSound(Repair(b, a, active).0, opening[a := 0.0], a);
    }
  }

  /** Over all runs: a reconciliation that commits a repair leaves the wallet
      holding what its authorizations reserve, and the books sound, if and only if
      the holds at the lock are still those that were summed. */
  lemma ReconcileKeepsSoundIff(s: Sweep, a: AccountId, opening: map<AccountId, real>)
    requires Sound(s.start, opening) && s.AllFaithful() && a in s.start.wallets
    requires s.Drifts(a) && s.Result(a).1 == Ok(())
    ensures var r := s.Result(a).0;
      var stillHeld := Sum(s.AtActive().auths, HeldAny(a)) == Sum(s.AtLock().auths, Held(Prepaid, a));
      && a in r.wallets
      && (r.wallets[a].reserved == Sum(r.auths, Held(Prepaid, a)) <==> stillHeld)
      && (Sound(r, opening[a := 0.0]) <==> stillHeld)
  {
    RunKeepsSound(s.start, s.toLedger, opening);
    RunKeepsSound(s.AtLedger(), s.toActive, opening);
    RunKeepsSound(s.AtActive(), s.toLock, opening);
    hide Sound, Run, FaithfulRun, Sum, DriftSeen, LedgerBalance;
    RepairKeepsSoundIff(s.AtLock(), a, Sum(s.AtActive().auths, HeldAny(a)), opening);
  }

  /** A wallet whose balance is one top-up, and two pending usages. */
  function ToppedUp(a: AccountId, u: UsageId, v: UsageId): Books {
    Books(map[a := true], map[a := Wallet(10.0, 0.0)], map[], [],
          [WalletEntry(a, Topup, 10.0, None, None)], [], map[u := Usage(Pending, 0.0), v := Usage(Pending, 0.0)])
  }

  function TwoReservations(a: AccountId, u: UsageId, v: UsageId): Sweep {
    Sweep(ToppedUp(a, u, v), [DoReserve(ReserveInput(u, a, Prepaid, 4.0))], [], [DoReserve(ReserveInput(v, a, Prepaid, 3.0))])
  }

  lemma HeldByTwo(a: AccountId, one: Authorization, two: Authorization)
    requires one.account == two.account == a && one.kind == two.kind == Prepaid && one.status == two.status == Active
    ensures Sum([one], HeldAny(a)) == one.estimate && Sum([one] + [two], Held(Prepaid, a)) == one.estimate + two.estimate
  {
    SumAppend([], one, HeldAny(a));
    AuthAppended([], one);
    assert [] + [one] == [one];
    AuthAppended([one], two);
  }

  lemma ToppedUpBalance(a: AccountId, u: UsageId, v: UsageId)
    ensures LedgerBalance(ToppedUp(a, u, v).walletLedger, a) == 10.0
  {
    var e := WalletEntry(a, Topup, 10.0, None, None);
    EntryPosted([], e);
    assert [] + [e] == ToppedUp(a, u, v).walletLedger;
  }

  /** Two reservations around the sum: the first makes the reconciler see a drift
      where there is none, the second is forgotten by the repair. */
  lemma SecondReservationIsForgotten(a: AccountId, u: UsageId, v: UsageId)
    requires u != v
    ensures var s := TwoReservations(a, u, v);
      && Opening(s.start) && s.AllFaithful() && s.Drifts(a) && s.Result(a).1 == Ok(())
      && s.Result(a).0.wallets == map[a := Wallet(10.0, 4.0)]
      && Sum(s.Result(a).0.auths, Held(Prepaid, a)) == 7.0
  {
    var s := TwoReservations(a, u, v);
    var b1, b2 := ReservedTwice(a, u, v);
    hide Run, FaithfulRun, Sum, LedgerBalance;
    ToppedUpBalance(a, u, v);
    assert s.Drifts(a);
  }

  lemma ReservedTwice(a: AccountId, u: UsageId, v: UsageId) returns (b1: Books, b2: Books)
    requires u != v
    ensures var s := TwoReservations(a, u, v);
      && s.AllFaithful() && s.AtLedger() == s.AtActive() == b1 && s.AtLock() == b2
      && b1.walletLedger == b2.walletLedger == s.start.walletLedger
      && b2.wallets == map[a := Wallet(10.0, 7.0)]
      && Sum(b1.auths, HeldAny(a)) == 4.0 && Sum(b2.auths, Held(Prepaid, a)) == 7.0
  {
    hide Sum;
    var first, second := ReserveInput(u, a, Prepaid, 4.0), ReserveInput(v, a, Prepaid, 3.0);
    var start := ToppedUp(a, u, v);
    b1 := ReservationFits(start, first);
    assert b1.auths == [NewAuthorization(first)];
    b2 := ReservationFits(b1, second);
    assert Run(b1, []) == b1 && FaithfulRun(b1, []);
    HeldByTwo(a, NewAuthorization(first), NewAuthorization(second));
  }
}
