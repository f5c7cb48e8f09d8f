/** The billing store as the program drives it: one field per table, one method
    per transaction, statement by statement.  A transaction that fails restores
    the tables it found, as the rollback does. */
module BillingDatabase {
  import opened Common
  import opened BillingBooks
  import opened BillingInvariant
  import opened WalletReconciler

  class Database {
    var accounts: map<AccountId, bool>
    var wallets: map<AccountId, Wallet>
    var credits: map<AccountId, Credit>
    var auths: seq<Authorization>
    var walletLedger: seq<WalletEntry>
    var creditLedger: seq<CreditEntry>
    var usages: map<UsageId, Usage>

    constructor (b: Books)
      ensures Contents() == b
    {
      accounts, wallets, credits, auths := b.accounts, b.wallets, b.credits, b.auths;
      walletLedger, creditLedger, usages := b.walletLedger, b.creditLedger, b.usages;
    }

    function Contents(): Books
      reads this
    {
      Books(accounts, wallets, credits, auths, walletLedger, creditLedger, usages)
    }

    method Rollback(b: Books)
      modifies this
      ensures Contents() == b
    {
      accounts, wallets, credits, auths := b.accounts, b.wallets, b.credits, b.auths;
      walletLedger, creditLedger, usages := b.walletLedger, b.creditLedger, b.usages;
    }

    /** INSERT INTO billing_authorizations: the check, the unique usage and the foreign key. */
    method InsertAuthorization(input: ReserveInput) returns (r: Result<nat, BillingError>)
      modifies this`auths
      ensures r == (if input.estimate < 0.0 then Err(ConstraintViolation)
                    else if UsageTaken(old(auths), input.usage) then Err(AlreadyAuthorized)
                    else if input.usage !in usages then Err(ConstraintViolation)
                    else Ok(|old(auths)|))
      ensures auths == if r.Ok? then old(auths) + [NewAuthorization(input)] else old(auths)
    {
      if input.estimate < 0.0 { return Err(ConstraintViolation); }
      if UsageTaken(auths, input.usage) { return Err(AlreadyAuthorized); }
      if input.usage !in usages { return Err(ConstraintViolation); }
      auths := auths + [NewAuthorization(input)];
      return Ok(|auths| - 1);
    }

    method MarkUsage(usage: UsageId, was: BillingStatus, now: BillingStatus)
      modifies this`usages
      ensures usages == Marked(old(usages), usage, was, now)
    {
      if usage in usages && usages[usage].status == was {
        usages := usages[usage := usages[usage].(status := now)];
      }
    }

    method ReservePrepaidTx(input: ReserveInput) returns (r: Result<nat, BillingError>)
      requires input.kind == Prepaid
      modifies this
      ensures (Contents(), r) == ReservePrepaid(old(Contents()), input)
    {
      var begin := Contents();
      if !(input.account in accounts && accounts[input.account] && input.account in wallets) {
        return Err(AccountUnavailable);
      }
      var wallet := wallets[input.account];
      var available := wallet.balance - wallet.reserved;
      if available < input.estimate { return Err(InsufficientFunds); }
      wallets := wallets[input.account := wallet.(reserved := wallet.reserved + input.estimate)];
      r := InsertAuthorization(input);
      if r.Err? {
        Rollback(begin);
        return;
      }
      MarkUsage(input.usage, Pending, Reserved);
    }

    method ReservePostpaidTx(input: ReserveInput) returns (r: Result<nat, BillingError>)
      requires input.kind == Postpaid
      modifies this
      ensures (Contents(), r) == ReservePostpaid(old(Contents()), input)
    {
      var begin := Contents();
      if !(input.account in accounts && accounts[input.account] && input.account in credits) {
        return Err(AccountUnavailable);
      }
      var credit := credits[input.account];
      var available := credit.limit - credit.exposure;
      if available < input.estimate { return Err(CreditLimitExceeded); }
      credits := credits[input.account := credit.(exposure := credit.exposure + input.estimate)];
      r := InsertAuthorization(input);
      if r.Err? {
        Rollback(begin);
        return;
      }
      creditLedger := creditLedger
        + [CreditEntry(input.account, CreditAuthorized, input.estimate, Some(input.usage), None)];
      MarkUsage(input.usage, Pending, Reserved);
    }

    method ReserveTx(input: ReserveInput) returns (r: Result<nat, BillingError>)
      modifies this
      ensures (Contents(), r) == Reserve(old(Contents()), input)
    {
      match input.kind
      case Prepaid => r := ReservePrepaidTx(input);
      case Postpaid => r := ReservePostpaidTx(input);
      case Unrecognised => r := Err(UnknownAccountType);
    }

    /** The transaction shared by Release and the expiry sweep. */
    method GiveBackTx(auth: nat, usage: UsageId, terminal: AuthStatus) returns (r: Outcome)
      requires IsActive(Contents(), auth)
      modifies this
      ensures (Contents(), r) == GiveBack(old(Contents()), auth, usage, terminal)
    {
      var begin := Contents();
      var x := auths[auth];
      auths := auths[auth := x.(status := terminal)];
      if x.kind == Prepaid {
        if x.account !in wallets {
          Rollback(begin);
          return Err(LookupFailed);
        }
        var w := wallets[x.account];
        wallets := wallets[x.account := w.(reserved := w.reserved - x.estimate)];
        if ReleaseExists(walletLedger, auth) {
          Rollback(begin);
          return Err(ConstraintViolation);
        }
        walletLedger := walletLedger + [WalletEntry(x.account, Release, x.estimate, None, Some(auth))];
      } else if x.kind == Postpaid {
        if x.account !in credits {
          Rollback(begin);
          return Err(LookupFailed);
        }
        var c := credits[x.account];
        credits := credits[x.account := c.(exposure := c.exposure - x.estimate)];
        if CreditReleaseExists(creditLedger, auth) || usage !in usages {
          Rollback(begin);
          return Err(ConstraintViolation);
        }
        creditLedger := creditLedger + [CreditEntry(x.account, CreditReleased, x.estimate, Some(usage), Some(auth))];
      }
      MarkUsage(usage, Reserved, Returned);
      return Ok(());
    }

    method ReleaseTx(auth: nat, usage: UsageId, fault: bool) returns (r: Outcome)
      modifies this
      ensures (Contents(), r) == ReleaseAuth(old(Contents()), auth, usage, fault)
    {
      if fault || auth >= |auths| || auths[auth].status != Active { return Ok(()); }
      r := GiveBackTx(auth, usage, Released);
    }

    method ExpireTx(auth: nat, fault: bool) returns (r: Outcome)
      modifies this
      ensures (Contents(), r) == ExpireAuth(old(Contents()), auth, fault)
    {
      if fault || auth >= |auths| || auths[auth].status != Active { return Ok(()); }
      r := GiveBackTx(auth, auths[auth].usage, Expired);
    }

    method SettlePrepaidTx(input: SettleInput, policy: RecoveryPolicy, fault: bool) returns (r: Outcome)
      requires input.kind == Prepaid
      modifies this
      ensures (Contents(), r) == Settle(old(Contents()), input, policy, fault)
    {
      var begin := Contents();
      if fault || input.auth >= |auths| || auths[input.auth].status != Active {
        r := HandleExpiryRecovery(input, policy);
        return;
      }
      var x := auths[input.auth];
      auths := auths[input.auth := x.(status := Committed, actual := Some(input.cost))];
      var charge := if input.cost > x.estimate then x.estimate else input.cost;
      if input.account !in wallets {
        Rollback(begin);
        return Err(LookupFailed);
      }
      var w := wallets[input.account];
      wallets := wallets[input.account := Wallet(w.balance - charge, w.reserved - x.estimate)];
      if !AllowedRow(wallets[input.account]) || charge < 0.0 || DebitExists(walletLedger, input.usage) {
        Rollback(begin);
        return Err(ConstraintViolation);
      }
      walletLedger := walletLedger + [DebitEntry(input, charge)];
      var delta := x.estimate - charge;
      if delta > 0.0 {
        if ReleaseExists(begin.walletLedger, input.auth) {
          Rollback(begin);
          return Err(ConstraintViolation);
        }
        walletLedger := walletLedger + [ReleaseEntry(input, delta)];
      }
      usages := Finalised(usages, input.usage, charge);
      if input.usage !in usages {
        Rollback(begin);
        return Err(ConstraintViolation);
      }
      assert walletLedger == begin.walletLedger + WalletPosting(input, x.estimate);
      return Ok(());
    }

    method SettlePostpaidTx(input: SettleInput, policy: RecoveryPolicy, fault: bool) returns (r: Outcome)
      requires input.kind == Postpaid
      modifies this
      ensures (Contents(), r) == Settle(old(Contents()), input, policy, fault)
    {
      var begin := Contents();
      if fault || input.auth >= |auths| || auths[input.auth].status != Active {
        r := HandleExpiryRecovery(input, policy);
        return;
      }
      var x := auths[input.auth];
      auths := auths[input.auth := x.(status := Committed, actual := Some(input.cost))];
      var charge := if input.cost > x.estimate then x.estimate else input.cost;
      if input.account !in credits {
        Rollback(begin);
        return Err(LookupFailed);
      }
      var c := credits[input.account];
      credits := credits[input.account := c.(settled := c.settled + charge)];
      var delta := x.estimate - charge;
      if delta > 0.0 {
        var d := credits[input.account];
        credits := credits[input.account := d.(exposure := d.exposure - delta)];
      }
      if (delta > 0.0 && credits[input.account].exposure < 0.0) || charge < 0.0 || SettledExists(creditLedger, input.usage) {
        Rollback(begin);
        return Err(ConstraintViolation);
      }
      creditLedger := creditLedger + [SettledEntry(input, charge)];
      if delta > 0.0 {
        if CreditReleaseExists(begin.creditLedger, input.auth) {
          Rollback(begin);
          return Err(ConstraintViolation);
        }
        creditLedger := creditLedger + [CreditReturnEntry(input, delta)];
      }
      usages := Finalised(usages, input.usage, charge);
      if input.usage !in usages {
        Rollback(begin);
        return Err(ConstraintViolation);
      }
      assert credits == begin.credits[input.account :=
        c.(exposure := c.exposure - (x.estimate - charge), settled := c.settled + charge)];
      assert creditLedger == begin.creditLedger + CreditPosting(input, x.estimate);
      return Ok(());
    }

    method SettleTx(input: SettleInput, policy: RecoveryPolicy, fault: bool) returns (r: Outcome)
      modifies this
      ensures (Contents(), r) == Settle(old(Contents()), input, policy, fault)
    {
      match input.kind
      case Prepaid => r := SettlePrepaidTx(input, policy, fault);
      case Postpaid => r := SettlePostpaidTx(input, policy, fault);
      case Unrecognised => r := Err(UnknownAccountType);
    }

    method HandleExpiryRecovery(input: SettleInput, policy: RecoveryPolicy) returns (r: Outcome)
      modifies this
      ensures (Contents(), r) == LateSettle(old(Contents()), input, policy)
    {
      if input.auth >= |auths| { return Err(LookupFailed); }
      if auths[input.auth].status == Committed { return Ok(()); }
      match policy
      case BestEffort => r := UnplannedDebitTx(input);
      case WriteOff =>
        usages := MarkedDisputed(usages, input.usage);
        r := Ok(());
    }

    method UnplannedDebitTx(input: SettleInput) returns (r: Outcome)
      modifies this
      ensures (Contents(), r) == DirectDebit(old(Contents()), input)
    {
      if input.kind != Prepaid {
        usages := MarkedDisputed(usages, input.usage);
        return Ok(());
      }
      var begin := Contents();
      if input.account !in wallets { return Err(LookupFailed); }
      var w := wallets[input.account];
      var available := w.balance - w.reserved;
      if available < input.cost {
        usages := MarkedDisputed(usages, input.usage);
        return Ok(());
      }
      wallets := wallets[input.account := w.(balance := w.balance - input.cost)];
      walletLedger := walletLedger + [WalletEntry(input.account, UnplannedDebit, input.cost, Some(input.usage), None)];
      usages := Finalised(usages, input.usage, input.cost);
      if input.cost < 0.0 || input.usage !in usages {
        Rollback(begin);
        return Err(ConstraintViolation);
      }
      return Ok(());
    }

    /** The pending sweep's own write to a usage row. */
    method SweepUsageTx(usage: UsageId, evidence: Option<real>)
      modifies this`usages
      ensures usages == SweptUsage(old(usages), usage, evidence)
    {
      if usage in usages {
        usages := usages[usage :=
          match evidence
          case Some(cost) => Usage(usages[usage].status, cost)
          case None => Usage(Disputed, usages[usage].totalCost)];
      }
    }

    /** Sums a ledger the way the reconciler's query does. */
    method SumLedger(a: AccountId) returns (total: real)
      ensures total == LedgerBalance(walletLedger, a)
    {
      total := 0.0;
      for k := 0 to |walletLedger|
        invariant total == LedgerBalance(walletLedger[..k], a)
      {
        var e := walletLedger[k];
        assert walletLedger[..k + 1] == walletLedger[..k] + [e];
        EntryPosted(walletLedger[..k], e);
        if e.account == a {
          match e.entryType
          case Topup => total := total + e.amount;
          case Debit | UnplannedDebit => total := total - e.amount;
          case Release | Adjustment =>
        }
      }
      assert walletLedger[..|walletLedger|] == walletLedger;
    }

    /** Reconciles wallet `a`, given what the three unlocked queries returned before. */
    method ReconcileWalletTx(a: AccountId, listed: Wallet, ledger: real, active: real) returns (r: Outcome)
      modifies this
      ensures (Contents(), r) == Reconcile(old(Contents()), a, listed, ledger, active)
    {
      if Abs(ledger - listed.balance) < DRIFT_THRESHOLD && Abs(active - listed.reserved) < DRIFT_THRESHOLD { return Ok(()); }
      var begin := Contents();
      if a !in wallets { return Err(LookupFailed); }
      var correct := SumLedger(a);
      var drift := correct - wallets[a].balance;
      if Abs(drift) >= DRIFT_THRESHOLD {
        walletLedger := walletLedger + [WalletEntry(a, Adjustment, Abs(drift), None, None)];
      }
      wallets := wallets[a := Wallet(correct, active)];
      if !AllowedRow(wallets[a]) {
        Rollback(begin);
        return Err(ConstraintViolation);
      }
      return Ok(());
    }
  }
}
