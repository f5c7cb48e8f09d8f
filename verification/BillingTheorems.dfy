/** What the soundness of the books means for customers: solvency over whole
    runs, charging once, and exactly where the code stops guaranteeing it. */
module BillingTheorems {
  import opened Common
  import opened BillingBooks
  import opened BillingInvariant
  import opened BillingSafety

  /** From opening books, whatever happens: wallets are solvent, hold exactly what
      the active authorizations reserve, and both ledgers explain every total. */
  lemma EveryRunReconciles(b: Books, es: seq<Event>)
    requires Opening(b) && FaithfulRun(b, es)
    ensures var r := Run(b, es);
      && (forall a :: a in r.wallets ==> WalletSound(r, OpeningBalances(b), a))
      && (forall a :: a in r.credits ==> CreditSound(r, a))
      && (forall i :: 0 <= i < |r.auths| ==> AuthSound(r, i))
  {
    OpeningIsSound(b);
    RunKeepsSound(b, es, OpeningBalances(b));
  }

  // ----- runs -----

  lemma RunsOne(b: Books, e: Event)
    ensures Run(b, [e]) == Apply(b, e) && (Faithful(b, e) ==> FaithfulRun(b, [e]))
  {
    hide Apply;
    assert [e][1..] == [];
    assert FaithfulRun(Apply(b, e), []);
  }

  lemma {:induction false} RunConcat(b: Books, es: seq<Event>, fs: seq<Event>)
    ensures Run(b, es + fs) == Run(Run(b, es), fs)
    ensures FaithfulRun(b, es) && FaithfulRun(Run(b, es), fs) ==> FaithfulRun(b, es + fs)
    decreases |es|
  {
    hide Apply, Faithful;
    if es == [] {
      assert es + fs == fs;
    } else {
      assert (es + fs)[1..] == es[1..] + fs;
      RunConcat(Apply(b, es[0]), es[1..], fs);
    }
  }

  /** A prepaid reservation that fits. */
  lemma ReservationFits(b: Books, input: ReserveInput) returns (b': Books)
    requires input.kind == Prepaid && Lockable(b, input.account) && input.account in b.wallets && input.usage in b.usages
    requires !UsageTaken(b.auths, input.usage)
    requires 0.0 <= input.estimate <= b.wallets[input.account].balance - b.wallets[input.account].reserved
    ensures b' == Run(b, [DoReserve(input)]) && FaithfulRun(b, [DoReserve(input)])
    ensures b'.auths == b.auths + [NewAuthorization(input)] && b'.walletLedger == b.walletLedger
    ensures b'.accounts == b.accounts && b'.credits == b.credits && b'.usages.Keys == b.usages.Keys
    ensures b'.wallets == b.wallets[input.account :=
      b.wallets[input.account].(reserved := b.wallets[input.account].reserved + input.estimate)]
  {
    RunsOne(b, DoReserve(input));
    b' := Apply(b, DoReserve(input));
  }

  // ----- an authorization leaves `active` at most once -----

  /** Rows only ever get appended, and of a row only an active status changes. */
  ghost predicate Continues(b: Books, b': Books) {
    && |b.auths| <= |b'.auths|
    && forall i :: 0 <= i < |b.auths| ==>
         && (b.auths[i].status != Active ==> b'.auths[i] == b.auths[i])
         && b'.auths[i].usage == b.auths[i].usage && b'.auths[i].account == b.auths[i].account
         && b'.auths[i].kind == b.auths[i].kind && b'.auths[i].estimate == b.auths[i].estimate
  }

  lemma SettleContinues(b: Books, input: SettleInput, policy: RecoveryPolicy, fault: bool)
    ensures Continues(b, Settle(b, input, policy, fault).0)
  {
    hide DebitExists, ReleaseExists, SettledExists, CreditReleaseExists;
    hide Finalised, MarkedDisputed, WalletPosting, CreditPosting;
  }

  lemma ReserveContinues(b: Books, input: ReserveInput)
    ensures Continues(b, Reserve(b, input).0)
  {
    hide UsageTaken, Marked;
  }

  lemma GiveBackContinues(b: Books, auth: nat, usage: UsageId, terminal: AuthStatus)
    requires IsActive(b, auth)
    ensures Continues(b, GiveBack(b, auth, usage, terminal).0)
  {
    hide ReleaseExists, CreditReleaseExists, Marked;
  }

  lemma StepContinues(b: Books, e: Event)
    ensures Continues(b, Apply(b, e))
  {
    hide Reserve, GiveBack, Settle;
    match e
    case DoReserve(input) => ReserveContinues(b, input);
    case DoSettle(input, policy, fault) => SettleContinues(b, input, policy, fault);
    case DoRelease(auth, usage, _) => if IsActive(b, auth) { GiveBackContinues(b, auth, usage, Released); }
    case DoExpire(auth, _) => if IsActive(b, auth) { GiveBackContinues(b, auth, b.auths[auth].usage, Expired); }
    case DoSweepUsage(_, _) =>
  }

  /** A finished authorization never changes again, in any run at all. */
  lemma {:induction false} FinishedForever(b: Books, es: seq<Event>, i: nat)
    requires i < |b.auths| && b.auths[i].status != Active
    ensures i < |Run(b, es).auths| && Run(b, es).auths[i] == b.auths[i]
    decreases |es|
  {
    if es != [] {
      StepContinues(b, es[0]);
      hide Apply;
      FinishedForever(Apply(b, es[0]), es[1..], i);
    }
  }

  // ----- repeated calls -----

  /** Everything that is money: the accounts and the two ledgers. */
  function Money(b: Books): (map<AccountId, Wallet>, map<AccountId, Credit>, seq<WalletEntry>, seq<CreditEntry>) {
    (b.wallets, b.credits, b.walletLedger, b.creditLedger)
  }

  predicate ConcernsOnly(e: Event, i: nat) {
    match e
    case DoReserve(_) => false
    case DoSettle(input, _, _) => input.auth == i
    case DoRelease(auth, _, _) => auth == i
    case DoExpire(auth, _) => auth == i
    case DoSweepUsage(_, _) => true
  }

  /** Repeated Settle, Release and expiry calls on a finished authorization move
      no money, unless it was returned and the policy is best effort. */
  lemma {:induction false} RepeatedCallsMoveNothing(b: Books, es: seq<Event>, i: nat)
    requires i < |b.auths| && b.auths[i].status != Active
    requires forall k :: 0 <= k < |es| ==> ConcernsOnly(es[k], i)
    requires b.auths[i].status == Committed || forall k :: 0 <= k < |es| && es[k].DoSettle? ==> es[k].policy == WriteOff
    ensures Money(Run(b, es)) == Money(b)
    decreases |es|
  {
    if es != [] {
      assert ConcernsOnly(es[0], i);
      assert Money(Apply(b, es[0])) == Money(b);
      StepContinues(b, es[0]);
      RepeatedCallsMoveNothing(Apply(b, es[0]), es[1..], i);
    }
  }

  /** A late settlement would take money exactly under these conditions. */
  predicate TakesUnplanned(b: Books, input: SettleInput, policy: RecoveryPolicy) {
    && policy == BestEffort && input.kind == Prepaid
    && input.auth < |b.auths| && b.auths[input.auth].status != Committed
    && input.account in b.wallets && input.usage in b.usages
    && 0.0 <= input.cost <= b.wallets[input.account].balance - b.wallets[input.account].reserved
  }

  lemma LateSettleMovesMoneyIff(b: Books, input: SettleInput, policy: RecoveryPolicy, fault: bool)
    requires fault || !IsActive(b, input.auth)
    ensures Money(Settle(b, input, policy, fault).0) != Money(b) <==> TakesUnplanned(b, input, policy)
  {
    var e := WalletEntry(input.account, UnplannedDebit, input.cost, Some(input.usage), None);
    assert |b.walletLedger + [e]| != |b.walletLedger|;
  }

  function Repeat(e: Event, n: nat): (es: seq<Event>)
    ensures |es| == n && forall k :: 0 <= k < n ==> es[k] == e
  {
    if n == 0 then [] else [e] + Repeat(e, n - 1)
  }

  /** Nothing stops a late settlement from being charged again: `n` identical
      calls take `n` times the cost as long as the wallet can pay. */
  lemma {:induction false} LateSettleChargesEveryTime(b: Books, input: SettleInput, fault: bool, n: nat)
    requires fault || !IsActive(b, input.auth)
    requires input.cost >= 0.0 && input.account in b.wallets
    requires n > 0 ==> TakesUnplanned(b, input, BestEffort)
    requires n as real * input.cost <= b.wallets[input.account].balance - b.wallets[input.account].reserved
    ensures var r := Run(b, Repeat(DoSettle(input, BestEffort, fault), n));
      input.account in r.wallets
      && r.wallets[input.account].balance == b.wallets[input.account].balance - n as real * input.cost
    decreases n
  {
    if n > 0 {
      var e := DoSettle(input, BestEffort, fault);
      var b' := Apply(b, e);
      assert Repeat(e, n)[1..] == Repeat(e, n - 1);
      assert n as real * input.cost == (n - 1) as real * input.cost + input.cost;
      if n > 1 {
        assert (n - 1) as real * input.cost == (n - 2) as real * input.cost + input.cost;
        assert (n - 2) as real * input.cost >= 0.0;
      }
      LateSettleChargesEveryTime(b', input, fault, n - 1);
    }
  }

  // ----- the caller's obligation is exact -----

  /** Accounts hold exactly what their active authorizations reserve. */
  ghost predicate HoldsAgree(b: Books) {
    && (forall a :: a in b.wallets ==> b.wallets[a].reserved == Sum(b.auths, Held(Prepaid, a)))
    && (forall a :: a in b.credits ==> b.credits[a].exposure - b.credits[a].settled == Sum(b.auths, Held(Postpaid, a)))
  }

  /** A settlement that commits keeps the holds right if and only if its input
      names the authorization's own account and type. */
  lemma SettleKeepsHoldsIffMatched(b: Books, input: SettleInput, policy: RecoveryPolicy)
    requires HoldsAgree(b) && IsActive(b, input.auth) && b.auths[input.auth].estimate > 0.0
    requires Settle(b, input, policy, false).1.Ok?
    ensures HoldsAgree(Settle(b, input, policy, false).0)
      <==> (input.account == b.auths[input.auth].account && input.kind == b.auths[input.auth].kind)
  {
    hide Sum, DebitExists, ReleaseExists, SettledExists, CreditReleaseExists, Finalised, WalletPosting, CreditPosting;
    var b' := Settle(b, input, policy, false).0;
    var x := b.auths[input.auth];
    AuthUpdated(b.auths, input.auth, x.(status := Committed, actual := Some(input.cost)));
    if input.kind == Prepaid {
      assert b'.wallets[input.account].reserved == b.wallets[input.account].reserved - x.estimate;
      assert b'.credits == b.credits;
    } else {
      assert b'.credits[input.account].exposure - b'.credits[input.account].settled
          == b.credits[input.account].exposure - b.credits[input.account].settled - x.estimate;
      assert b'.wallets == b.wallets;
    }
    hide Settle;
  }

  /** Two funded accounts with a pending usage each. */
  function TwoAccounts(a: AccountId, c: AccountId, u: UsageId, v: UsageId): Books {
    Books(map[a := true, c := true], map[a := Wallet(10.0, 0.0), c := Wallet(10.0, 0.0)], map[], [], [], [],
          map[u := Usage(Pending, 0.0), v := Usage(Pending, 0.0)])
  }

  /** A settlement that names another account which holds enough commits: that
      account pays and loses its hold, and the hold of the right one stays forever. */
  lemma WrongAccountPays(a: AccountId, c: AccountId, u: UsageId, v: UsageId)
    requires a != c && u != v
    ensures var b := TwoAccounts(a, c, u, v);
      var es := [DoReserve(ReserveInput(u, a, Prepaid, 4.0))] + [DoReserve(ReserveInput(v, c, Prepaid, 4.0))]
                + [DoSettle(SettleInput(0, u, c, Prepaid, 2.0), WriteOff, false)];
      var r := Run(b, es);
      && Opening(b) && |r.auths| == 2 && r.auths[0].status == Committed && r.auths[1].status == Active
      && r.wallets == map[a := Wallet(10.0, 4.0), c := Wallet(8.0, 0.0)]
  {
    var b := TwoAccounts(a, c, u, v);
    var reserves := [DoReserve(ReserveInput(u, a, Prepaid, 4.0))] + [DoReserve(ReserveInput(v, c, Prepaid, 4.0))];
    var input := SettleInput(0, u, c, Prepaid, 2.0);
    var b2 := BothReserved(a, c, u, v);
    RunConcat(b, reserves, [DoSettle(input, WriteOff, false)]);
    var r := FirstSettlement(b2, input);
    hide Run, FaithfulRun;
  }

  lemma BothReserved(a: AccountId, c: AccountId, u: UsageId, v: UsageId) returns (b2: Books)
    requires a != c && u != v
    ensures b2 == Run(TwoAccounts(a, c, u, v),
      [DoReserve(ReserveInput(u, a, Prepaid, 4.0))] + [DoReserve(ReserveInput(v, c, Prepaid, 4.0))])
    ensures b2.wallets == map[a := Wallet(10.0, 4.0), c := Wallet(10.0, 4.0)] && b2.walletLedger == [] && u in b2.usages
    ensures b2.auths == [NewAuthorization(ReserveInput(u, a, Prepaid, 4.0)), NewAuthorization(ReserveInput(v, c, Prepaid, 4.0))]
  {
    var first, second := ReserveInput(u, a, Prepaid, 4.0), ReserveInput(v, c, Prepaid, 4.0);
    var b1 := ReservationFits(TwoAccounts(a, c, u, v), first);
    b2 := ReservationFits(b1, second);
    RunConcat(TwoAccounts(a, c, u, v), [DoReserve(first)], [DoReserve(second)]);
    hide Run, FaithfulRun;
  }

  /** The first settlement of all, on any wallet that holds enough. */
  lemma FirstSettlement(b: Books, input: SettleInput) returns (b': Books)
    requires IsActive(b, input.auth) && input.kind == Prepaid && input.account in b.wallets && input.usage in b.usages
    requires b.walletLedger == [] && 0.0 <= input.cost <= b.auths[input.auth].estimate
    requires AllowedRow(ChargedWallet(b.wallets[input.account], input.cost, b.auths[input.auth].estimate))
    ensures b' == Run(b, [DoSettle(input, WriteOff, false)])
    ensures b'.wallets == b.wallets[input.account := ChargedWallet(b.wallets[input.account], input.cost, b.auths[input.auth].estimate)]
    ensures b'.auths == b.auths[input.auth := b.auths[input.auth].(status := Committed, actual := Some(input.cost))]
  {
    RunsOne(b, DoSettle(input, WriteOff, false));
    hide Run, Finalised, WalletPosting;
    b' := Apply(b, DoSettle(input, WriteOff, false));
  }

  /** Release reports success without giving the hold back exactly when its
      transition statement fails on an active authorization. */
  lemma SilentReleaseIff(b: Books, auth: nat, usage: UsageId, fault: bool)
    requires IsActive(b, auth)
    ensures var (b', outcome) := ReleaseAuth(b, auth, usage, fault);
      outcome == Ok(()) && IsActive(b', auth) <==> fault
  {
    hide ReleaseExists, CreditReleaseExists, Marked;
  }

  // ----- a failed transition statement is taken for a finished authorization -----

  /** Books of one funded prepaid account and one pending usage. */
  function OneAccount(a: AccountId, u: UsageId): Books {
    Books(map[a := true], map[a := Wallet(10.0, 0.0)], map[], [], [], [], map[u := Usage(Pending, 0.0)])
  }

  /** When the transition statement fails while the authorization is active,
      best effort charges the wallet and the authorization can be charged again:
      one usage, one authorization, two charges. */
  lemma FaultChargesTwice(a: AccountId, u: UsageId)
    ensures var b := OneAccount(a, u);
      var input := SettleInput(0, u, a, Prepaid, 2.0);
      var es := [DoReserve(ReserveInput(u, a, Prepaid, 4.0))] + [DoSettle(input, BestEffort, true)] + [DoSettle(input, BestEffort, false)];
      && Opening(b) && FaithfulRun(b, es)
      && Run(b, es).wallets == map[a := Wallet(6.0, 0.0)]
      && Run(b, es).auths == [Authorization(u, a, Prepaid, 4.0, Committed, Some(2.0))]
  {
    var b := OneAccount(a, u);
    var input := SettleInput(0, u, a, Prepaid, 2.0);
    var reserve, late, again :=
      DoReserve(ReserveInput(u, a, Prepaid, 4.0)), DoSettle(input, BestEffort, true), DoSettle(input, BestEffort, false);
    var held := ReservationFits(b, reserve.reserve);
    var charged := ChargeByFault(a, u, held);
    var final := ChargeAgain(a, u, charged);
    RunConcat(b, [reserve], [late]);
    RunConcat(b, [reserve] + [late], [again]);
    hide Run, FaithfulRun;
  }

  lemma ChargeByFault(a: AccountId, u: UsageId, held: Books) returns (b: Books)
    requires held.wallets == map[a := Wallet(10.0, 4.0)] && held.auths == [Authorization(u, a, Prepaid, 4.0, Active, None)]
    requires u in held.usages && held.walletLedger == []
    ensures b == Run(held, [DoSettle(SettleInput(0, u, a, Prepaid, 2.0), BestEffort, true)])
    ensures FaithfulRun(held, [DoSettle(SettleInput(0, u, a, Prepaid, 2.0), BestEffort, true)])
    ensures b.wallets == map[a := Wallet(8.0, 4.0)] && b.auths == held.auths
    ensures u in b.usages && b.walletLedger == [WalletEntry(a, UnplannedDebit, 2.0, Some(u), None)]
  {
    RunsOne(held, DoSettle(SettleInput(0, u, a, Prepaid, 2.0), BestEffort, true));
    b := Apply(held, DoSettle(SettleInput(0, u, a, Prepaid, 2.0), BestEffort, true));
  }

  lemma ChargeAgain(a: AccountId, u: UsageId, charged: Books) returns (b: Books)
    requires charged.wallets == map[a := Wallet(8.0, 4.0)] && charged.auths == [Authorization(u, a, Prepaid, 4.0, Active, None)]
    requires u in charged.usages && charged.walletLedger == [WalletEntry(a, UnplannedDebit, 2.0, Some(u), None)]
    ensures b == Run(charged, [DoSettle(SettleInput(0, u, a, Prepaid, 2.0), BestEffort, false)])
    ensures FaithfulRun(charged, [DoSettle(SettleInput(0, u, a, Prepaid, 2.0), BestEffort, false)])
    ensures b.wallets == map[a := Wallet(6.0, 0.0)] && b.auths == [Authorization(u, a, Prepaid, 4.0, Committed, Some(2.0))]
  {
    RunsOne(charged, DoSettle(SettleInput(0, u, a, Prepaid, 2.0), BestEffort, false));
    assert !DebitExists(charged.walletLedger, u) && !ReleaseExists(charged.walletLedger, 0);
    hide WalletPosting;
    b := Apply(charged, DoSettle(SettleInput(0, u, a, Prepaid, 2.0), BestEffort, false));
  }
}
