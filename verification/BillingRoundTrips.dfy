/** What each call promises its caller: when it succeeds, what it returns, and what
    one call undoes of another. */
module BillingRoundTrips {
  import opened Common
  import opened BillingBooks
  import opened BillingInvariant
  import opened BillingSafety
  import opened BillingTheorems
  import opened BillingCharges

  // ----- reserve -----

  /** The account exists and has at least `estimate` to spare. */
  predicate HasRoom(b: Books, input: ReserveInput) {
    match input.kind
    case Prepaid =>
      input.account in b.wallets && input.estimate <= b.wallets[input.account].balance - b.wallets[input.account].reserved
    case Postpaid =>
      input.account in b.credits && input.estimate <= b.credits[input.account].limit - b.credits[input.account].exposure
    case Unrecognised => false
  }

  /** A reservation succeeds exactly when the account is active and has room, and
      the usage exists and has no authorization; a refusal changes nothing. */
  lemma ReserveSucceedsIff(b: Books, input: ReserveInput)
    ensures var (b', r) := Reserve(b, input);
      && (r.Ok? <==>
            && input.account in b.accounts && b.accounts[input.account] && HasRoom(b, input) && input.estimate >= 0.0
            && input.usage in b.usages && forall i :: 0 <= i < |b.auths| ==> b.auths[i].usage != input.usage)
      && (r.Err? ==> b' == b)
  {
    hide Marked;
  }

  /** And this is what a refusal reports. */
  lemma ReserveErrors(b: Books, input: ReserveInput)
    ensures var r := Reserve(b, input).1;
      var open := input.account in b.accounts && b.accounts[input.account];
      && (r == Err(UnknownAccountType) <==> input.kind == Unrecognised)
      && (r == Err(AccountUnavailable) <==>
            || (input.kind == Prepaid && !(open && input.account in b.wallets))
            || (input.kind == Postpaid && !(open && input.account in b.credits)))
      && (r == Err(InsufficientFunds) <==>
            input.kind == Prepaid && open && input.account in b.wallets && !HasRoom(b, input))
      && (r == Err(CreditLimitExceeded) <==>
            input.kind == Postpaid && open && input.account in b.credits && !HasRoom(b, input))
      && (r == Err(AlreadyAuthorized) <==>
            open && HasRoom(b, input) && input.estimate >= 0.0 && exists i :: 0 <= i < |b.auths| && b.auths[i].usage == input.usage)
  {
    hide Marked;
  }

  /** The hold that a reservation or a release puts on or takes off an account. */
  function HoldMoved(b: Books, kind: AccountType, a: AccountId, amount: real): (map<AccountId, Wallet>, map<AccountId, Credit>) {
    if kind == Prepaid && a in b.wallets then
      (b.wallets[a := Wallet(b.wallets[a].balance, b.wallets[a].reserved + amount)], b.credits)
    else if kind == Postpaid && a in b.credits then
      (b.wallets, b.credits[a := Credit(b.credits[a].limit, b.credits[a].exposure + amount, b.credits[a].settled)])
    else (b.wallets, b.credits)
  }

  /** The id that a reservation returns names a new, active authorization with the
      caller's own usage, account, type and estimate, and that estimate is held. */
  lemma ReserveReturnsItsRow(b: Books, input: ReserveInput, i: nat)
    requires Reserve(b, input).1 == Ok(i)
    ensures var b' := Reserve(b, input).0;
      && i == |b.auths| && |b'.auths| == i + 1 && IsActive(b', i)
      && b'.auths[i].usage == input.usage && b'.auths[i].account == input.account
      && b'.auths[i].kind == input.kind && b'.auths[i].estimate == input.estimate
      && b'.auths == b.auths + [b'.auths[i]]
      && (b'.wallets, b'.credits) == HoldMoved(b, input.kind, input.account, input.estimate)
      && b'.walletLedger == b.walletLedger && b'.accounts == b.accounts
      && b'.usages.Keys == b.usages.Keys && input.usage in b'.usages
      && (b.usages[input.usage].status == Pending ==> b'.usages[input.usage] == b.usages[input.usage].(status := Reserved))
  {
    hide UsageTaken;
  }

  // ----- release and expiry -----

  /** In sound books giving back an active authorization succeeds exactly when it is
      prepaid or the usage row exists.  It ends in the right status, lowers exactly
      that account's hold by exactly the estimate, and returns a reserved usage. */
  lemma GiveBackSucceedsIff(b: Books, i: nat, usage: UsageId, terminal: AuthStatus, opening: map<AccountId, real>)
    requires Sound(b, opening) && IsActive(b, i)
    ensures var (b', outcome) := GiveBack(b, i, usage, terminal); var x := b.auths[i];
      && (outcome == Ok(()) <==> x.kind == Prepaid || usage in b.usages)
      && (outcome != Ok(()) ==> b' == b)
      && (outcome == Ok(()) ==>
            && b'.auths == b.auths[i := Authorization(x.usage, x.account, x.kind, x.estimate, terminal, x.actual)]
            && (b'.wallets, b'.credits) == HoldMoved(b, x.kind, x.account, -x.estimate)
            && b'.usages == if usage in b.usages && b.usages[usage].status == Reserved
                            then b.usages[usage := b.usages[usage].(status := Returned)] else b.usages)
  {
    hide Sum;
    assert Linked(b);
    forall k | 0 <= k < |b.walletLedger| ensures b.walletLedger[k].auth != Some(i) {
      assert EntryLinked(b, b.walletLedger[k]);
    }
    forall k | 0 <= k < |b.creditLedger| ensures b.creditLedger[k].auth != Some(i) {
      assert CreditEntryLinked(b, b.creditLedger[k]);
    }
    hide Sound, Linked;
  }

  /** So release and expiry of an active authorization with its own usage always
      succeed, unless the transition statement fails. */
  lemma ReleaseAndExpirySucceed(b: Books, i: nat, opening: map<AccountId, real>)
    requires Sound(b, opening) && IsActive(b, i)
    ensures var x := b.auths[i];
      var (released, ro) := ReleaseAuth(b, i, x.usage, false);
      var (expired, eo) := ExpireAuth(b, i, false);
      && ro == Ok(()) && eo == Ok(())
      && released.auths == b.auths[i := x.(status := Released)] && expired.auths == b.auths[i := x.(status := Expired)]
      && (released.wallets, released.credits) == HoldMoved(b, x.kind, x.account, -x.estimate)
      && (expired.wallets, expired.credits) == HoldMoved(b, x.kind, x.account, -x.estimate)
  {
    assert b.auths[i].usage in b.usages;
    GiveBackSucceedsIff(b, i, b.auths[i].usage, Released, opening);
    GiveBackSucceedsIff(b, i, b.auths[i].usage, Expired, opening);
    hide GiveBack, Sound, HoldMoved;
  }

  // ----- what one call undoes of another -----

  lemma ReserveKeepsSound(b: Books, input: ReserveInput, opening: map<AccountId, real>)
    requires Sound(b, opening)
    ensures Sound(Reserve(b, input).0, opening)
  {
    hide Sound;
    StepKeepsSound(b, DoReserve(input), opening);
  }

  lemma HoldMovesBack(b: Books, held: Books, input: ReserveInput)
    requires HasRoom(b, input) && (held.wallets, held.credits) == HoldMoved(b, input.kind, input.account, input.estimate)
    ensures HoldMoved(held, input.kind, input.account, -input.estimate) == (b.wallets, b.credits)
  {
    if input.kind == Prepaid {
      assert b.wallets[input.account] == Wallet(b.wallets[input.account].balance, b.wallets[input.account].reserved);
      assert held.wallets[input.account := b.wallets[input.account]] == b.wallets;
    } else {
      var c := b.credits[input.account];
      assert c == Credit(c.limit, c.exposure + input.estimate + -input.estimate, c.settled);
      assert held.credits[input.account := c] == b.credits;
    }
  }

  /** Reserving and then releasing by the returned id restores both account tables. */
  lemma ReserveThenRelease(b: Books, input: ReserveInput, i: nat, opening: map<AccountId, real>)
    requires Sound(b, opening) && Reserve(b, input).1 == Ok(i)
    ensures var held := Reserve(b, input).0; var (b', outcome) := ReleaseAuth(held, i, input.usage, false);
      && outcome == Ok(()) && b'.wallets == b.wallets && b'.credits == b.credits
      && |b'.auths| == i + 1 && b'.auths[i].status == Released
  {
    hide *;
    var held := Reserve(b, input).0;
    ReserveReturnsItsRow(b, input, i);
    ReserveKeepsSound(b, input, opening);
    assert HasRoom(b, input) by { ReserveSucceedsIff(b, input); }
    HoldMovesBack(b, held, input);
    ReleaseAndExpirySucceed(held, i, opening);
  }

  /** A charge left the account, and no hold stayed behind. */
  predicate ChargedOnly(b: Books, b': Books, kind: AccountType, a: AccountId, charge: real) {
    && (kind == Prepaid ==>
          && a in b.wallets && b'.wallets == b.wallets[a := Wallet(b.wallets[a].balance - charge, b.wallets[a].reserved)])
    && (kind == Postpaid ==>
          && a in b.credits
          && b'.credits == b.credits[a := Credit(b.credits[a].limit, b.credits[a].exposure + charge, b.credits[a].settled + charge)])
  }

  lemma HoldIsCharged(b: Books, held: Books, b': Books, input: ReserveInput, i: nat, cost: real)
    requires HasRoom(b, input) && (held.wallets, held.credits) == HoldMoved(b, input.kind, input.account, input.estimate)
    requires IsActive(held, i) && held.auths[i].estimate == input.estimate
    requires Settled(held, b', SettleInput(i, input.usage, input.account, input.kind, cost))
    ensures ChargedOnly(b, b', input.kind, input.account, Min(cost, input.estimate))
  {
    hide Sum;
  }

  /** Reserving and then settling by the returned id charges the capped cost and
      leaves no hold behind. */
  lemma ReserveThenSettle(
      b: Books, input: ReserveInput, i: nat, cost: real, policy: RecoveryPolicy, opening: map<AccountId, real>)
    requires Sound(b, opening) && UsagesAgree(b) && Reserve(b, input).1 == Ok(i) && cost >= 0.0
    ensures var held := Reserve(b, input).0;
      var (b', outcome) := Settle(held, SettleInput(i, input.usage, input.account, input.kind, cost), policy, false);
      && outcome == Ok(()) && |b'.auths| == i + 1 && b'.auths[i].status == Committed && b'.auths[i].actual == Some(cost)
      && ChargedOnly(b, b', input.kind, input.account, Min(cost, input.estimate))
  {
    hide *;
    var held := Reserve(b, input).0;
    var settle := SettleInput(i, input.usage, input.account, input.kind, cost);
    var b' := Settle(held, settle, policy, false).0;
    ReserveReturnsItsRow(b, input, i);
    ReserveKeepsSound(b, input, opening);
    assert UsagesAgree(held) by { ReserveKeepsAgreement(b, input); }
    assert HasRoom(b, input) by { ReserveSucceedsIff(b, input); }
    RoomNamesAType(b, input);
    assert Matches(held, settle) by { RowMatches(held, settle); }
    SettlementAlwaysCommits(held, settle, policy, opening);
    SettledRow(held, b', settle);
    HoldIsCharged(b, held, b', input, i, cost);
  }

  lemma ReserveKeepsAgreement(b: Books, input: ReserveInput)
    requires UsagesAgree(b)
    ensures UsagesAgree(Reserve(b, input).0)
  {
    hide UsagesAgree;
    StepKeepsAgreement(b, DoReserve(input));
  }

  lemma RoomNamesAType(b: Books, input: ReserveInput)
    requires HasRoom(b, input)
    ensures input.kind != Unrecognised
  {
  }

  lemma RowMatches(b: Books, input: SettleInput)
    requires IsActive(b, input.auth) && b.auths[input.auth].account == input.account && b.auths[input.auth].kind == input.kind
    ensures Matches(b, input)
  {
  }

  lemma SettledRow(b: Books, b': Books, input: SettleInput)
    requires IsActive(b, input.auth) && Settled(b, b', input)
    ensures |b'.auths| == |b.auths| && b'.auths[input.auth].status == Committed && b'.auths[input.auth].actual == Some(input.cost)
  {
    hide Sum;
  }

  // ----- late settlement -----

  /** What a settlement that comes too late does: it takes the cost when it may, and
      otherwise disputes the usage; a committed authorization makes it a no-op. */
  lemma LateSettlementResult(b: Books, input: SettleInput, policy: RecoveryPolicy, fault: bool)
    requires (fault || !IsActive(b, input.auth)) && input.kind != Unrecognised && input.auth < |b.auths|
    ensures var (b', outcome) := Settle(b, input, policy, fault);
      && b'.auths == b.auths && b'.credits == b.credits && b'.creditLedger == b.creditLedger
      && (b.auths[input.auth].status == Committed ==> outcome == Ok(()) && b' == b)
      && (TakesUnplanned(b, input, policy) ==>
            && outcome == Ok(()) && b'.usages == b.usages[input.usage := Usage(Charged, input.cost)]
            && b'.wallets == b.wallets[input.account :=
                 Wallet(b.wallets[input.account].balance - input.cost, b.wallets[input.account].reserved)]
            && b'.walletLedger == b.walletLedger
                 + [WalletEntry(input.account, UnplannedDebit, input.cost, Some(input.usage), None)])
      && (b.auths[input.auth].status != Committed && !TakesUnplanned(b, input, policy) && outcome == Ok(()) ==>
            && b'.wallets == b.wallets && b'.walletLedger == b.walletLedger
            && b'.usages == if input.usage in b.usages
                            then b.usages[input.usage := b.usages[input.usage].(status := Disputed)] else b.usages)
      && (outcome != Ok(()) <==>
            && b.auths[input.auth].status != Committed && policy == BestEffort && input.kind == Prepaid
            && (|| input.account !in b.wallets
                || (&& input.cost <= b.wallets[input.account].balance - b.wallets[input.account].reserved
                    && (input.cost < 0.0 || input.usage !in b.usages))))
      && (outcome != Ok(()) ==> b' == b)
  {
  }

  /** An authorization that does not exist, and an unknown account type. */
  lemma SettlementOfNothing(b: Books, input: SettleInput, policy: RecoveryPolicy, fault: bool)
    ensures input.kind == Unrecognised ==> Settle(b, input, policy, fault) == (b, Err(UnknownAccountType))
    ensures input.kind != Unrecognised && input.auth >= |b.auths| ==> Settle(b, input, policy, fault) == (b, Err(LookupFailed))
  {
  }

  /** Evidence for a stale usage sets its cost and nothing else; the settlement that
      follows replaces that cost by the capped one. */
  lemma EvidenceIsReplacedByTheCharge(b: Books, i: nat, cost: real, policy: RecoveryPolicy, opening: map<AccountId, real>)
    requires Sound(b, opening) && UsagesAgree(b) && IsActive(b, i) && cost >= 0.0
    ensures var x := b.auths[i]; var marked := Apply(b, DoSweepUsage(x.usage, Some(cost)));
      var b' := Settle(marked, SettleInput(i, x.usage, x.account, x.kind, cost), policy, false).0;
      && x.usage in b.usages
      && marked == b.(usages := b.usages[x.usage := Usage(b.usages[x.usage].status, cost)])
      && b'.usages == marked.usages[x.usage := Usage(Charged, Min(cost, x.estimate))]
  {
    var x := b.auths[i];
    var marked := Apply(b, DoSweepUsage(x.usage, Some(cost)));
    var input := SettleInput(i, x.usage, x.account, x.kind, cost);
    assert x.usage in b.usages && (x.kind == Prepaid || x.kind == Postpaid);
    StepKeepsSound(b, DoSweepUsage(x.usage, Some(cost)), opening);
    StepKeepsAgreement(b, DoSweepUsage(x.usage, Some(cost)));
    hide Settle, Sound, UsagesAgree, Sum;
    SettlementAlwaysCommits(marked, input, policy, opening);
  }

  /** A stale usage without evidence is disputed, and its hold is given back. */
  lemma StaleUsageIsDisputed(b: Books, i: nat, opening: map<AccountId, real>)
    requires Sound(b, opening) && IsActive(b, i)
    ensures var x := b.auths[i];
      var marked := Apply(b, DoSweepUsage(x.usage, None));
      var b' := Apply(marked, DoRelease(i, x.usage, false));
      && x.usage in b'.usages && b'.usages[x.usage].status == Disputed
      && |b'.auths| == |b.auths| && b'.auths[i].status == Released
      && (b'.wallets, b'.credits) == HoldMoved(b, x.kind, x.account, -x.estimate)
  {
    hide *;
    var marked := SweepMarks(b, i, opening);
    var usage := b.auths[i].usage;
    GiveBackSucceedsIff(marked, i, usage, Released, opening);
    ReleasesActive(marked, i, usage);
    assert HoldMoved(marked, b.auths[i].kind, b.auths[i].account, -b.auths[i].estimate)
        == HoldMoved(b, b.auths[i].kind, b.auths[i].account, -b.auths[i].estimate) by { HoldsFollowAccounts(b, marked); }
  }

  lemma SweepMarks(b: Books, i: nat, opening: map<AccountId, real>) returns (marked: Books)
    requires Sound(b, opening) && IsActive(b, i)
    ensures i < |b.auths| && b.auths[i].usage in b.usages && marked == Apply(b, DoSweepUsage(b.auths[i].usage, None))
    ensures marked == b.(usages := b.usages[b.auths[i].usage := b.usages[b.auths[i].usage].(status := Disputed)])
    ensures Sound(marked, opening) && IsActive(marked, i)
  {
    StepKeepsSound(b, DoSweepUsage(b.auths[i].usage, None), opening);
    marked := Apply(b, DoSweepUsage(b.auths[i].usage, None));
    hide WalletSound, CreditSound, AuthSound;
  }

  lemma HoldsFollowAccounts(b: Books, b': Books)
    requires b'.wallets == b.wallets && b'.credits == b.credits
    ensures forall k, a, x :: HoldMoved(b', k, a, x) == HoldMoved(b, k, a, x)
  {
  }

  lemma ReleasesActive(b: Books, i: nat, usage: UsageId)
    requires IsActive(b, i)
    ensures Apply(b, DoRelease(i, usage, false)) == GiveBack(b, i, usage, Released).0
  {
    hide GiveBack;
  }
}
