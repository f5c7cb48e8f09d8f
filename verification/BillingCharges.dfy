/** What a usage is charged: when a settlement commits, and what all charges of a
    usage add up to over any run, under either policy. */
module BillingCharges {
  import opened Common
  import opened BillingBooks
  import opened BillingInvariant
  import opened BillingSafety
  import opened BillingTheorems

  // ----- when a settlement commits -----

  /** A usage is charged at most once in its own ledger. */
  predicate AlreadyCharged(b: Books, kind: AccountType, usage: UsageId) {
    match kind
    case Prepaid => DebitExists(b.walletLedger, usage)
    case Postpaid => SettledExists(b.creditLedger, usage)
    case Unrecognised => false
  }

  /** What a settlement that commits has done. */
  ghost predicate Settled(b: Books, b': Books, input: SettleInput)
    requires IsActive(b, input.auth)
  {
    var x := b.auths[input.auth];
    var charge := Min(input.cost, x.estimate);
    && b'.auths == b.auths[input.auth := Authorization(x.usage, x.account, x.kind, x.estimate, Committed, Some(input.cost))]
    && b'.usages == b.usages[input.usage := Usage(Charged, charge)]
    && (input.kind == Prepaid ==>
          && input.account in b.wallets && b'.credits == b.credits
          && b'.wallets == b.wallets[input.account :=
               Wallet(b.wallets[input.account].balance - charge, b.wallets[input.account].reserved - x.estimate)]
          && Sum(b'.walletLedger, PostedFor(Debit, input.auth)) == charge)
    && (input.kind == Postpaid ==>
          && input.account in b.credits && b'.wallets == b.wallets
          && b'.credits == b.credits[input.account := Credit(b.credits[input.account].limit,
               b.credits[input.account].exposure - (x.estimate - charge), b.credits[input.account].settled + charge)]
          && Sum(b'.creditLedger, CreditPostedFor(CreditSettled, input.auth)) == charge)
  }

  /** In sound books a settlement of an active authorization on its own account
      commits exactly when the usage it names exists and is not charged yet; the
      release index and the row checks never stand in the way. */
  lemma SettlementCommitsIff(b: Books, input: SettleInput, policy: RecoveryPolicy, opening: map<AccountId, real>)
    requires Sound(b, opening) && IsActive(b, input.auth) && Matches(b, input)
    requires input.kind != Unrecognised && input.cost >= 0.0
    ensures var (b', outcome) := Settle(b, input, policy, false);
      && (outcome == Ok(()) <==> input.usage in b.usages && !AlreadyCharged(b, input.kind, input.usage))
      && (outcome != Ok(()) ==> b' == b)
      && (outcome == Ok(()) ==> Settled(b, b', input))
  {
    hide Sum;
    ChargeIsAllowed(b, input, opening);
    NothingPosted(b, input.auth, opening);
    hide Sound, AllowedRow, ChargedWallet, DebitExists, SettledExists;
    PostingTotals(b.walletLedger, input, b.auths[input.auth].estimate);
    CreditPostingTotals(b.creditLedger, input, b.auths[input.auth].estimate);
    hide WalletPosting, CreditPosting;
    if input.kind == Prepaid { PrepaidCommits(b, input); } else { PostpaidCommits(b, input); }
    hide CommitPrepaid, CommitPostpaid;
  }

  /** No entry names an active authorization yet. */
  lemma NothingPosted(b: Books, i: nat, opening: map<AccountId, real>)
    requires Sound(b, opening) && IsActive(b, i)
    ensures !ReleaseExists(b.walletLedger, i) && !CreditReleaseExists(b.creditLedger, i)
    ensures b.auths[i].kind == Prepaid ==> Sum(b.walletLedger, PostedFor(Debit, i)) == 0.0
    ensures b.auths[i].kind == Postpaid ==> Sum(b.creditLedger, CreditPostedFor(CreditSettled, i)) == 0.0
    ensures b.auths[i].estimate >= 0.0
  {
    hide Sum;
    assert AuthSound(b, i);
    forall k | 0 <= k < |b.walletLedger| ensures b.walletLedger[k].auth != Some(i) {
      assert EntryLinked(b, b.walletLedger[k]);
    }
    forall k | 0 <= k < |b.creditLedger| ensures b.creditLedger[k].auth != Some(i) {
      assert CreditEntryLinked(b, b.creditLedger[k]);
    }
  }

  lemma PrepaidCommits(b: Books, input: SettleInput)
    requires IsActive(b, input.auth) && input.kind == Prepaid && input.cost >= 0.0 && b.auths[input.auth].estimate >= 0.0
    requires input.account in b.wallets && !ReleaseExists(b.walletLedger, input.auth)
    requires AllowedRow(ChargedWallet(b.wallets[input.account], Min(input.cost, b.auths[input.auth].estimate), b.auths[input.auth].estimate))
    requires Sum(b.walletLedger + WalletPosting(input, b.auths[input.auth].estimate), PostedFor(Debit, input.auth))
      == Min(input.cost, b.auths[input.auth].estimate)
    ensures var (b', outcome) := CommitPrepaid(b, input);
      && (outcome == Ok(()) <==> input.usage in b.usages && !DebitExists(b.walletLedger, input.usage))
      && (outcome != Ok(()) ==> b' == b) && (outcome == Ok(()) ==> Settled(b, b', input))
  {
    hide Sum, WalletPosting, DebitExists, ReleaseExists, AllowedRow;
  }

  lemma PostpaidCommits(b: Books, input: SettleInput)
    requires IsActive(b, input.auth) && input.kind == Postpaid && input.cost >= 0.0 && b.auths[input.auth].estimate >= 0.0
    requires input.account in b.credits && !CreditReleaseExists(b.creditLedger, input.auth)
    requires b.credits[input.account].exposure >= b.auths[input.auth].estimate
    requires Sum(b.creditLedger + CreditPosting(input, b.auths[input.auth].estimate), CreditPostedFor(CreditSettled, input.auth))
      == Min(input.cost, b.auths[input.auth].estimate)
    ensures var (b', outcome) := CommitPostpaid(b, input);
      && (outcome == Ok(()) <==> input.usage in b.usages && !SettledExists(b.creditLedger, input.usage))
      && (outcome != Ok(()) ==> b' == b) && (outcome == Ok(()) ==> Settled(b, b', input))
  {
    hide Sum, CreditPosting, SettledExists, CreditReleaseExists;
  }

  /** The account's own hold covers the charge: the checks on its row never fire. */
  lemma ChargeIsAllowed(b: Books, input: SettleInput, opening: map<AccountId, real>)
    requires Sound(b, opening) && IsActive(b, input.auth) && Matches(b, input) && input.kind != Unrecognised && input.cost >= 0.0
    ensures input.kind == Prepaid ==> input.account in b.wallets && AllowedRow(ChargedWallet(b.wallets[input.account],
      Min(input.cost, b.auths[input.auth].estimate), b.auths[input.auth].estimate))
    ensures input.kind == Postpaid ==>
      input.account in b.credits && b.credits[input.account].exposure >= b.auths[input.auth].estimate
  {
    hide Sum;
    HeldIsPart(b, opening, input.auth);
    assert AuthSound(b, input.auth);
    if input.kind == Prepaid { assert WalletSound(b, opening, input.account); } else { assert CreditSound(b, input.account); }
  }

  // ----- entries name their authorization's usage -----

  ghost predicate UsagesAgree(b: Books) {
    && (forall k :: 0 <= k < |b.walletLedger| && b.walletLedger[k].entryType == Debit ==> EntryAgrees(b, b.walletLedger[k]))
    && (forall k :: 0 <= k < |b.creditLedger| && b.creditLedger[k].entryType == CreditSettled ==> CreditEntryAgrees(b, b.creditLedger[k]))
  }

  predicate EntryAgrees(b: Books, e: WalletEntry) {
    e.auth.Some? && e.auth.value < |b.auths| && e.usage == Some(b.auths[e.auth.value].usage)
  }

  predicate CreditEntryAgrees(b: Books, e: CreditEntry) {
    e.auth.Some? && e.auth.value < |b.auths| && e.usage == Some(b.auths[e.auth.value].usage)
  }

  /** A settlement that commits names the authorization's own usage. */
  predicate NamesUsage(b: Books, e: Event) {
    e.DoSettle? && !e.fault && IsActive(b, e.settle.auth) ==> b.auths[e.settle.auth].usage == e.settle.usage
  }

  predicate NamingRun(b: Books, es: seq<Event>)
    decreases |es|
  {
    es == [] || (NamesUsage(b, es[0]) && NamingRun(Apply(b, es[0]), es[1..]))
  }

  /** Entries were only appended, and the only charge among them is `input`'s. */
  ghost predicate Appends(b: Books, b': Books, input: SettleInput) {
    && b.walletLedger <= b'.walletLedger && b.creditLedger <= b'.creditLedger
    && (forall k :: |b.walletLedger| <= k < |b'.walletLedger| && b'.walletLedger[k].entryType == Debit ==>
          b'.walletLedger[k].auth == Some(input.auth) && b'.walletLedger[k].usage == Some(input.usage))
    && (forall k :: |b.creditLedger| <= k < |b'.creditLedger| && b'.creditLedger[k].entryType == CreditSettled ==>
          b'.creditLedger[k].auth == Some(input.auth) && b'.creditLedger[k].usage == Some(input.usage))
  }

  /** No charge was appended. */
  ghost predicate AppendsNoCharge(b: Books, b': Books) {
    && b.walletLedger <= b'.walletLedger && b.creditLedger <= b'.creditLedger
    && (forall k :: |b.walletLedger| <= k < |b'.walletLedger| ==> b'.walletLedger[k].entryType != Debit)
    && (forall k :: |b.creditLedger| <= k < |b'.creditLedger| ==> b'.creditLedger[k].entryType != CreditSettled)
  }

  lemma SettleAppends(b: Books, input: SettleInput, policy: RecoveryPolicy, fault: bool)
    ensures Appends(b, Settle(b, input, policy, fault).0, input)
    ensures fault || !IsActive(b, input.auth) ==> AppendsNoCharge(b, Settle(b, input, policy, fault).0)
  {
    hide DebitExists, ReleaseExists, SettledExists, CreditReleaseExists, Finalised, MarkedDisputed;
  }

  lemma OthersAppend(b: Books, e: Event)
    requires !e.DoSettle?
    ensures AppendsNoCharge(b, Apply(b, e))
  {
    hide Settle, UsageTaken, ReleaseExists, CreditReleaseExists, Marked;
  }

  lemma StepKeepsAgreement(b: Books, e: Event)
    requires UsagesAgree(b) && NamesUsage(b, e)
    ensures UsagesAgree(Apply(b, e))
  {
    var b' := Apply(b, e);
    if e.DoSettle? { SettleAppends(b, e.settle, e.policy, e.fault); } else { OthersAppend(b, e); }
    StepContinues(b, e);
    hide Settle, Reserve, GiveBack;
    forall k | 0 <= k < |b'.walletLedger| && b'.walletLedger[k].entryType == Debit ensures EntryAgrees(b', b'.walletLedger[k]) {
      assert k < |b.walletLedger| ==> EntryAgrees(b, b.walletLedger[k]);
    }
    forall k | 0 <= k < |b'.creditLedger| && b'.creditLedger[k].entryType == CreditSettled
      ensures CreditEntryAgrees(b', b'.creditLedger[k])
    {
      assert k < |b.creditLedger| ==> CreditEntryAgrees(b, b.creditLedger[k]);
    }
  }

  lemma {:induction false} RunKeepsAgreement(b: Books, es: seq<Event>)
    requires UsagesAgree(b) && NamingRun(b, es)
    ensures UsagesAgree(Run(b, es))
    decreases |es|
  {
    hide UsagesAgree, Apply;
    if es != [] {
      StepKeepsAgreement(b, es[0]);
      RunKeepsAgreement(Apply(b, es[0]), es[1..]);
    }
  }

  /** While callers name the right usage, settling an active authorization is
      never refused: no unique index, check or foreign key stands in the way. */
  lemma SettlementAlwaysCommits(b: Books, input: SettleInput, policy: RecoveryPolicy, opening: map<AccountId, real>)
    requires Sound(b, opening) && UsagesAgree(b) && IsActive(b, input.auth) && Matches(b, input)
    requires input.usage == b.auths[input.auth].usage && input.kind != Unrecognised && input.cost >= 0.0
    ensures Settle(b, input, policy, false).1 == Ok(()) && Settled(b, Settle(b, input, policy, false).0, input)
  {
    SettlementCommitsIff(b, input, policy, opening);
    NotDebitedYet(b, input.auth);
    NotSettledYet(b, input.auth);
    hide *;
    assert input.usage in b.usages && !AlreadyCharged(b, input.kind, input.usage) by { UsageIsKnown(b, input.auth, input.kind); }
  }

  lemma UsageIsKnown(b: Books, i: nat, kind: AccountType)
    requires Linked(b) && i < |b.auths|
    requires !DebitExists(b.walletLedger, b.auths[i].usage) && !SettledExists(b.creditLedger, b.auths[i].usage)
    ensures b.auths[i].usage in b.usages && !AlreadyCharged(b, kind, b.auths[i].usage)
  {
  }

  lemma NotDebitedYet(b: Books, i: nat)
    requires Linked(b) && UsagesAgree(b) && IsActive(b, i)
    ensures !DebitExists(b.walletLedger, b.auths[i].usage)
  {
    forall k | 0 <= k < |b.walletLedger| && b.walletLedger[k].entryType == Debit
      ensures b.walletLedger[k].usage != Some(b.auths[i].usage)
    {
      assert EntryAgrees(b, b.walletLedger[k]) && EntryLinked(b, b.walletLedger[k]);
    }
  }

  lemma NotSettledYet(b: Books, i: nat)
    requires Linked(b) && UsagesAgree(b) && IsActive(b, i)
    ensures !SettledExists(b.creditLedger, b.auths[i].usage)
  {
    forall k | 0 <= k < |b.creditLedger| && b.creditLedger[k].entryType == CreditSettled
      ensures b.creditLedger[k].usage != Some(b.auths[i].usage)
    {
      assert CreditEntryAgrees(b, b.creditLedger[k]) && CreditEntryLinked(b, b.creditLedger[k]);
    }
  }

  // ----- all charges of a usage -----

  function ChargedTo(usage: UsageId): WalletEntry -> real {
    (e: WalletEntry) => if (e.entryType == Debit || e.entryType == UnplannedDebit) && e.usage == Some(usage) then e.amount else 0.0
  }

  function UnplannedTo(usage: UsageId): WalletEntry -> real {
    (e: WalletEntry) => if e.entryType == UnplannedDebit && e.usage == Some(usage) then e.amount else 0.0
  }

  /** What a step takes for `usage` outside any reservation. */
  function LateCharge(b: Books, e: Event, usage: UsageId): real {
    if e.DoSettle? && (e.fault || !IsActive(b, e.settle.auth)) && e.settle.usage == usage && TakesUnplanned(b, e.settle, e.policy)
    then e.settle.cost else 0.0
  }

  function LateCharges(b: Books, es: seq<Event>, usage: UsageId): real
    decreases |es|
  {
    if es == [] then 0.0 else LateCharge(b, es[0], usage) + LateCharges(Apply(b, es[0]), es[1..], usage)
  }

  lemma SettleTakesLate(b: Books, input: SettleInput, policy: RecoveryPolicy, fault: bool, usage: UsageId)
    ensures Sum(Settle(b, input, policy, fault).0.walletLedger, UnplannedTo(usage))
         == Sum(b.walletLedger, UnplannedTo(usage)) + LateCharge(b, DoSettle(input, policy, fault), usage)
  {
    hide Sum, DebitExists, ReleaseExists, SettledExists, CreditReleaseExists, Finalised, MarkedDisputed;
    var b' := Settle(b, input, policy, fault).0;
    var unplanned := WalletEntry(input.account, UnplannedDebit, input.cost, Some(input.usage), None);
    SumAppend(b.walletLedger, unplanned, UnplannedTo(usage));
    if !fault && IsActive(b, input.auth) && b'.walletLedger != b.walletLedger {
      var estimate := b.auths[input.auth].estimate;
      var charge := Min(input.cost, estimate);
      var d, r := DebitEntry(input, charge), ReleaseEntry(input, estimate - charge);
      SumAppend(b.walletLedger, d, UnplannedTo(usage));
      SumAppend(b.walletLedger + [d], r, UnplannedTo(usage));
      assert b.walletLedger + [d] + [r] == b.walletLedger + [d, r];
    }
  }

  lemma StepTakesLate(b: Books, e: Event, usage: UsageId)
    ensures Sum(Apply(b, e).walletLedger, UnplannedTo(usage)) == Sum(b.walletLedger, UnplannedTo(usage)) + LateCharge(b, e, usage)
  {
    hide Sum, Settle, UsageTaken, ReleaseExists, CreditReleaseExists, Marked;
    if e.DoSettle? {
      SettleTakesLate(b, e.settle, e.policy, e.fault, usage);
    } else if (e.DoRelease? || e.DoExpire?) && IsActive(b, e.auth) {
      var x := b.auths[e.auth];
      SumAppend(b.walletLedger, WalletEntry(x.account, Release, x.estimate, None, Some(e.auth)), UnplannedTo(usage));
    }
  }

  lemma {:induction false} RunTakesLate(b: Books, es: seq<Event>, usage: UsageId)
    ensures Sum(Run(b, es).walletLedger, UnplannedTo(usage)) == Sum(b.walletLedger, UnplannedTo(usage)) + LateCharges(b, es, usage)
    decreases |es|
  {
    hide Sum, Apply, LateCharge;
    if es != [] {
      StepTakesLate(b, es[0], usage);
      RunTakesLate(Apply(b, es[0]), es[1..], usage);
    }
  }

  lemma {:induction false} ChargesSplit(b: Books, rows: seq<WalletEntry>, i: nat)
    requires i < |b.auths| && forall j, k :: 0 <= j < k < |b.auths| ==> b.auths[j].usage != b.auths[k].usage
    requires forall k :: 0 <= k < |rows| && rows[k].entryType == Debit ==> EntryAgrees(b, rows[k])
    ensures var u := b.auths[i].usage;
      Sum(rows, ChargedTo(u)) == Sum(rows, PostedFor(Debit, i)) + Sum(rows, UnplannedTo(u))
  {
    if rows != [] {
      var n := |rows| - 1;
      ChargesSplit(b, rows[..n], i);
      assert rows[n].entryType == Debit ==> EntryAgrees(b, rows[n]);
    }
  }

  /** All wallet charges ever made for a usage, in any run under either policy,
      are the capped cost of its authorization, if that was committed, and the
      costs of the late settlements that found unreserved money. */
  lemma ChargesOfAUsage(b: Books, es: seq<Event>, i: nat)
    requires Opening(b) && FaithfulRun(b, es) && NamingRun(b, es) && i < |Run(b, es).auths|
    ensures var r := Run(b, es); var x := r.auths[i];
      && (x.status == Committed ==> x.actual.Some? && x.actual.value >= 0.0)
      && Sum(r.walletLedger, ChargedTo(x.usage))
         == (if x.kind == Prepaid && x.status == Committed then Min(x.actual.value, x.estimate) else 0.0)
            + LateCharges(b, es, x.usage)
  {
    hide Sum;
    OpeningIsSound(b);
    RunKeepsSound(b, es, OpeningBalances(b));
    RunKeepsAgreement(b, es);
    var r := Run(b, es);
    RunTakesLate(b, es, r.auths[i].usage);
    SumZero(b.walletLedger, UnplannedTo(r.auths[i].usage));
    hide Run, LateCharges;
    ChargesSplit(r, r.walletLedger, i);
    assert AuthSound(r, i);
  }

  ghost predicate NothingUnplanned(b: Books) {
    forall k :: 0 <= k < |b.walletLedger| ==> b.walletLedger[k].entryType != UnplannedDebit
  }

  lemma WriteOffStep(b: Books, e: Event)
    requires NothingUnplanned(b) && (e.DoSettle? ==> e.policy == WriteOff)
    ensures NothingUnplanned(Apply(b, e))
  {
    hide UsageTaken, DebitExists, ReleaseExists, SettledExists, CreditReleaseExists;
    hide Marked, Finalised, MarkedDisputed, CreditPosting;
  }

  lemma {:induction false} WriteOffPlansEverything(b: Books, es: seq<Event>)
    requires NothingUnplanned(b)
    requires forall k :: 0 <= k < |es| && es[k].DoSettle? ==> es[k].policy == WriteOff
    ensures NothingUnplanned(Run(b, es))
    decreases |es|
  {
    if es != [] {
      WriteOffStep(b, es[0]);
      hide Apply, NothingUnplanned;
      WriteOffPlansEverything(Apply(b, es[0]), es[1..]);
    }
  }

  lemma {:induction false} WriteOffTakesNothing(b: Books, es: seq<Event>, usage: UsageId)
    requires forall k :: 0 <= k < |es| && es[k].DoSettle? ==> es[k].policy == WriteOff
    ensures LateCharges(b, es, usage) == 0.0
    decreases |es|
  {
    hide Apply;
    if es != [] {
      WriteOffTakesNothing(Apply(b, es[0]), es[1..], usage);
    }
  }

  /** So under write_off a usage is charged once, at most its estimate. */
  lemma ChargedOnceAndCapped(b: Books, es: seq<Event>, i: nat)
    requires Opening(b) && FaithfulRun(b, es) && NamingRun(b, es)
    requires forall k :: 0 <= k < |es| && es[k].DoSettle? ==> es[k].policy == WriteOff
    requires i < |Run(b, es).auths| && Run(b, es).auths[i].kind == Prepaid
    ensures var r := Run(b, es); var x := r.auths[i];
      var charged := Sum(r.walletLedger, ChargedTo(x.usage));
      && 0.0 <= charged <= x.estimate
      && (x.status == Committed ==> x.actual.Some? && charged == Min(x.actual.value, x.estimate))
      && (x.status != Committed ==> charged == 0.0)
  {
    hide Sum;
    OpeningIsSound(b);
    RunKeepsSound(b, es, OpeningBalances(b));
    ChargesOfAUsage(b, es, i);
    WriteOffTakesNothing(b, es, Run(b, es).auths[i].usage);
    hide Run, LateCharges;
    assert AuthSound(Run(b, es), i);
  }
}
