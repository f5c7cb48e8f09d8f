/** What every billing transaction keeps: solvency, the two ledgers against the
    running totals, and each authorization against its own ledger entries. */
module BillingInvariant {
  import opened Common
  import opened BillingBooks

  // ----- weights -----

  /** What an authorization still holds on account `a`. */
  function Held(kind: AccountType, a: AccountId): Authorization -> real {
    (x: Authorization) => if x.kind == kind && x.account == a && x.status == Active then x.estimate else 0.0
  }

  /** What an authorization ever reserved on account `a`. */
  function EverReserved(kind: AccountType, a: AccountId): Authorization -> real {
    (x: Authorization) => if x.kind == kind && x.account == a then x.estimate else 0.0
  }

  function Posted(entryType: WalletEntryType, a: AccountId): WalletEntry -> real {
    (e: WalletEntry) => if e.entryType == entryType && e.account == a then e.amount else 0.0
  }

  function PostedFor(entryType: WalletEntryType, auth: nat): WalletEntry -> real {
    (e: WalletEntry) => if e.entryType == entryType && e.auth == Some(auth) then e.amount else 0.0
  }

  function CreditPosted(entryType: CreditEntryType, a: AccountId): CreditEntry -> real {
    (e: CreditEntry) => if e.entryType == entryType && e.account == a then e.amount else 0.0
  }

  function CreditPostedFor(entryType: CreditEntryType, auth: nat): CreditEntry -> real {
    (e: CreditEntry) => if e.entryType == entryType && e.auth == Some(auth) then e.amount else 0.0
  }

  // ----- the invariant -----

  /** Wallet `a` is solvent and agrees with the active authorizations and the
      ledger.  `opening[a]` is the balance that no ledger entry explains. */
  ghost predicate WalletSound(b: Books, opening: map<AccountId, real>, a: AccountId)
    requires a in b.wallets
  {
    var w := b.wallets[a];
    && a in opening
    && w.reserved == Sum(b.auths, Held(Prepaid, a))
    && 0.0 <= w.reserved <= w.balance
    && w.balance == opening[a] + Sum(b.walletLedger, Posted(Topup, a))
                    - Sum(b.walletLedger, Posted(Debit, a)) - Sum(b.walletLedger, Posted(UnplannedDebit, a))
    && Sum(b.auths, EverReserved(Prepaid, a))
       == w.reserved + Sum(b.walletLedger, Posted(Debit, a)) + Sum(b.walletLedger, Posted(Release, a))
  }

  ghost predicate CreditSound(b: Books, a: AccountId)
    requires a in b.credits
  {
    var c := b.credits[a];
    && c.exposure == Sum(b.auths, Held(Postpaid, a)) + c.settled
    && c.exposure == Sum(b.creditLedger, CreditPosted(CreditAuthorized, a))
                     - Sum(b.creditLedger, CreditPosted(CreditReleased, a))
    && c.settled == Sum(b.creditLedger, CreditPosted(CreditSettled, a))
    && 0.0 <= c.settled
    && c.exposure <= c.limit
  }

  /** The entries posted for authorization `i` are none while it is active and
      add up to its estimate once it is not; only a committed one is charged. */
  ghost predicate AuthSound(b: Books, i: nat)
    requires i < |b.auths|
  {
    var x := b.auths[i];
    var charged := Sum(b.walletLedger, PostedFor(Debit, i));
    var returned := Sum(b.walletLedger, PostedFor(Release, i));
    var settled := Sum(b.creditLedger, CreditPostedFor(CreditSettled, i));
    var freed := Sum(b.creditLedger, CreditPostedFor(CreditReleased, i));
    && x.estimate >= 0.0
    && (x.kind == Prepaid ==>
          && settled == 0.0 && freed == 0.0
          && charged + returned == (if x.status == Active then 0.0 else x.estimate)
          && (x.status == Committed ==>
                x.actual.Some? && x.actual.value >= 0.0 && charged == Min(x.actual.value, x.estimate))
          && (x.status != Committed ==> charged == 0.0))
    && (x.kind == Postpaid ==>
          && charged == 0.0 && returned == 0.0
          && settled + freed == (if x.status == Active then 0.0 else x.estimate)
          && (x.status == Committed ==>
                x.actual.Some? && x.actual.value >= 0.0 && settled == Min(x.actual.value, x.estimate))
          && (x.status != Committed ==> settled == 0.0))
  }

  /** Rows refer to rows that exist, and entries name only finished authorizations. */
  ghost predicate Linked(b: Books) {
    && (forall i, j :: 0 <= i < j < |b.auths| ==> b.auths[i].usage != b.auths[j].usage)
    && (forall i :: 0 <= i < |b.auths| ==>
          && b.auths[i].usage in b.usages
          && (b.auths[i].kind == Prepaid || b.auths[i].kind == Postpaid)
          && (b.auths[i].kind == Prepaid ==> b.auths[i].account in b.wallets)
          && (b.auths[i].kind == Postpaid ==> b.auths[i].account in b.credits))
    && (forall k :: 0 <= k < |b.walletLedger| ==> EntryLinked(b, b.walletLedger[k]))
    && (forall k :: 0 <= k < |b.creditLedger| ==> CreditEntryLinked(b, b.creditLedger[k]))
  }

  ghost predicate EntryLinked(b: Books, e: WalletEntry) {
    && (e.auth.Some? ==> e.auth.value < |b.auths| && b.auths[e.auth.value].status != Active)
    && (e.entryType == Debit ==> e.auth.Some?)
  }

  ghost predicate CreditEntryLinked(b: Books, e: CreditEntry) {
    && (e.auth.Some? ==> e.auth.value < |b.auths| && b.auths[e.auth.value].status != Active)
    && (e.entryType == CreditSettled ==> e.auth.Some?)
  }

  ghost predicate Sound(b: Books, opening: map<AccountId, real>) {
    && (forall a :: a in b.wallets ==> WalletSound(b, opening, a))
    && (forall a :: a in b.credits ==> CreditSound(b, a))
    && (forall i :: 0 <= i < |b.auths| ==> AuthSound(b, i))
    && Linked(b)
  }

  /** Books before the first request: funds, top-ups and limits, but no history. */
  ghost predicate Opening(b: Books) {
    && b.auths == [] && b.creditLedger == []
    && (forall k :: 0 <= k < |b.walletLedger| ==> b.walletLedger[k].entryType == Topup && b.walletLedger[k].auth == None)
    && (forall a :: a in b.wallets ==> b.wallets[a].reserved == 0.0 <= b.wallets[a].balance)
    && (forall a :: a in b.credits ==>
          b.credits[a].exposure == b.credits[a].settled == 0.0 <= b.credits[a].limit)
  }

  /** What each wallet holds that no top-up entry explains. */
  function OpeningBalances(b: Books): map<AccountId, real> {
    map a | a in b.wallets :: b.wallets[a].balance - Sum(b.walletLedger, Posted(Topup, a))
  }

  lemma OpeningIsSound(b: Books)
    requires Opening(b)
    ensures Sound(b, OpeningBalances(b))
  {
    forall a | a in b.wallets ensures WalletSound(b, OpeningBalances(b), a) {
      SumZero(b.walletLedger, Posted(Debit, a));
      SumZero(b.walletLedger, Posted(Release, a));
      SumZero(b.walletLedger, Posted(UnplannedDebit, a));
    }
  }

  // ----- how the sums move -----

  lemma AuthAppended(rows: seq<Authorization>, x: Authorization)
    ensures forall k, a :: Sum(rows + [x], Held(k, a)) == Sum(rows, Held(k, a)) + Held(k, a)(x)
    ensures forall k, a :: Sum(rows + [x], EverReserved(k, a)) == Sum(rows, EverReserved(k, a)) + EverReserved(k, a)(x)
  {
    forall k, a { SumAppend(rows, x, Held(k, a)); }
    forall k, a { SumAppend(rows, x, EverReserved(k, a)); }
  }

  lemma AuthUpdated(rows: seq<Authorization>, i: nat, x: Authorization)
    requires i < |rows|
    requires x.kind == rows[i].kind && x.account == rows[i].account && x.estimate == rows[i].estimate
    ensures forall k, a :: Sum(rows[i := x], Held(k, a)) == Sum(rows, Held(k, a)) - Held(k, a)(rows[i]) + Held(k, a)(x)
    ensures forall k, a :: Sum(rows[i := x], EverReserved(k, a)) == Sum(rows, EverReserved(k, a))
  {
    forall k, a { SumUpdate(rows, i, x, Held(k, a)); }
    forall k, a { SumUpdate(rows, i, x, EverReserved(k, a)); }
  }

  lemma EntryPosted(rows: seq<WalletEntry>, e: WalletEntry)
    ensures forall k, a :: Sum(rows + [e], Posted(k, a)) == Sum(rows, Posted(k, a)) + Posted(k, a)(e)
    ensures forall k, i :: Sum(rows + [e], PostedFor(k, i)) == Sum(rows, PostedFor(k, i)) + PostedFor(k, i)(e)
  {
    forall k, a { SumAppend(rows, e, Posted(k, a)); }
    forall k, i { SumAppend(rows, e, PostedFor(k, i)); }
  }

  lemma CreditEntryPosted(rows: seq<CreditEntry>, e: CreditEntry)
    ensures forall k, a :: Sum(rows + [e], CreditPosted(k, a)) == Sum(rows, CreditPosted(k, a)) + CreditPosted(k, a)(e)
    ensures forall k, i :: Sum(rows + [e], CreditPostedFor(k, i)) == Sum(rows, CreditPostedFor(k, i)) + CreditPostedFor(k, i)(e)
  {
    forall k, a { SumAppend(rows, e, CreditPosted(k, a)); }
    forall k, i { SumAppend(rows, e, CreditPostedFor(k, i)); }
  }

  /** The whole wallet posting of a settlement charges `charge` and returns the rest. */
  lemma PostingTotals(rows: seq<WalletEntry>, input: SettleInput, estimate: real)
    ensures forall k, a {:trigger Sum(rows + WalletPosting(input, estimate), Posted(k, a))} ::
      Sum(rows + WalletPosting(input, estimate), Posted(k, a))
      == Sum(rows, Posted(k, a)) + (if a != input.account then 0.0 else Share(k, input.cost, estimate))
    ensures forall k, i {:trigger Sum(rows + WalletPosting(input, estimate), PostedFor(k, i))} ::
      Sum(rows + WalletPosting(input, estimate), PostedFor(k, i))
      == Sum(rows, PostedFor(k, i)) + (if i != input.auth then 0.0 else Share(k, input.cost, estimate))
  {
    var charge := Min(input.cost, estimate);
    var d := DebitEntry(input, charge);
    EntryPosted(rows, d);
    if charge < estimate {
      var r := ReleaseEntry(input, estimate - charge);
      EntryPosted(rows + [d], r);
      assert rows + [d] + [r] == rows + WalletPosting(input, estimate);
    }
  }

  /** How a settlement divides an estimate between the entry types. */
  function Share(k: WalletEntryType, cost: real, estimate: real): real {
    match k
    case Debit => Min(cost, estimate)
    case Release => estimate - Min(cost, estimate)
    case _ => 0.0
  }

  function CreditShare(k: CreditEntryType, cost: real, estimate: real): real {
    match k
    case CreditSettled => Min(cost, estimate)
    case CreditReleased => estimate - Min(cost, estimate)
    case CreditAuthorized => 0.0
  }

  lemma CreditPostingTotals(rows: seq<CreditEntry>, input: SettleInput, estimate: real)
    ensures forall k, a {:trigger Sum(rows + CreditPosting(input, estimate), CreditPosted(k, a))} ::
      Sum(rows + CreditPosting(input, estimate), CreditPosted(k, a))
      == Sum(rows, CreditPosted(k, a)) + (if a != input.account then 0.0 else CreditShare(k, input.cost, estimate))
    ensures forall k, i {:trigger Sum(rows + CreditPosting(input, estimate), CreditPostedFor(k, i))} ::
      Sum(rows + CreditPosting(input, estimate), CreditPostedFor(k, i))
      == Sum(rows, CreditPostedFor(k, i)) + (if i != input.auth then 0.0 else CreditShare(k, input.cost, estimate))
  {
    var charge := Min(input.cost, estimate);
    var d := SettledEntry(input, charge);
    CreditEntryPosted(rows, d);
    if charge < estimate {
      var r := CreditReturnEntry(input, estimate - charge);
      CreditEntryPosted(rows + [d], r);
      assert rows + [d] + [r] == rows + CreditPosting(input, estimate);
    }
  }

  /** An active authorization's estimate is part of what its account holds. */
  lemma HeldIsPart(b: Books, opening: map<AccountId, real>, i: nat)
    requires Sound(b, opening) && IsActive(b, i)
    ensures b.auths[i].estimate <= Sum(b.auths, Held(b.auths[i].kind, b.auths[i].account))
  {
    var x := b.auths[i];
    forall k | 0 <= k < |b.auths| ensures Held(x.kind, x.account)(b.auths[k]) >= 0.0 {
      assert AuthSound(b, k);
    }
    SumBoundsRow(b.auths, i, Held(x.kind, x.account));
  }

  /** A new authorization has no entries yet. */
  lemma NoEntriesYet(b: Books, i: nat)
    requires Linked(b) && i >= |b.auths|
    ensures forall k :: Sum(b.walletLedger, PostedFor(k, i)) == 0.0
    ensures forall k :: Sum(b.creditLedger, CreditPostedFor(k, i)) == 0.0
  {
    forall k ensures Sum(b.walletLedger, PostedFor(k, i)) == 0.0 {
      assert forall n :: 0 <= n < |b.walletLedger| ==> EntryLinked(b, b.walletLedger[n]);
      SumZero(b.walletLedger, PostedFor(k, i));
    }
    forall k ensures Sum(b.creditLedger, CreditPostedFor(k, i)) == 0.0 {
      assert forall n :: 0 <= n < |b.creditLedger| ==> CreditEntryLinked(b, b.creditLedger[n]);
      SumZero(b.creditLedger, CreditPostedFor(k, i));
    }
  }
}
