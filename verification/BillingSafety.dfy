/** Every billing transaction keeps the books sound, so every run does. */
module BillingSafety {
  import opened Common
  import opened BillingBooks
  import opened BillingInvariant

  /** What a prepaid reservation that succeeds has done, and found out before. */
  lemma ReservedPrepaid(b: Books, input: ReserveInput)
    requires ReservePrepaid(b, input).0.auths != b.auths
    ensures var b' := ReservePrepaid(b, input).0;
      && input.account in b.wallets && input.usage in b.usages && !UsageTaken(b.auths, input.usage)
      && 0.0 <= input.estimate <= b.wallets[input.account].balance - b.wallets[input.account].reserved
      && b'.auths == b.auths + [NewAuthorization(input)]
      && b'.wallets == b.wallets[input.account :=
           b.wallets[input.account].(reserved := b.wallets[input.account].reserved + input.estimate)]
      && b'.credits == b.credits && b'.walletLedger == b.walletLedger && b'.creditLedger == b.creditLedger
      && b'.usages.Keys == b.usages.Keys
  {
    MarkedKeepsKeys(b.usages, input.usage, Pending, Reserved);
    hide Marked, UsageTaken;
  }

  lemma ReservedPostpaid(b: Books, input: ReserveInput)
    requires ReservePostpaid(b, input).0.auths != b.auths
    ensures var b' := ReservePostpaid(b, input).0;
      && input.account in b.credits && input.usage in b.usages && !UsageTaken(b.auths, input.usage)
      && 0.0 <= input.estimate <= b.credits[input.account].limit - b.credits[input.account].exposure
      && b'.auths == b.auths + [NewAuthorization(input)]
      && b'.credits == b.credits[input.account :=
           b.credits[input.account].(exposure := b.credits[input.account].exposure + input.estimate)]
      && b'.wallets == b.wallets && b'.walletLedger == b.walletLedger && b'.usages.Keys == b.usages.Keys
      && b'.creditLedger == b.creditLedger
           + [CreditEntry(input.account, CreditAuthorized, input.estimate, Some(input.usage), None)]
  {
    MarkedKeepsKeys(b.usages, input.usage, Pending, Reserved);
    hide Marked, UsageTaken;
  }

  lemma ReservePrepaidKeepsSound(b: Books, input: ReserveInput, opening: map<AccountId, real>)
    requires Sound(b, opening) && input.kind == Prepaid
    ensures Sound(ReservePrepaid(b, input).0, opening)
  {
    hide Sum, UsageTaken, Marked;
    var b' := ReservePrepaid(b, input).0;
    if b'.auths != b.auths {
      ReservedPrepaid(b, input);
      hide ReservePrepaid;
      AuthAppended(b.auths, NewAuthorization(input));
      WalletHoldsMore(b, b', input.account, input.estimate, opening);
      hide WalletSound, AuthSound, CreditSound;
      CreditsKept(b, b');
      AuthsExtended(b, b', NewAuthorization(input));
      AppendKeepsLinked(b, b', NewAuthorization(input));
    }
  }

  lemma MarkedKeepsKeys(usages: map<UsageId, Usage>, usage: UsageId, was: BillingStatus, now: BillingStatus)
    ensures Marked(usages, usage, was, now).Keys == usages.Keys
  {
  }

  lemma ReservePostpaidKeepsSound(b: Books, input: ReserveInput, opening: map<AccountId, real>)
    requires Sound(b, opening) && input.kind == Postpaid
    ensures Sound(ReservePostpaid(b, input).0, opening)
  {
    hide Sum, UsageTaken, Marked;
    var b' := ReservePostpaid(b, input).0;
    if b'.auths != b.auths {
      ReservedPostpaid(b, input);
      hide ReservePostpaid;
      AuthAppended(b.auths, NewAuthorization(input));
      CreditEntryPosted(b.creditLedger,
        CreditEntry(input.account, CreditAuthorized, input.estimate, Some(input.usage), None));
      CreditHoldsMore(b, b', input.account, input.estimate);
      hide WalletSound, AuthSound, CreditSound;
      WalletsKept(b, b', opening);
      AuthsExtended(b, b', NewAuthorization(input));
      AppendKeepsLinked(b, b', NewAuthorization(input));
    }
  }

  /** A wallet with room for a new hold stays sound with it. */
  lemma WalletHoldsMore(b: Books, b': Books, a: AccountId, estimate: real, opening: map<AccountId, real>)
    requires forall n :: n in b.wallets ==> WalletSound(b, opening, n)
    requires a in b.wallets && 0.0 <= estimate <= b.wallets[a].balance - b.wallets[a].reserved
    requires b'.wallets == b.wallets[a := b.wallets[a].(reserved := b.wallets[a].reserved + estimate)]
    requires b'.walletLedger == b.walletLedger
    requires forall n :: Sum(b'.auths, Held(Prepaid, n)) == Sum(b.auths, Held(Prepaid, n)) + (if n == a then estimate else 0.0)
    requires forall n :: Sum(b'.auths, EverReserved(Prepaid, n)) == Sum(b.auths, EverReserved(Prepaid, n)) + (if n == a then estimate else 0.0)
    ensures forall n :: n in b'.wallets ==> WalletSound(b', opening, n)
  {
    hide Sum;
    forall n | n in b'.wallets ensures WalletSound(b', opening, n) { assert WalletSound(b, opening, n); }
  }

  lemma CreditHoldsMore(b: Books, b': Books, a: AccountId, estimate: real)
    requires forall n :: n in b.credits ==> CreditSound(b, n)
    requires a in b.credits && 0.0 <= estimate <= b.credits[a].limit - b.credits[a].exposure
    requires b'.credits == b.credits[a := b.credits[a].(exposure := b.credits[a].exposure + estimate)]
    requires forall n :: Sum(b'.auths, Held(Postpaid, n)) == Sum(b.auths, Held(Postpaid, n)) + (if n == a then estimate else 0.0)
    requires forall k, n ::
      Sum(b'.creditLedger, CreditPosted(k, n))
      == Sum(b.creditLedger, CreditPosted(k, n)) + (if k == CreditAuthorized && n == a then estimate else 0.0)
    ensures forall n :: n in b'.credits ==> CreditSound(b', n)
  {
    hide Sum;
    forall n | n in b'.credits ensures CreditSound(b', n) { assert CreditSound(b, n); }
  }

  /** Credit accounts are untouched when no postpaid row moves. */
  lemma CreditsKept(b: Books, b': Books)
    requires forall a :: a in b.credits ==> CreditSound(b, a)
    requires b'.credits == b.credits && b'.creditLedger == b.creditLedger
    requires forall a :: Sum(b'.auths, Held(Postpaid, a)) == Sum(b.auths, Held(Postpaid, a))
    ensures forall a :: a in b'.credits ==> CreditSound(b', a)
  {
    hide Sum;
    forall a | a in b'.credits ensures CreditSound(b', a) { assert CreditSound(b, a); }
  }

  /** Wallets are untouched when no prepaid row moves. */
  lemma WalletsKept(b: Books, b': Books, opening: map<AccountId, real>)
    requires forall a :: a in b.wallets ==> WalletSound(b, opening, a)
    requires b'.wallets == b.wallets && b'.walletLedger == b.walletLedger
    requires forall a :: Sum(b'.auths, Held(Prepaid, a)) == Sum(b.auths, Held(Prepaid, a))
    requires forall a :: Sum(b'.auths, EverReserved(Prepaid, a)) == Sum(b.auths, EverReserved(Prepaid, a))
    ensures forall a :: a in b'.wallets ==> WalletSound(b', opening, a)
  {
    hide Sum;
    forall a | a in b'.wallets ensures WalletSound(b', opening, a) { assert WalletSound(b, opening, a); }
  }

  /** A new authorization is sound and disturbs no other. */
  lemma AuthsExtended(b: Books, b': Books, x: Authorization)
    requires forall i :: 0 <= i < |b.auths| ==> AuthSound(b, i)
    requires Linked(b) && x.status == Active && x.estimate >= 0.0
    requires b'.auths == b.auths + [x] && b'.walletLedger == b.walletLedger
    requires forall k, i :: k != CreditAuthorized ==>
      Sum(b'.creditLedger, CreditPostedFor(k, i)) == Sum(b.creditLedger, CreditPostedFor(k, i))
    ensures forall i :: 0 <= i < |b'.auths| ==> AuthSound(b', i)
  {
    hide Sum;
    NoEntriesYet(b, |b.auths|);
    forall i | 0 <= i < |b'.auths| ensures AuthSound(b', i) { assert i < |b.auths| ==> AuthSound(b, i); }
  }

  /** Appending an authorization for an unused usage keeps all references good. */
  lemma AppendKeepsLinked(b: Books, b': Books, x: Authorization)
    requires Linked(b)
    requires b'.auths == b.auths + [x] && b'.walletLedger == b.walletLedger
    requires b.creditLedger <= b'.creditLedger && |b'.creditLedger| <= |b.creditLedger| + 1
    requires |b'.creditLedger| > |b.creditLedger| ==>
      b'.creditLedger[|b.creditLedger|].auth == None && b'.creditLedger[|b.creditLedger|].entryType == CreditAuthorized
    requires !UsageTaken(b.auths, x.usage) && x.usage in b'.usages
    requires b.usages.Keys <= b'.usages.Keys && b.wallets.Keys <= b'.wallets.Keys && b.credits.Keys <= b'.credits.Keys
    requires (x.kind == Prepaid && x.account in b'.wallets) || (x.kind == Postpaid && x.account in b'.credits)
    ensures Linked(b')
  {
    hide Sum;
    forall k | 0 <= k < |b'.walletLedger| ensures EntryLinked(b', b'.walletLedger[k]) {
      assert EntryLinked(b, b.walletLedger[k]);
    }
    forall k | 0 <= k < |b'.creditLedger| ensures CreditEntryLinked(b', b'.creditLedger[k]) {
      assert k < |b.creditLedger| ==> CreditEntryLinked(b, b.creditLedger[k]);
    }
  }

  /** Finishing authorization `i` and posting entries for it keeps all references good. */
  lemma FinishKeepsLinked(b: Books, b': Books, i: nat, x: Authorization)
    requires Linked(b) && i < |b.auths| && b'.auths == b.auths[i := x]
    requires x.status != Active && x.usage == b.auths[i].usage && x.kind == b.auths[i].kind && x.account == b.auths[i].account
    requires b.walletLedger <= b'.walletLedger && b.creditLedger <= b'.creditLedger
    requires forall k :: |b.walletLedger| <= k < |b'.walletLedger| ==>
      b'.walletLedger[k].auth == Some(i)
    requires forall k :: |b.creditLedger| <= k < |b'.creditLedger| ==>
      b'.creditLedger[k].auth == Some(i)
    requires b.usages.Keys <= b'.usages.Keys && b.wallets.Keys <= b'.wallets.Keys && b.credits.Keys <= b'.credits.Keys
    ensures Linked(b')
  {
    forall k | 0 <= k < |b'.walletLedger| ensures EntryLinked(b', b'.walletLedger[k]) {
      assert k < |b.walletLedger| ==> EntryLinked(b, b.walletLedger[k]);
    }
    forall k | 0 <= k < |b'.creditLedger| ensures CreditEntryLinked(b', b'.creditLedger[k]) {
      assert k < |b.creditLedger| ==> CreditEntryLinked(b, b.creditLedger[k]);
    }
  }

  /** Authorization `i` becomes `x`, and the part `charge` of its estimate leaves
      the wallet for good while the rest of it goes back to the customer. */
  ghost predicate FinishesPrepaid(b: Books, b': Books, i: nat, x: Authorization, charge: real) {
    && IsActive(b, i) && b.auths[i].kind == Prepaid && b.auths[i].account in b.wallets
    && x.usage == b.auths[i].usage && x.account == b.auths[i].account
    && x.kind == b.auths[i].kind && x.estimate == b.auths[i].estimate
    && 0.0 <= charge <= x.estimate
    && (if x.status == Committed then x.actual.Some? && x.actual.value >= 0.0 && charge == Min(x.actual.value, x.estimate)
        else x.status != Active && charge == 0.0)
    && var w := b.wallets[x.account];
    && b'.auths == b.auths[i := x]
    && b'.wallets == b.wallets[x.account := Wallet(w.balance - charge, w.reserved - x.estimate)]
    && b'.credits == b.credits && b'.creditLedger == b.creditLedger
    && (forall k, a :: Sum(b'.walletLedger, Posted(k, a))
          == Sum(b.walletLedger, Posted(k, a)) + (if a != x.account then 0.0 else Share(k, charge, x.estimate)))
    && (forall k, n :: Sum(b'.walletLedger, PostedFor(k, n))
          == Sum(b.walletLedger, PostedFor(k, n)) + (if n != i then 0.0 else Share(k, charge, x.estimate)))
    && Linked(b')
  }

  ghost predicate FinishesPostpaid(b: Books, b': Books, i: nat, x: Authorization, charge: real) {
    && IsActive(b, i) && b.auths[i].kind == Postpaid && b.auths[i].account in b.credits
    && x.usage == b.auths[i].usage && x.account == b.auths[i].account
    && x.kind == b.auths[i].kind && x.estimate == b.auths[i].estimate
    && 0.0 <= charge <= x.estimate
    && (if x.status == Committed then x.actual.Some? && x.actual.value >= 0.0 && charge == Min(x.actual.value, x.estimate)
        else x.status != Active && charge == 0.0)
    && var c := b.credits[x.account];
    && b'.auths == b.auths[i := x]
    && b'.credits == b.credits[x.account := Credit(c.limit, c.exposure - (x.estimate - charge), c.settled + charge)]
    && b'.wallets == b.wallets && b'.walletLedger == b.walletLedger
    && (forall k, a :: Sum(b'.creditLedger, CreditPosted(k, a))
          == Sum(b.creditLedger, CreditPosted(k, a)) + (if a != x.account then 0.0 else CreditShare(k, charge, x.estimate)))
    && (forall k, n :: Sum(b'.creditLedger, CreditPostedFor(k, n))
          == Sum(b.creditLedger, CreditPostedFor(k, n)) + (if n != i then 0.0 else CreditShare(k, charge, x.estimate)))
    && Linked(b')
  }

  lemma FinishPrepaidKeepsSound(b: Books, b': Books, i: nat, x: Authorization, charge: real, opening: map<AccountId, real>)
    requires Sound(b, opening) && FinishesPrepaid(b, b', i, x, charge)
    ensures Sound(b', opening)
  {
    hide Sum;
    AuthUpdated(b.auths, i, x);
    HeldIsPart(b, opening, i);
    forall a | a in b'.wallets ensures WalletSound(b', opening, a) { assert WalletSound(b, opening, a); }
    CreditsKept(b, b');
    forall n | 0 <= n < |b'.auths| ensures AuthSound(b', n) { assert AuthSound(b, n); }
  }

  lemma FinishPostpaidKeepsSound(b: Books, b': Books, i: nat, x: Authorization, charge: real, opening: map<AccountId, real>)
    requires Sound(b, opening) && FinishesPostpaid(b, b', i, x, charge)
    ensures Sound(b', opening)
  {
    hide Sum;
    AuthUpdated(b.auths, i, x);
    HeldIsPart(b, opening, i);
    WalletsKept(b, b', opening);
    forall a | a in b'.credits ensures CreditSound(b', a) { assert CreditSound(b, a); }
    forall n | 0 <= n < |b'.auths| ensures AuthSound(b', n) { assert AuthSound(b, n); }
  }

  lemma GiveBackPrepaidFinishes(b: Books, i: nat, usage: UsageId, terminal: AuthStatus)
    requires Linked(b) && IsActive(b, i) && b.auths[i].kind == Prepaid && AuthSound(b, i)
    requires terminal == Released || terminal == Expired
    requires GiveBack(b, i, usage, terminal).1.Ok?
    ensures FinishesPrepaid(b, GiveBack(b, i, usage, terminal).0, i, b.auths[i].(status := terminal), 0.0)
  {
    hide Sum;
    var b' := GiveBack(b, i, usage, terminal).0;
    var x := b.auths[i].(status := terminal);
    EntryPosted(b.walletLedger, WalletEntry(x.account, Release, x.estimate, None, Some(i)));
    FinishKeepsLinked(b, b', i, x);
  }

  lemma GiveBackPostpaidFinishes(b: Books, i: nat, usage: UsageId, terminal: AuthStatus)
    requires Linked(b) && IsActive(b, i) && b.auths[i].kind == Postpaid && AuthSound(b, i)
    requires terminal == Released || terminal == Expired
    requires GiveBack(b, i, usage, terminal).1.Ok?
    ensures FinishesPostpaid(b, GiveBack(b, i, usage, terminal).0, i, b.auths[i].(status := terminal), 0.0)
  {
    hide Sum;
    var b' := GiveBack(b, i, usage, terminal).0;
    var x := b.auths[i].(status := terminal);
    CreditEntryPosted(b.creditLedger, CreditEntry(x.account, CreditReleased, x.estimate, Some(usage), Some(i)));
    FinishKeepsLinked(b, b', i, x);
  }

  lemma GiveBackKeepsSound(b: Books, i: nat, usage: UsageId, terminal: AuthStatus, opening: map<AccountId, real>)
    requires Sound(b, opening) && IsActive(b, i) && (terminal == Released || terminal == Expired)
    ensures Sound(GiveBack(b, i, usage, terminal).0, opening)
  {
    var (b', outcome) := GiveBack(b, i, usage, terminal);
    var x := b.auths[i].(status := terminal);
    if outcome.Ok? {
      if x.kind == Prepaid {
        GiveBackPrepaidFinishes(b, i, usage, terminal);
        hide *;
        FinishPrepaidKeepsSound(b, b', i, x, 0.0, opening);
      } else {
        GiveBackPostpaidFinishes(b, i, usage, terminal);
        hide *;
        FinishPostpaidKeepsSound(b, b', i, x, 0.0, opening);
      }
    }
  }

  lemma CommitPrepaidKeepsSound(b: Books, input: SettleInput, opening: map<AccountId, real>)
    requires Sound(b, opening) && IsActive(b, input.auth) && Matches(b, input) && input.kind == Prepaid
    ensures Sound(CommitPrepaid(b, input).0, opening)
  {
    hide Sum;
    var b' := CommitPrepaid(b, input).0;
    var x := b.auths[input.auth].(status := Committed, actual := Some(input.cost));
    assert AuthSound(b, input.auth);
    if b'.auths != b.auths {
      PostingTotals(b.walletLedger, input, x.estimate);
      FinishKeepsLinked(b, b', input.auth, x);
      assert FinishesPrepaid(b, b', input.auth, x, Min(input.cost, x.estimate));
      FinishPrepaidKeepsSound(b, b', input.auth, x, Min(input.cost, x.estimate), opening);
    }
  }

  lemma CommitPostpaidKeepsSound(b: Books, input: SettleInput, opening: map<AccountId, real>)
    requires Sound(b, opening) && IsActive(b, input.auth) && Matches(b, input) && input.kind == Postpaid
    ensures Sound(CommitPostpaid(b, input).0, opening)
  {
    hide Sum;
    var b' := CommitPostpaid(b, input).0;
    var x := b.auths[input.auth].(status := Committed, actual := Some(input.cost));
    assert AuthSound(b, input.auth);
    if b'.auths != b.auths {
      CreditPostingTotals(b.creditLedger, input, x.estimate);
      FinishKeepsLinked(b, b', input.auth, x);
      assert FinishesPostpaid(b, b', input.auth, x, Min(input.cost, x.estimate));
      FinishPostpaidKeepsSound(b, b', input.auth, x, Min(input.cost, x.estimate), opening);
    }
  }

  /** Entries that name no authorization keep all references good. */
  lemma UnchargedKeepsLinked(b: Books, b': Books)
    requires Linked(b) && b'.auths == b.auths && b'.creditLedger == b.creditLedger && b.walletLedger <= b'.walletLedger
    requires forall k :: |b.walletLedger| <= k < |b'.walletLedger| ==>
      b'.walletLedger[k].auth == None && b'.walletLedger[k].entryType != Debit
    requires b.usages.Keys <= b'.usages.Keys && b.wallets.Keys <= b'.wallets.Keys && b.credits.Keys <= b'.credits.Keys
    ensures Linked(b')
  {
    forall k | 0 <= k < |b'.walletLedger| ensures EntryLinked(b', b'.walletLedger[k]) {
      assert k < |b.walletLedger| ==> EntryLinked(b, b.walletLedger[k]);
    }
    forall k | 0 <= k < |b'.creditLedger| ensures CreditEntryLinked(b', b'.creditLedger[k]) {
      assert CreditEntryLinked(b, b.creditLedger[k]);
    }
  }

  lemma UsageUpdateKeepsSound(b: Books, b': Books, opening: map<AccountId, real>)
    requires Sound(b, opening)
    requires b.usages.Keys <= b'.usages.Keys && b' == b.(usages := b'.usages)
    ensures Sound(b', opening)
  {
    hide Sum;
    WalletsKept(b, b', opening);
    CreditsKept(b, b');
    forall k | 0 <= k < |b'.auths| ensures AuthSound(b', k) { assert AuthSound(b, k); }
    UnchargedKeepsLinked(b, b');
  }

  /** An unplanned debit takes only money that nobody has reserved. */
  lemma UnplannedDebitKeepsSound(b: Books, b': Books, a: AccountId, cost: real, e: WalletEntry, opening: map<AccountId, real>)
    requires Sound(b, opening) && a in b.wallets
    requires 0.0 <= cost <= b.wallets[a].balance - b.wallets[a].reserved
    requires e.account == a && e.entryType == UnplannedDebit && e.amount == cost && e.auth == None
    requires b' == b.(wallets := b.wallets[a := Wallet(b.wallets[a].balance - cost, b.wallets[a].reserved)],
                      walletLedger := b.walletLedger + [e])
    ensures Sound(b', opening)
  {
    hide Sum;
    EntryPosted(b.walletLedger, e);
    assert forall n :: n in b'.wallets ==> WalletSound(b', opening, n) by {
      forall n | n in b'.wallets ensures WalletSound(b', opening, n) { assert WalletSound(b, opening, n); }
    }
    assert forall a :: a in b'.credits ==> CreditSound(b', a) by { CreditsKept(b, b'); }
    assert forall k :: 0 <= k < |b'.auths| ==> AuthSound(b', k) by {
      forall k | 0 <= k < |b'.auths| ensures AuthSound(b', k) { assert AuthSound(b, k); }
    }
    UnchargedKeepsLinked(b, b');
  }

  lemma LateSettleKeepsSound(b: Books, input: SettleInput, policy: RecoveryPolicy, opening: map<AccountId, real>)
    requires Sound(b, opening)
    ensures Sound(LateSettle(b, input, policy).0, opening)
  {
    hide Sum;
    var b' := LateSettle(b, input, policy).0;
    if b'.walletLedger == b.walletLedger {
      UsageUpdateKeepsSound(b, b', opening);
    } else {
      var e := WalletEntry(input.account, UnplannedDebit, input.cost, Some(input.usage), None);
      var debited := b'.(usages := b.usages);
      UnplannedDebitKeepsSound(b, debited, input.account, input.cost, e, opening);
      UsageUpdateKeepsSound(debited, b', opening);
    }
  }

  lemma StepKeepsSound(b: Books, e: Event, opening: map<AccountId, real>)
    requires Sound(b, opening) && Faithful(b, e)
    ensures Sound(Apply(b, e), opening)
  {
    match e
    case DoReserve(input) =>
      if input.kind == Prepaid {
        ReservePrepaidKeepsSound(b, input, opening);
      } else if input.kind == Postpaid {
        ReservePostpaidKeepsSound(b, input, opening);
      }
    case DoSettle(input, policy, fault) =>
      LateSettleKeepsSound(b, input, policy, opening);
      if !fault && IsActive(b, input.auth) {
        if input.kind == Prepaid {
          CommitPrepaidKeepsSound(b, input, opening);
        } else if input.kind == Postpaid {
          CommitPostpaidKeepsSound(b, input, opening);
        }
      }
    case DoRelease(auth, usage, fault) =>
      if IsActive(b, auth) { GiveBackKeepsSound(b, auth, usage, Released, opening); }
    case DoExpire(auth, fault) =>
      if IsActive(b, auth) { GiveBackKeepsSound(b, auth, b.auths[auth].usage, Expired, opening); }
    case DoSweepUsage(_, _) => UsageUpdateKeepsSound(b, Apply(b, e), opening);
  }

  /** Any interleaving of reservations, settlements under either policy,
      releases and expiries keeps the books sound. */
  lemma {:induction false} RunKeepsSound(b: Books, es: seq<Event>, opening: map<AccountId, real>)
    requires Sound(b, opening) && FaithfulRun(b, es)
    ensures Sound(Run(b, es), opening)
    decreases |es|
  {
    if es != [] {
      StepKeepsSound(b, es[0], opening);
      RunKeepsSound(Apply(b, es[0]), es[1..], opening);
    }
  }
}
