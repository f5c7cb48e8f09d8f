/** The billing tables and what each billing transaction does to them when it
    runs alone.  A transaction either commits all of its writes or none.

    Rows of `billing_authorizations` are never deleted, so an authorization is
    named by its position in the table. */
module BillingBooks {
  import opened Common

  type AccountId = string
  type UsageId = string

  datatype AccountType = Prepaid | Postpaid | Unrecognised
  datatype AuthStatus = Active | Committed | Released | Expired
  datatype BillingStatus = NotApplicable | Pending | Reserved | Charged | Returned | Disputed
  datatype RecoveryPolicy = BestEffort | WriteOff

  /** `actual` is what the caller reported, which may exceed the estimate. */
  datatype Authorization = Authorization(
    usage: UsageId, account: AccountId, kind: AccountType,
    estimate: real, status: AuthStatus, actual: Option<real>)

  datatype Wallet = Wallet(balance: real, reserved: real)
  datatype Credit = Credit(limit: real, exposure: real, settled: real)

  datatype WalletEntryType = Topup | Debit | Release | Adjustment | UnplannedDebit
  datatype WalletEntry = WalletEntry(
    account: AccountId, entryType: WalletEntryType, amount: real,
    usage: Option<UsageId>, auth: Option<nat>)

  datatype CreditEntryType = CreditAuthorized | CreditSettled | CreditReleased
  datatype CreditEntry = CreditEntry(
    account: AccountId, entryType: CreditEntryType, amount: real,
    usage: Option<UsageId>, auth: Option<nat>)

  datatype Usage = Usage(status: BillingStatus, totalCost: real)

  /** `accounts` maps each billing account to whether its status is active. */
  datatype Books = Books(
    accounts: map<AccountId, bool>,
    wallets: map<AccountId, Wallet>,
    credits: map<AccountId, Credit>,
    auths: seq<Authorization>,
    walletLedger: seq<WalletEntry>,
    creditLedger: seq<CreditEntry>,
    usages: map<UsageId, Usage>)

  datatype BillingError =
    | UnknownAccountType
    | AccountUnavailable
    | InsufficientFunds
    | CreditLimitExceeded
    | AlreadyAuthorized
    | LookupFailed
    | ConstraintViolation

  datatype ReserveInput = ReserveInput(
    usage: UsageId, account: AccountId, kind: AccountType, estimate: real)

  datatype SettleInput = SettleInput(
    auth: nat, usage: UsageId, account: AccountId, kind: AccountType, cost: real)

  type Outcome = Result<(), BillingError>

  function Min(x: real, y: real): real { if x <= y then x else y }

  // ----- constraints the tables enforce -----

  /** The checks on a wallet row.  The reconciliation and mismatched settlements can
      run into them; that nothing else does is what soundness of the books says. */
  predicate AllowedRow(w: Wallet) { 0.0 <= w.balance && 0.0 <= w.reserved <= w.balance }

  predicate UsageTaken(auths: seq<Authorization>, usage: UsageId) {
    exists i :: 0 <= i < |auths| && auths[i].usage == usage
  }

  predicate DebitExists(ledger: seq<WalletEntry>, usage: UsageId) {
    exists i :: 0 <= i < |ledger| && ledger[i].entryType == Debit && ledger[i].usage == Some(usage)
  }

  predicate ReleaseExists(ledger: seq<WalletEntry>, auth: nat) {
    exists i :: 0 <= i < |ledger| && ledger[i].entryType == Release && ledger[i].auth == Some(auth)
  }

  predicate SettledExists(ledger: seq<CreditEntry>, usage: UsageId) {
    exists i :: 0 <= i < |ledger| && ledger[i].entryType == CreditSettled && ledger[i].usage == Some(usage)
  }

  predicate CreditReleaseExists(ledger: seq<CreditEntry>, auth: nat) {
    exists i :: 0 <= i < |ledger| && ledger[i].entryType == CreditReleased && ledger[i].auth == Some(auth)
  }

  // ----- reservation -----

  /** An UPDATE of `inference_usage` that fires only in the given status. */
  function Marked(usages: map<UsageId, Usage>, usage: UsageId, was: BillingStatus, now: BillingStatus)
    : map<UsageId, Usage>
  {
    if usage in usages && usages[usage].status == was
    then usages[usage := usages[usage].(status := now)] else usages
  }

  function Finalised(usages: map<UsageId, Usage>, usage: UsageId, cost: real): map<UsageId, Usage> {
    if usage in usages then usages[usage := Usage(Charged, cost)] else usages
  }

  function MarkedDisputed(usages: map<UsageId, Usage>, usage: UsageId): map<UsageId, Usage> {
    if usage in usages then usages[usage := usages[usage].(status := Disputed)] else usages
  }

  function NewAuthorization(input: ReserveInput): Authorization {
    Authorization(input.usage, input.account, input.kind, input.estimate, Active, None)
  }

  predicate Lockable(b: Books, account: AccountId) {
    account in b.accounts && b.accounts[account]
  }

  /** The part of a prepaid reservation that follows the locked read; `seen` is
      the wallet row as that read returned it. */
  function ReservePrepaidAfterRead(b: Books, input: ReserveInput, seen: Wallet): (Books, Result<nat, BillingError>) {
    if seen.balance - seen.reserved < input.estimate then (b, Err(InsufficientFunds))
    else if input.account !in b.wallets || input.estimate < 0.0 then (b, Err(ConstraintViolation))
    else if UsageTaken(b.auths, input.usage) then (b, Err(AlreadyAuthorized))
    else if input.usage !in b.usages then (b, Err(ConstraintViolation))
    else
      var w := b.wallets[input.account];
      (b.(wallets := b.wallets[input.account := w.(reserved := w.reserved + input.estimate)],
          auths := b.auths + [NewAuthorization(input)],
          usages := Marked(b.usages, input.usage, Pending, Reserved)),
       Ok(|b.auths|))
  }

  function ReservePrepaid(b: Books, input: ReserveInput): (Books, Result<nat, BillingError>) {
    if !Lockable(b, input.account) || input.account !in b.wallets then (b, Err(AccountUnavailable))
    else ReservePrepaidAfterRead(b, input, b.wallets[input.account])
  }

  /** The same for a postpaid reservation and the credit row it read. */
  function ReservePostpaidAfterRead(b: Books, input: ReserveInput, seen: Credit): (Books, Result<nat, BillingError>) {
    if seen.limit - seen.exposure < input.estimate then (b, Err(CreditLimitExceeded))
    else if input.account !in b.credits || input.estimate < 0.0 then (b, Err(ConstraintViolation))
    else if UsageTaken(b.auths, input.usage) then (b, Err(AlreadyAuthorized))
    else if input.usage !in b.usages then (b, Err(ConstraintViolation))
    else
      var c := b.credits[input.account];
      (b.(credits := b.credits[input.account := c.(exposure := c.exposure + input.estimate)],
          auths := b.auths + [NewAuthorization(input)],
          creditLedger := b.creditLedger
            + [CreditEntry(input.account, CreditAuthorized, input.estimate, Some(input.usage), None)],
          usages := Marked(b.usages, input.usage, Pending, Reserved)),
       Ok(|b.auths|))
  }

  function ReservePostpaid(b: Books, input: ReserveInput): (Books, Result<nat, BillingError>) {
    if !Lockable(b, input.account) || input.account !in b.credits then (b, Err(AccountUnavailable))
    else ReservePostpaidAfterRead(b, input, b.credits[input.account])
  }

  function Reserve(b: Books, input: ReserveInput): (Books, Result<nat, BillingError>) {
    match input.kind
    case Prepaid => ReservePrepaid(b, input)
    case Postpaid => ReservePostpaid(b, input)
    case Unrecognised => (b, Err(UnknownAccountType))
  }

  // ----- release and expiry -----

  predicate IsActive(b: Books, auth: nat) {
    auth < |b.auths| && b.auths[auth].status == Active
  }

  /** Gives a whole reservation back; shared by Release and the expiry sweep,
      which differ in the terminal status and in where the usage id comes from. */
  function GiveBack(b: Books, auth: nat, usage: UsageId, terminal: AuthStatus): (Books, Outcome)
    requires IsActive(b, auth)
  {
    var x := b.auths[auth];
    var auths := b.auths[auth := x.(status := terminal)];
    match x.kind
    case Prepaid =>
      if x.account !in b.wallets then (b, Err(LookupFailed))
      else if ReleaseExists(b.walletLedger, auth) then (b, Err(ConstraintViolation))
      else
        var w := b.wallets[x.account];
        (b.(auths := auths,
            wallets := b.wallets[x.account := w.(reserved := w.reserved - x.estimate)],
            walletLedger := b.walletLedger + [WalletEntry(x.account, Release, x.estimate, None, Some(auth))],
            usages := Marked(b.usages, usage, Reserved, Returned)),
         Ok(()))
    case Postpaid =>
      if x.account !in b.credits then (b, Err(LookupFailed))
      else if CreditReleaseExists(b.creditLedger, auth) || usage !in b.usages then (b, Err(ConstraintViolation))
      else
        var c := b.credits[x.account];
        (b.(auths := auths,
            credits := b.credits[x.account := c.(exposure := c.exposure - x.estimate)],
            creditLedger := b.creditLedger
              + [CreditEntry(x.account, CreditReleased, x.estimate, Some(usage), Some(auth))],
            usages := Marked(b.usages, usage, Reserved, Returned)),
         Ok(()))
    case Unrecognised =>
      (b.(auths := auths, usages := Marked(b.usages, usage, Reserved, Returned)), Ok(()))
  }

  /** `fault` says that the transition statement failed for a reason other than
      the authorization's status; that too is taken for a finished authorization. */
  function ReleaseAuth(b: Books, auth: nat, usage: UsageId, fault: bool): (Books, Outcome) {
    if !fault && IsActive(b, auth) then GiveBack(b, auth, usage, Released) else (b, Ok(()))
  }

  function ExpireAuth(b: Books, auth: nat, fault: bool): (Books, Outcome) {
    if !fault && IsActive(b, auth) then GiveBack(b, auth, b.auths[auth].usage, Expired) else (b, Ok(()))
  }

  // ----- settlement -----

  function DebitEntry(input: SettleInput, charge: real): WalletEntry {
    WalletEntry(input.account, Debit, charge, Some(input.usage), Some(input.auth))
  }

  function ReleaseEntry(input: SettleInput, delta: real): WalletEntry {
    WalletEntry(input.account, Release, delta, None, Some(input.auth))
  }

  /** The debit, followed by a release of the unused part when there is one. */
  function WalletPosting(input: SettleInput, estimate: real): seq<WalletEntry> {
    var charge := Min(input.cost, estimate);
    if charge < estimate then [DebitEntry(input, charge), ReleaseEntry(input, estimate - charge)]
    else [DebitEntry(input, charge)]
  }

  function SettledEntry(input: SettleInput, charge: real): CreditEntry {
    CreditEntry(input.account, CreditSettled, charge, Some(input.usage), Some(input.auth))
  }

  function CreditReturnEntry(input: SettleInput, delta: real): CreditEntry {
    CreditEntry(input.account, CreditReleased, delta, None, Some(input.auth))
  }

  function CreditPosting(input: SettleInput, estimate: real): seq<CreditEntry> {
    var charge := Min(input.cost, estimate);
    if charge < estimate then [SettledEntry(input, charge), CreditReturnEntry(input, estimate - charge)]
    else [SettledEntry(input, charge)]
  }

  function ChargedWallet(w: Wallet, charge: real, estimate: real): Wallet {
    Wallet(w.balance - charge, w.reserved - estimate)
  }

  function CommitPrepaid(b: Books, input: SettleInput): (Books, Outcome)
    requires IsActive(b, input.auth)
  {
    var x := b.auths[input.auth];
    var charge := Min(input.cost, x.estimate);
    if input.account !in b.wallets then (b, Err(LookupFailed))
    else if charge < 0.0
      || !AllowedRow(ChargedWallet(b.wallets[input.account], charge, x.estimate))
      || DebitExists(b.walletLedger, input.usage)
      || (charge < x.estimate && ReleaseExists(b.walletLedger, input.auth))
      || input.usage !in b.usages
    then (b, Err(ConstraintViolation))
    else
      var w := b.wallets[input.account];
      (b.(auths := b.auths[input.auth := x.(status := Committed, actual := Some(input.cost))],
          wallets := b.wallets[input.account := ChargedWallet(w, charge, x.estimate)],
          walletLedger := b.walletLedger + WalletPosting(input, x.estimate),
          usages := Finalised(b.usages, input.usage, charge)),
       Ok(()))
  }

  function CommitPostpaid(b: Books, input: SettleInput): (Books, Outcome)
    requires IsActive(b, input.auth)
  {
    var x := b.auths[input.auth];
    var charge := Min(input.cost, x.estimate);
    if input.account !in b.credits then (b, Err(LookupFailed))
    else if charge < 0.0
      || (charge < x.estimate && b.credits[input.account].exposure < x.estimate - charge)
      || SettledExists(b.creditLedger, input.usage)
      || (charge < x.estimate && CreditReleaseExists(b.creditLedger, input.auth))
      || input.usage !in b.usages
    then (b, Err(ConstraintViolation))
    else
      var c := b.credits[input.account];
      (b.(auths := b.auths[input.auth := x.(status := Committed, actual := Some(input.cost))],
          credits := b.credits[input.account :=
            c.(exposure := c.exposure - (x.estimate - charge), settled := c.settled + charge)],
          creditLedger := b.creditLedger + CreditPosting(input, x.estimate),
          usages := Finalised(b.usages, input.usage, charge)),
       Ok(()))
  }

  /** The part of an unplanned debit that follows the locked read of the wallet. */
  function DebitAfterRead(b: Books, input: SettleInput, seen: Wallet): (Books, Outcome) {
    if seen.balance - seen.reserved < input.cost then
      (b.(usages := MarkedDisputed(b.usages, input.usage)), Ok(()))
    else if input.account !in b.wallets || input.cost < 0.0 || input.usage !in b.usages then (b, Err(ConstraintViolation))
    else
      var w := b.wallets[input.account];
      (b.(wallets := b.wallets[input.account := w.(balance := w.balance - input.cost)],
          walletLedger := b.walletLedger
            + [WalletEntry(input.account, UnplannedDebit, input.cost, Some(input.usage), None)],
          usages := Finalised(b.usages, input.usage, input.cost)),
       Ok(()))
  }

  function DirectDebit(b: Books, input: SettleInput): (Books, Outcome) {
    if input.kind != Prepaid then
      (b.(usages := MarkedDisputed(b.usages, input.usage)), Ok(()))
    else if input.account !in b.wallets then (b, Err(LookupFailed))
    else DebitAfterRead(b, input, b.wallets[input.account])
  }

  /** What happens when the conditional transition returned no row. */
  function LateSettle(b: Books, input: SettleInput, policy: RecoveryPolicy): (Books, Outcome) {
    if input.auth >= |b.auths| then (b, Err(LookupFailed))
    else if b.auths[input.auth].status == Committed then (b, Ok(()))
    else if policy == BestEffort then DirectDebit(b, input)
    else (b.(usages := MarkedDisputed(b.usages, input.usage)), Ok(()))
  }

  /** `fault` says that the transition statement failed for a reason other than
      the authorization's status; settlement cannot tell the two apart. */
  function Settle(b: Books, input: SettleInput, policy: RecoveryPolicy, fault: bool): (Books, Outcome) {
    match input.kind
    case Prepaid =>
      if !fault && IsActive(b, input.auth) then CommitPrepaid(b, input) else LateSettle(b, input, policy)
    case Postpaid =>
      if !fault && IsActive(b, input.auth) then CommitPostpaid(b, input) else LateSettle(b, input, policy)
    case Unrecognised => (b, Err(UnknownAccountType))
  }

  // ----- the sweep of stale usages -----

  /** What the pending sweep writes to a usage row itself: the cost its evidence
      shows, or a dispute when there is none.  It then calls Settle or Release. */
  function SweptUsage(usages: map<UsageId, Usage>, usage: UsageId, evidence: Option<real>): map<UsageId, Usage> {
    if usage !in usages then usages
    else match evidence
      case Some(cost) => usages[usage := usages[usage].(totalCost := cost)]
      case None => MarkedDisputed(usages, usage)
  }

  // ----- runs -----

  datatype Event =
    | DoReserve(reserve: ReserveInput)
    | DoSettle(settle: SettleInput, policy: RecoveryPolicy, fault: bool)
    | DoRelease(auth: nat, usage: UsageId, fault: bool)
    | DoExpire(auth: nat, fault: bool)
    | DoSweepUsage(usage: UsageId, evidence: Option<real>)

  function Apply(b: Books, e: Event): Books {
    match e
    case DoReserve(input) => Reserve(b, input).0
    case DoSettle(input, policy, fault) => Settle(b, input, policy, fault).0
    case DoRelease(auth, usage, fault) => ReleaseAuth(b, auth, usage, fault).0
    case DoExpire(auth, fault) => ExpireAuth(b, auth, fault).0
    case DoSweepUsage(usage, evidence) => b.(usages := SweptUsage(b.usages, usage, evidence))
  }

  function Run(b: Books, es: seq<Event>): Books
    decreases |es|
  {
    if es == [] then b else Run(Apply(b, es[0]), es[1..])
  }

  /** Settlement finds the money through its input, not through the
      authorization, so a settlement that commits must name the authorization's
      own account and type.  Late settlements may name anything. */
  predicate Matches(b: Books, input: SettleInput) {
    IsActive(b, input.auth) && input.kind != Unrecognised ==>
      b.auths[input.auth].account == input.account && b.auths[input.auth].kind == input.kind
  }

  predicate Faithful(b: Books, e: Event) {
    e.DoSettle? && !e.fault ==> Matches(b, e.settle)
  }

  predicate FaithfulRun(b: Books, es: seq<Event>)
    decreases |es|
  {
    es == [] || (Faithful(b, es[0]) && FaithfulRun(Apply(b, es[0]), es[1..]))
  }
}
