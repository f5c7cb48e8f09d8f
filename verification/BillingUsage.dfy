/** The billing status of a usage row follows its authorization. */
module BillingUsage {
  import opened Common
  import opened BillingBooks
  import opened BillingInvariant
  import opened BillingSafety

  ghost predicate Tracks(u: Usage, x: Authorization) {
    match x.status
    case Active => u.status == Reserved
    case Committed => x.actual.Some? && u == Usage(Charged, Min(x.actual.value, x.estimate))
    case Released | Expired => u.status == Returned || u.status == Disputed || u.status == Charged
  }

  /** Outside `swept`, usages with an authorization follow it and the others still
      wait for one. */
  ghost predicate UsagesTrack(b: Books, swept: set<UsageId>) {
    && (forall i :: 0 <= i < |b.auths| ==> TracksAt(b, swept, i))
    && (forall u :: u in b.usages && u !in swept && !UsageTaken(b.auths, u) ==> b.usages[u].status == Pending)
  }

  ghost predicate TracksAt(b: Books, swept: set<UsageId>, i: nat)
    requires i < |b.auths|
  {
    var u := b.auths[i].usage;
    u in b.usages && (u !in swept ==> Tracks(b.usages[u], b.auths[i]))
  }

  ghost predicate DistinctUsages(b: Books) {
    forall i, j :: 0 <= i < j < |b.auths| ==> b.auths[i].usage != b.auths[j].usage
  }

  /** The caller names the authorization's own usage, and whatever the pending sweep
      writes to, or a settlement with a failed transition, is in `swept`. */
  predicate Tidy(b: Books, e: Event, swept: set<UsageId>) {
    && (e.DoSweepUsage? ==> e.usage in swept)
    && (e.DoRelease? && e.auth < |b.auths| ==> e.usage == b.auths[e.auth].usage)
    && (e.DoSettle? && e.fault ==> e.settle.usage in swept)
    && (e.DoSettle? && e.settle.auth < |b.auths| ==> e.settle.usage == b.auths[e.settle.auth].usage)
  }

  predicate TidyRun(b: Books, es: seq<Event>, swept: set<UsageId>)
    decreases |es|
  {
    es == [] || (Tidy(b, es[0], swept) && TidyRun(Apply(b, es[0]), es[1..], swept))
  }

  lemma TakenStays(auths: seq<Authorization>, auths': seq<Authorization>, u: UsageId)
    requires |auths| <= |auths'| && forall k :: 0 <= k < |auths| ==> auths'[k].usage == auths[k].usage
    ensures UsageTaken(auths, u) ==> UsageTaken(auths', u)
  {
    if UsageTaken(auths, u) {
      var k :| 0 <= k < |auths| && auths[k].usage == u;
      assert auths'[k].usage == u;
    }
  }

  /** Authorization `i` and its own usage row change together, nothing else does. */
  lemma OneUsageMoves(b: Books, b': Books, i: nat, swept: set<UsageId>)
    requires UsagesTrack(b, swept) && DistinctUsages(b) && i < |b.auths| && |b'.auths| == |b.auths|
    requires forall k :: 0 <= k < |b.auths| && k != i ==> b'.auths[k] == b.auths[k]
    requires b'.auths[i].usage == b.auths[i].usage && b'.usages.Keys == b.usages.Keys
    requires forall u :: u in b.usages && u != b.auths[i].usage ==> b'.usages[u] == b.usages[u]
    requires TracksAt(b', swept, i)
    ensures UsagesTrack(b', swept)
  {
    forall k | 0 <= k < |b'.auths| ensures TracksAt(b', swept, k) {
      assert TracksAt(b, swept, k);
    }
    forall u | u in b'.usages && u !in swept && !UsageTaken(b'.auths, u) ensures b'.usages[u].status == Pending {
      TakenStays(b.auths, b'.auths, u);
      assert b'.auths[i].usage != u;
    }
  }

  lemma ReserveKeepsTracking(b: Books, input: ReserveInput, swept: set<UsageId>)
    requires UsagesTrack(b, swept)
    ensures UsagesTrack(Reserve(b, input).0, swept)
  {
    var b' := Reserve(b, input).0;
    if b'.auths != b.auths {
      assert b'.auths == b.auths + [NewAuthorization(input)] && b'.usages == Marked(b.usages, input.usage, Pending, Reserved);
      hide Reserve;
      forall k | 0 <= k < |b'.auths| ensures TracksAt(b', swept, k) {
        if k < |b.auths| {
          assert TracksAt(b, swept, k) && b.auths[k].usage != input.usage;
        }
      }
      forall u | u in b'.usages && u !in swept && !UsageTaken(b'.auths, u) ensures b'.usages[u].status == Pending {
        TakenStays(b.auths, b'.auths, u);
        assert b'.auths[|b.auths|].usage == input.usage;
      }
    }
  }

  lemma GiveBackKeepsTracking(b: Books, i: nat, terminal: AuthStatus, swept: set<UsageId>)
    requires UsagesTrack(b, swept) && DistinctUsages(b) && IsActive(b, i) && (terminal == Released || terminal == Expired)
    ensures UsagesTrack(GiveBack(b, i, b.auths[i].usage, terminal).0, swept)
  {
    assert TracksAt(b, swept, i);
    hide ReleaseExists, CreditReleaseExists, UsagesTrack, DistinctUsages;
    var b' := GiveBack(b, i, b.auths[i].usage, terminal).0;
    if b'.auths != b.auths {
      OneUsageMoves(b, b', i, swept);
    }
  }

  /** Only authorization `i` and usage `usage` differ. */
  ghost predicate TouchesOne(b: Books, b': Books, i: nat, usage: UsageId) {
    && |b'.auths| == |b.auths| && i < |b.auths|
    && (forall k :: 0 <= k < |b.auths| && k != i ==> b'.auths[k] == b.auths[k])
    && b'.auths[i].usage == b.auths[i].usage && b'.usages.Keys == b.usages.Keys
    && (forall u :: u in b.usages && u != usage ==> b'.usages[u] == b.usages[u])
  }

  lemma CommitTouchesOne(b: Books, input: SettleInput)
    requires IsActive(b, input.auth)
    ensures TouchesOne(b, CommitPrepaid(b, input).0, input.auth, input.usage)
    ensures TouchesOne(b, CommitPostpaid(b, input).0, input.auth, input.usage)
  {
    hide DebitExists, ReleaseExists, SettledExists, CreditReleaseExists, WalletPosting, CreditPosting, AllowedRow;
  }

  lemma LateTouchesOne(b: Books, input: SettleInput, policy: RecoveryPolicy)
    requires input.auth < |b.auths|
    ensures TouchesOne(b, LateSettle(b, input, policy).0, input.auth, input.usage)
  {
  }

  /** A settlement touches only its authorization and its usage. */
  lemma SettleTouchesOne(b: Books, input: SettleInput, policy: RecoveryPolicy, fault: bool)
    requires input.auth < |b.auths|
    ensures TouchesOne(b, Settle(b, input, policy, fault).0, input.auth, input.usage)
  {
    LateTouchesOne(b, input, policy);
    if IsActive(b, input.auth) { CommitTouchesOne(b, input); }
    hide CommitPrepaid, CommitPostpaid, LateSettle;
  }

  /** And leaves the two in agreement. */
  lemma SettledTracks(b: Books, input: SettleInput, policy: RecoveryPolicy)
    requires input.auth < |b.auths| && input.usage == b.auths[input.auth].usage && input.usage in b.usages
    requires Tracks(b.usages[input.usage], b.auths[input.auth])
    ensures var b' := Settle(b, input, policy, false).0;
      input.usage in b'.usages && |b'.auths| == |b.auths| && Tracks(b'.usages[input.usage], b'.auths[input.auth])
  {
    hide DebitExists, ReleaseExists, SettledExists, CreditReleaseExists, WalletPosting, CreditPosting, AllowedRow;
  }

  lemma SettleKeepsTracking(b: Books, input: SettleInput, policy: RecoveryPolicy, fault: bool, swept: set<UsageId>)
    requires UsagesTrack(b, swept) && DistinctUsages(b) && (fault ==> input.usage in swept)
    requires input.auth < |b.auths| ==> input.usage == b.auths[input.auth].usage
    ensures UsagesTrack(Settle(b, input, policy, fault).0, swept)
  {
    if input.auth < |b.auths| {
      assert TracksAt(b, swept, input.auth);
      SettleTouchesOne(b, input, policy, fault);
      if input.usage !in swept { SettledTracks(b, input, policy); }
      hide Settle, UsagesTrack, DistinctUsages, Tracks;
      OneUsageMoves(b, Settle(b, input, policy, fault).0, input.auth, swept);
    }
  }

  lemma SweepKeepsTracking(b: Books, usage: UsageId, evidence: Option<real>, swept: set<UsageId>)
    requires UsagesTrack(b, swept) && usage in swept
    ensures UsagesTrack(b.(usages := SweptUsage(b.usages, usage, evidence)), swept)
  {
    var b' := b.(usages := SweptUsage(b.usages, usage, evidence));
    forall k | 0 <= k < |b'.auths| ensures TracksAt(b', swept, k) {
      assert TracksAt(b, swept, k);
    }
  }

  lemma StepKeepsTracking(b: Books, e: Event, swept: set<UsageId>)
    requires UsagesTrack(b, swept) && DistinctUsages(b) && Tidy(b, e, swept)
    ensures UsagesTrack(Apply(b, e), swept)
  {
    hide UsagesTrack, DistinctUsages, GiveBack, Settle, Reserve;
    match e
    case DoReserve(input) => ReserveKeepsTracking(b, input, swept);
    case DoSettle(input, policy, fault) => SettleKeepsTracking(b, input, policy, fault, swept);
    case DoRelease(auth, usage, _) => if IsActive(b, auth) { GiveBackKeepsTracking(b, auth, Released, swept); }
    case DoExpire(auth, _) => if IsActive(b, auth) { GiveBackKeepsTracking(b, auth, Expired, swept); }
    case DoSweepUsage(usage, evidence) => SweepKeepsTracking(b, usage, evidence, swept);
  }

  /** In every run a usage that neither the pending sweep nor a settlement with a
      failed transition wrote to is marked reserved while its authorization is active, charged with exactly the capped
      cost once it is committed, and pending only without an authorization. */
  lemma {:induction false} UsagesFollowAuthorizations(b: Books, es: seq<Event>, opening: map<AccountId, real>, swept: set<UsageId>)
    requires Sound(b, opening) && UsagesTrack(b, swept) && FaithfulRun(b, es) && TidyRun(b, es, swept)
    ensures UsagesTrack(Run(b, es), swept)
    decreases |es|
  {
    hide UsagesTrack, Apply, Sound;
    if es != [] {
      assert DistinctUsages(b) by { SoundMeansDistinct(b, opening); }
      StepKeepsTracking(b, es[0], swept);
      StepKeepsSound(b, es[0], opening);
      UsagesFollowAuthorizations(Apply(b, es[0]), es[1..], opening, swept);
    }
  }

  lemma SoundMeansDistinct(b: Books, opening: map<AccountId, real>)
    requires Sound(b, opening)
    ensures DistinctUsages(b)
  {
  }
}
