/** The packing procedure itself, and what its result means for the models. */
module GpuPacker {
  import opened Common
  import opened Sorting
  import opened GpuPacking

  function Available(devices: seq<Device>): seq<Device> {
    if devices == [] then [] else
      Available(devices[..|devices| - 1])
      + (if devices[|devices| - 1].status == "available" then [devices[|devices| - 1]] else [])
  }

  lemma {:induction false} AvailableAre(devices: seq<Device>, d: Device)
    ensures d in Available(devices) <==> d in devices && d.status == "available"
  {
    if devices != [] {
      var n := |devices| - 1;
      AvailableAre(devices[..n], d);
      assert devices == devices[..n] + [devices[n]];
    }
  }

  function AllFree(n: nat): (r: seq<bool>)
    ensures |r| == n && forall i :: 0 <= i < n ==> !r[i]
  {
    seq(n, _ => false)
  }

  /** The device numbers behind a list of positions. */
  function Indices(avail: seq<Device>, block: seq<nat>): (r: seq<int>)
    requires forall i :: 0 <= i < |block| ==> block[i] < |avail|
    ensures |r| == |block| && forall i :: 0 <= i < |block| ==> r[i] == avail[block[i]].index
  {
    seq(|block|, i requires 0 <= i < |block| => avail[block[i]].index)
  }

  ghost predicate InRange(avail: seq<Device>, plan: seq<Option<seq<nat>>>) {
    forall k :: 0 <= k < |plan| && plan[k].Some? ==> forall i :: 0 <= i < |plan[k].value| ==> plan[k].value[i] < |avail|
  }

  /** The answer for a plan, built request by request. */
  ghost function Collect(avail: seq<Device>, reqs: seq<Request>, plan: seq<Option<seq<nat>>>): Placement
    requires |plan| == |reqs| && InRange(avail, plan)
  {
    if reqs == [] then Placement(map[], []) else
      var n := |reqs| - 1;
      var before := Collect(avail, reqs[..n], plan[..n]);
      match plan[n]
      case Some(block) => before.(assignments := before.assignments[reqs[n].model := Indices(avail, block)])
      case None => before.(unscheduled := before.unscheduled + [reqs[n].model])
  }

  method FindContiguousBlock(avail: seq<Device>, used: array<bool>, req: Request) returns (r: Option<seq<nat>>)
    requires used.Length == |avail|
    ensures r == match FirstBlock(avail, used[..], req, 0) { case Some(start) => Some(Range(start, req.count)) case None => None }
  {
    hide Fits;
    var n := |avail|;
    var start := 0;
    while start + req.count <= n
      invariant FirstBlock(avail, used[..], req, 0) == FirstBlock(avail, used[..], req, start)
      decreases n - start
    {
      var ok := true;
      var i := start;
      while i < start + req.count
        invariant start <= i <= start + req.count
        invariant forall j :: start <= j < i ==> Fits(avail, used[..], req, j)
      {
        if used[i] || avail[i].vram < req.vram {
          ok := false;
          break;
        }
        assert Fits(avail, used[..], req, i) by { FitsFree(avail, used[..], req, i); }
        i := i + 1;
      }
      if ok {
        assert BlockAt(avail, used[..], req, start);
        return Some(Range(start, req.count));
      }
      assert !Fits(avail, used[..], req, i) by { FitsFree(avail, used[..], req, i); }
      assert !BlockAt(avail, used[..], req, start);
      start := start + 1;
    }
    return None;
  }

  lemma FitsFree(avail: seq<Device>, used: seq<bool>, req: Request, i: nat)
    requires |used| == |avail| && i < |avail|
    ensures Fits(avail, used, req, i) <==> !used[i] && avail[i].vram >= req.vram
  {
  }

  method FindNonContiguous(avail: seq<Device>, used: array<bool>, req: Request) returns (r: Option<seq<nat>>)
    requires used.Length == |avail|
    ensures var free := Candidates(avail, used[..], req, |avail|);
      r == if 0 < req.count <= |free| then Some(free[..req.count]) else None
  {
    hide Fits, Candidates;
    ghost var u := used[..];
    var chosen: seq<nat> := [];
    CandidatesStep(avail, u, req, 0);
    for i := 0 to |avail|
      invariant chosen == Candidates(avail, u, req, i)
      invariant req.count == 0 || |chosen| < req.count
    {
      CandidatesStep(avail, u, req, i + 1);
      if !used[i] && avail[i].vram >= req.vram {
        chosen := chosen + [i];
        if |chosen| == req.count {
          CandidatesGrow(avail, u, req, i + 1, |avail|);
          return Some(chosen);
        }
      }
    }
    return None;
  }

  lemma CandidatesStep(avail: seq<Device>, used: seq<bool>, req: Request, k: nat)
    requires |used| == |avail| && k <= |avail|
    ensures k == 0 ==> Candidates(avail, used, req, k) == []
    ensures k > 0 ==>
      var last := if !used[k - 1] && avail[k - 1].vram >= req.vram then [k - 1] else [];
      Candidates(avail, used, req, k) == Candidates(avail, used, req, k - 1) + last
  {
  }

  lemma {:induction false} CandidatesGrow(avail: seq<Device>, used: seq<bool>, req: Request, j: nat, k: nat)
    requires |used| == |avail| && j <= k <= |avail|
    ensures |Candidates(avail, used, req, j)| <= |Candidates(avail, used, req, k)|
    ensures Candidates(avail, used, req, k)[..|Candidates(avail, used, req, j)|] == Candidates(avail, used, req, j)
    decreases k
  {
    if j < k {
      CandidatesGrow(avail, used, req, j, k - 1);
    }
  }

  lemma {:induction false} PlanStep(avail: seq<Device>, used: seq<bool>, reqs: seq<Request>, k: nat)
    requires |used| == |avail| && k < |reqs|
    ensures Plan(avail, used, reqs)[k] == Place(avail, UsedAfter(avail, used, reqs[..k]), reqs[k])
    ensures UsedAfter(avail, used, reqs[..k + 1])
         == After(UsedAfter(avail, used, reqs[..k]), Place(avail, UsedAfter(avail, used, reqs[..k]), reqs[k]))
    decreases |reqs|
  {
    hide Place, After;
    assert reqs[..k + 1][1..] == reqs[1..][..k];
    if k > 0 {
      assert reqs[..k][1..] == reqs[1..][..k - 1];
      PlanStep(avail, After(used, Place(avail, used, reqs[0])), reqs[1..], k - 1);
    } else {
      var u := After(used, Place(avail, used, reqs[0]));
      assert UsedAfter(avail, u, []) == u;
    }
  }

  lemma PlanInRange(avail: seq<Device>, used: seq<bool>, reqs: seq<Request>)
    requires |used| == |avail|
    ensures InRange(avail, Plan(avail, used, reqs))
  {
    forall k | 0 <= k < |reqs| && Plan(avail, used, reqs)[k].Some?
      ensures forall i :: 0 <= i < |Plan(avail, used, reqs)[k].value| ==> Plan(avail, used, reqs)[k].value[i] < |avail|
    {
      PlanIsSound(avail, used, reqs, k);
    }
  }

  method MarkUsed(used: array<bool>, block: seq<nat>)
    requires forall i :: 0 <= i < |block| ==> block[i] < used.Length
    modifies used
    ensures used[..] == After(old(used[..]), Some(block))
  {
    for i := 0 to |block|
      invariant forall j :: 0 <= j < used.Length ==> (used[j] <==> old(used[j]) || j in block[..i])
    {
      used[block[i]] := true;
      assert block[..i + 1] == block[..i] + [block[i]];
    }
    assert block[..|block|] == block;
  }

  method ListAvailable(devices: seq<Device>) returns (list: seq<Device>)
    ensures list == Available(devices)
  {
    list := [];
    for k := 0 to |devices|
      invariant list == Available(devices[..k])
    {
      assert devices[..k + 1][..k] == devices[..k];
      if devices[k].status == "available" {
        list := list + [devices[k]];
      }
    }
    assert devices[..|devices|] == devices;
  }

  /** Returns the packing together with the two sorted lists it worked through;
      nothing is promised about the order of equal keys. */
  method PackModels(devices: seq<Device>, requests: seq<Request>)
    returns (r: Placement, avail: seq<Device>, order: seq<Request>)
    ensures multiset(avail) == multiset(Available(devices)) && Ascending(avail, (d: Device) => d.index)
    ensures multiset(order) == multiset(requests) && Ascending(order, (q: Request) => -(q.vram * q.count))
    ensures DistinctKeys(Available(devices), (d: Device) => d.index) ==> DistinctDevices(avail)
    ensures DistinctKeys(requests, (q: Request) => q.model) ==> DistinctNames(order)
    ensures r == Packed(avail, order)
    ensures DistinctKeys(Available(devices), (d: Device) => d.index) && DistinctKeys(requests, (q: Request) => q.model) ==>
      Serves(devices, requests, r)
  {
    hide Place, After, Ascending, Available, DistinctKeys, DistinctNames, DistinctDevices;
    var list := ListAvailable(devices);
    avail := SortBy(list, (d: Device) => d.index);
    order := SortBy(requests, (q: Request) => -(q.vram * q.count));
    StrictlyAscending(list, avail);
    PermutedNames(requests, order);
    ghost var free := AllFree(|avail|);
    ghost var plan := Plan(avail, free, order);
    PlanInRange(avail, free, order);
    var used := new bool[|avail|](_ => false);
    var assignments: map<string, seq<int>> := map[];
    var unscheduled: seq<string> := [];
    for k := 0 to |order|
      invariant used.Length == |avail| && used[..] == UsedAfter(avail, free, order[..k])
      invariant Placement(assignments, unscheduled) == Collect(avail, order[..k], plan[..k])
    {
      PlanStep(avail, free, order, k);
      var found := Search(avail, used, order[k]);
      assert plan[k] == found;
      assert order[..k + 1][..k] == order[..k] && plan[..k + 1][..k] == plan[..k];
      if found == None {
        unscheduled := unscheduled + [order[k].model];
        assert After(used[..], None) == used[..] by { AfterNothing(used[..]); }
      } else {
        assignments := assignments[order[k].model := Indices(avail, found.value)];
        MarkUsed(used, found.value);
      }
    }
    assert order[..|order|] == order && plan[..|order|] == plan;
    r := Placement(assignments, unscheduled);
    assert DistinctNames(order) && DistinctDevices(avail) ==> Serves(devices, requests, r) by {
      if DistinctNames(order) && DistinctDevices(avail) { PackingServes(devices, requests, avail, order); }
    }
  }

  // ----- end to end -----

  /** The devices a request could be given, had nobody else been served. */
  predicate Suits(devices: seq<Device>, q: Request, d: Device) {
    d in devices && d.status == "available" && d.vram >= q.vram
  }

  /** The assignment is as many ascending numbers of suitable devices as asked for. */
  ghost predicate GoodAssignment(devices: seq<Device>, q: Request, a: seq<int>) {
    && |a| == q.count
    && (forall i, j :: 0 <= i < j < |a| ==> a[i] < a[j])
    && (forall i :: 0 <= i < |a| ==> NamesSuitable(devices, q, a[i]))
  }

  ghost predicate NamesSuitable(devices: seq<Device>, q: Request, index: int) {
    exists d :: Suits(devices, q, d) && d.index == index
  }

  /** No set of unassigned devices could serve the request. */
  ghost predicate Unservable(devices: seq<Device>, r: Placement, q: Request) {
    forall t: set<Device> :: (forall d :: d in t ==> Suits(devices, q, d) && !Assigned(r, d.index)) ==> |t| < q.count
  }

  /** Request `q` is assigned or unscheduled but not both, gets suitable devices,
      and is unscheduled only if too few are left over. */
  ghost predicate Served(devices: seq<Device>, r: Placement, q: Request) {
    && (q.model in r.assignments <==> q.model !in r.unscheduled)
    && (q.model in r.assignments ==> GoodAssignment(devices, q, r.assignments[q.model]))
    && (q.model in r.unscheduled ==> Unservable(devices, r, q))
  }

  /** No device is assigned to two models. */
  ghost predicate NothingShared(r: Placement) {
    forall m, n, x :: m in r.assignments && n in r.assignments && m != n && x in r.assignments[m] ==> x !in r.assignments[n]
  }

  /** What a packing means for the devices and requests it was asked about. */
  ghost predicate Serves(devices: seq<Device>, requests: seq<Request>, r: Placement) {
    NothingShared(r) && forall q :: q in requests ==> Served(devices, r, q)
  }

  lemma SameElements<T>(s: seq<T>, t: seq<T>, x: T)
    requires multiset(s) == multiset(t)
    ensures x in s <==> x in t
  {
    assert x in s <==> x in multiset(s);
    assert x in t <==> x in multiset(t);
  }

  /** The positions of a set of devices are as many. */
  lemma {:induction false} PositionsOf(avail: seq<Device>, t: set<Device>) returns (ps: set<nat>)
    requires forall d :: d in t ==> d in avail
    ensures |ps| == |t| && forall i :: i in ps ==> i < |avail| && avail[i] in t
    decreases |t|
  {
    if t == {} {
      ps := {};
    } else {
      var d :| d in t;
      var rest := PositionsOf(avail, t - {d});
      var i :| 0 <= i < |avail| && avail[i] == d;
      ps := rest + {i};
    }
  }

  lemma SuitableAre(devices: seq<Device>, avail: seq<Device>, q: Request)
    requires multiset(avail) == multiset(Available(devices))
    ensures forall d :: Suits(devices, q, d) <==> d in avail && d.vram >= q.vram
  {
    forall d ensures Suits(devices, q, d) <==> d in avail && d.vram >= q.vram {
      SameElements(avail, Available(devices), d);
      AvailableAre(devices, d);
    }
  }

  /** Numbers of suitable positions are numbers of suitable devices. */
  lemma PositionsSuit(devices: seq<Device>, avail: seq<Device>, q: Request, a: seq<int>)
    requires multiset(avail) == multiset(Available(devices)) && |a| == q.count
    requires forall i, j :: 0 <= i < j < |a| ==> a[i] < a[j]
    requires forall i :: 0 <= i < |a| ==> NamesAvailable(avail, q, a[i])
    ensures GoodAssignment(devices, q, a)
  {
    hide Available, Suits;
    SuitableAre(devices, avail, q);
    forall i | 0 <= i < |a| ensures NamesSuitable(devices, q, a[i]) {
      assert NamesAvailable(avail, q, a[i]);
      var n :| 0 <= n < |avail| && avail[n].index == a[i] && avail[n].vram >= q.vram;
      assert Suits(devices, q, avail[n]);
    }
  }

  lemma AssignedWell(devices: seq<Device>, avail: seq<Device>, order: seq<Request>, k: nat)
    requires multiset(avail) == multiset(Available(devices)) && DistinctNames(order) && DistinctDevices(avail) && k < |order|
    ensures var r := Packed(avail, order); var m := order[k].model;
      && (m in r.assignments <==> m !in r.unscheduled)
      && (m in r.assignments ==> GoodAssignment(devices, order[k], r.assignments[m]))
  {
    hide Available, GoodAssignment, Packed, DistinctNames, DistinctDevices;
    PackingIsSound(avail, order, k);
    var r, q := Packed(avail, order), order[k];
    if q.model in r.assignments {
      PositionsSuit(devices, avail, q, r.assignments[q.model]);
    }
  }

  lemma RefusedForGood(devices: seq<Device>, avail: seq<Device>, order: seq<Request>, k: nat)
    requires multiset(avail) == multiset(Available(devices)) && DistinctNames(order) && DistinctDevices(avail) && k < |order|
    requires order[k].model in Packed(avail, order).unscheduled
    ensures Unservable(devices, Packed(avail, order), order[k])
  {
    hide Available, Suits, Assigned;
    var r, q := Packed(avail, order), order[k];
    SuitableAre(devices, avail, q);
    forall t: set<Device> | forall d :: d in t ==> Suits(devices, q, d) && !Assigned(r, d.index) ensures |t| < q.count {
      var ps := PositionsOf(avail, t);
      PackingIsMaximal(avail, order, k, ps);
    }
  }

  lemma AssignedApart(avail: seq<Device>, order: seq<Request>)
    requires DistinctNames(order) && DistinctDevices(avail)
    ensures NothingShared(Packed(avail, order))
  {
    var r := Packed(avail, order);
    forall m, n, x | m in r.assignments && n in r.assignments && m != n && x in r.assignments[m] ensures x !in r.assignments[n] {
      PlanInRange(avail, AllFree(|avail|), order);
      AssignedNamesARequest(avail, order, Plan(avail, AllFree(|avail|), order), m);
      AssignedNamesARequest(avail, order, Plan(avail, AllFree(|avail|), order), n);
      hide Packed, DistinctNames, DistinctDevices;
      var j :| 0 <= j < |order| && order[j].model == m;
      var k :| 0 <= k < |order| && order[k].model == n;
      if j < k { PackingIsDisjoint(avail, order, j, k); } else { PackingIsDisjoint(avail, order, k, j); }
    }
  }

  lemma PackingServes(devices: seq<Device>, requests: seq<Request>, avail: seq<Device>, order: seq<Request>)
    requires multiset(avail) == multiset(Available(devices)) && multiset(order) == multiset(requests)
    requires DistinctNames(order) && DistinctDevices(avail)
    ensures Serves(devices, requests, Packed(avail, order))
  {
    hide Packed, Available, GoodAssignment, Unservable, NothingShared, DistinctNames, DistinctDevices;
    AssignedApart(avail, order);
    forall q | q in requests ensures Served(devices, Packed(avail, order), q) {
      SameElements(order, requests, q);
      var k :| 0 <= k < |order| && order[k] == q;
      AssignedWell(devices, avail, order, k);
      if q.model in Packed(avail, order).unscheduled { RefusedForGood(devices, avail, order, k); }
    }
  }

  lemma StrictlyAscending(list: seq<Device>, avail: seq<Device>)
    requires multiset(avail) == multiset(list) && Ascending(avail, (d: Device) => d.index)
    ensures DistinctKeys(list, (d: Device) => d.index) ==> DistinctDevices(avail)
  {
    if DistinctKeys(list, (d: Device) => d.index) {
      DistinctKeysPermute(list, avail, (d: Device) => d.index);
    }
  }

  lemma PermutedNames(requests: seq<Request>, order: seq<Request>)
    requires multiset(order) == multiset(requests)
    ensures DistinctKeys(requests, (q: Request) => q.model) ==> DistinctNames(order)
  {
    if DistinctKeys(requests, (q: Request) => q.model) {
      DistinctKeysPermute(requests, order, (q: Request) => q.model);
    }
  }

  lemma AfterNothing(used: seq<bool>)
    ensures After(used, None) == used
  {
  }

  /** A contiguous block if there is one, scattered devices otherwise. */
  method Search(avail: seq<Device>, used: array<bool>, req: Request) returns (r: Option<seq<nat>>)
    requires used.Length == |avail|
    ensures r == Place(avail, used[..], req)
    ensures r.Some? ==> forall i :: 0 <= i < |r.value| ==> r.value[i] < |avail|
  {
    r := FindContiguousBlock(avail, used, req);
    if r == None {
      r := FindNonContiguous(avail, used, req);
    }
    PlaceIsGood(avail, used[..], req);
  }

  // ----- what the result means -----

  ghost predicate DistinctNames(reqs: seq<Request>) {
    forall i, j :: 0 <= i < j < |reqs| ==> reqs[i].model != reqs[j].model
  }

  ghost predicate DistinctDevices(avail: seq<Device>) {
    forall i, j :: 0 <= i < j < |avail| ==> avail[i].index < avail[j].index
  }

  /** With distinct names, the answer for each request is its own plan entry. */
  lemma {:induction false} CollectAt(avail: seq<Device>, reqs: seq<Request>, plan: seq<Option<seq<nat>>>, k: nat)
    requires |plan| == |reqs| && InRange(avail, plan) && DistinctNames(reqs) && k < |reqs|
    ensures var r := Collect(avail, reqs, plan); var m := reqs[k].model;
      && (plan[k].Some? <==> m in r.assignments)
      && (plan[k] == None <==> m in r.unscheduled)
      && (plan[k].Some? ==> r.assignments[m] == Indices(avail, plan[k].value))
  {
    var n := |reqs| - 1;
    if k < n {
      CollectAt(avail, reqs[..n], plan[..n], k);
    } else {
      CollectOnlyNames(avail, reqs[..n], plan[..n], reqs[n].model);
    }
  }

  lemma {:induction false} CollectOnlyNames(avail: seq<Device>, reqs: seq<Request>, plan: seq<Option<seq<nat>>>, m: string)
    requires |plan| == |reqs| && InRange(avail, plan)
    requires forall i :: 0 <= i < |reqs| ==> reqs[i].model != m
    ensures var r := Collect(avail, reqs, plan); m !in r.assignments && m !in r.unscheduled
  {
    if reqs != [] {
      CollectOnlyNames(avail, reqs[..|reqs| - 1], plan[..|reqs| - 1], m);
    }
  }

  ghost function Packed(avail: seq<Device>, order: seq<Request>): Placement {
    PlanInRange(avail, AllFree(|avail|), order);
    Collect(avail, order, Plan(avail, AllFree(|avail|), order))
  }

  /** The number of an available device with enough memory. */
  ghost predicate NamesAvailable(avail: seq<Device>, q: Request, index: int) {
    exists d :: 0 <= d < |avail| && avail[d].index == index && avail[d].vram >= q.vram
  }

  /** Every request is either assigned or unscheduled, never both; an assignment
      is exactly as many devices as asked for, ascending, available, with enough memory. */
  lemma PackingIsSound(avail: seq<Device>, order: seq<Request>, k: nat)
    requires DistinctNames(order) && DistinctDevices(avail) && k < |order|
    ensures var r := Packed(avail, order); var q := order[k];
      && (q.model in r.assignments <==> q.model !in r.unscheduled)
      && (q.model in r.assignments ==>
            var a := r.assignments[q.model];
            && |a| == q.count
            && (forall i, j :: 0 <= i < j < |a| ==> a[i] < a[j])
            && (forall i :: 0 <= i < |a| ==> NamesAvailable(avail, q, a[i])))
  {
    var free := AllFree(|avail|);
    var plan := Plan(avail, free, order);
    PlanInRange(avail, free, order);
    CollectAt(avail, order, plan, k);
    PlanIsSound(avail, free, order, k);
  }

  /** No device serves two models. */
  lemma PackingIsDisjoint(avail: seq<Device>, order: seq<Request>, j: nat, k: nat)
    requires DistinctNames(order) && DistinctDevices(avail) && j < k < |order|
    ensures var r := Packed(avail, order);
      order[j].model in r.assignments && order[k].model in r.assignments ==>
        forall x :: x in r.assignments[order[j].model] ==> x !in r.assignments[order[k].model]
  {
    hide Plan, Collect;
    var free := AllFree(|avail|);
    var plan := Plan(avail, free, order);
    PlanInRange(avail, free, order);
    CollectAt(avail, order, plan, j);
    CollectAt(avail, order, plan, k);
    PlanIsDisjoint(avail, free, order, j, k);
    if plan[j].Some? && plan[k].Some? { DisjointIndices(avail, plan[j].value, plan[k].value); }
  }

  lemma DisjointIndices(avail: seq<Device>, a: seq<nat>, b: seq<nat>)
    requires DistinctDevices(avail)
    requires forall i :: 0 <= i < |a| ==> a[i] < |avail|
    requires forall i :: 0 <= i < |b| ==> b[i] < |avail|
    requires forall i :: i in a ==> i !in b
    ensures forall x :: x in Indices(avail, a) ==> x !in Indices(avail, b)
  {
    forall i, j | 0 <= i < |a| && 0 <= j < |b| ensures avail[a[i]].index != avail[b[j]].index {
      assert a[i] in a && b[j] in b;
    }
  }

  /** A device is used only because some request was given it. */
  lemma {:induction false} UsedOnlyIfPlaced(avail: seq<Device>, used: seq<bool>, reqs: seq<Request>, i: nat)
    requires |used| == |avail| && i < |avail| && !used[i] && UsedAfter(avail, used, reqs)[i]
    ensures exists k :: 0 <= k < |reqs| && Plan(avail, used, reqs)[k].Some? && i in Plan(avail, used, reqs)[k].value
    decreases |reqs|
  {
    hide Place, After;
    var p := Place(avail, used, reqs[0]);
    var plan := Plan(avail, used, reqs);
    if p.Some? && i in p.value {
      assert plan[0] == p;
    } else {
      UsedOnlyIfPlaced(avail, After(used, p), reqs[1..], i);
      var rest := Plan(avail, After(used, p), reqs[1..]);
      var k :| 0 <= k < |rest| && rest[k].Some? && i in rest[k].value;
      assert plan[k + 1] == rest[k];
    }
  }

  ghost predicate Assigned(r: Placement, device: int) {
    exists m :: m in r.assignments && device in r.assignments[m]
  }

  lemma UsedIffAssigned(avail: seq<Device>, order: seq<Request>, i: nat)
    requires DistinctNames(order) && DistinctDevices(avail) && i < |avail|
    ensures UsedAfter(avail, AllFree(|avail|), order)[i] <==> Assigned(Packed(avail, order), avail[i].index)
  {
    var free := AllFree(|avail|);
    var plan := Plan(avail, free, order);
    var r := Packed(avail, order);
    PlanInRange(avail, free, order);
    if UsedAfter(avail, free, order)[i] {
      UsedOnlyIfPlaced(avail, free, order, i);
      var k :| 0 <= k < |order| && plan[k].Some? && i in plan[k].value;
      CollectAt(avail, order, plan, k);
      var l :| 0 <= l < |plan[k].value| && plan[k].value[l] == i;
      assert r.assignments[order[k].model][l] == avail[i].index;
    }
    if Assigned(r, avail[i].index) {
      var m :| m in r.assignments && avail[i].index in r.assignments[m];
      AssignedNamesARequest(avail, order, plan, m);
      var k :| 0 <= k < |order| && order[k].model == m;
      CollectAt(avail, order, plan, k);
      PlanIsSound(avail, free, order, k);
      var l :| 0 <= l < |r.assignments[m]| && r.assignments[m][l] == avail[i].index;
      assert plan[k].value[l] == i;
    }
  }

  lemma AssignedNamesARequest(avail: seq<Device>, reqs: seq<Request>, plan: seq<Option<seq<nat>>>, m: string)
    requires |plan| == |reqs| && InRange(avail, plan) && m in Collect(avail, reqs, plan).assignments
    ensures exists k :: 0 <= k < |reqs| && reqs[k].model == m
  {
    if forall k :: 0 <= k < |reqs| ==> reqs[k].model != m {
      CollectOnlyNames(avail, reqs, plan, m);
    }
  }

  /** Packing is maximal: no unscheduled request could be placed on unassigned
      devices, wherever they are. */
  lemma PackingIsMaximal(avail: seq<Device>, order: seq<Request>, k: nat, t: set<nat>)
    requires DistinctNames(order) && DistinctDevices(avail) && k < |order|
    requires order[k].model in Packed(avail, order).unscheduled
    requires forall i :: i in t ==> i < |avail| && avail[i].vram >= order[k].vram && !Assigned(Packed(avail, order), avail[i].index)
    ensures |t| < order[k].count
  {
    var free := AllFree(|avail|);
    PlanInRange(avail, free, order);
    CollectAt(avail, order, Plan(avail, free, order), k);
    forall i | i in t ensures Fits(avail, UsedAfter(avail, free, order), order[k], i) {
      UsedIffAssigned(avail, order, i);
    }
    PlanIsMaximal(avail, free, order, k, t);
  }

  /** Exactly as many devices are assigned as the placed requests asked for. */
  lemma PackingConserves(avail: seq<Device>, order: seq<Request>)
    requires DistinctNames(order) && DistinctDevices(avail)
    ensures |set i: nat | i < |avail| && Assigned(Packed(avail, order), avail[i].index)|
         == PlacedCount(order, Plan(avail, AllFree(|avail|), order))
  {
    var free := AllFree(|avail|);
    PlanConserves(avail, free, order);
    assert Positions(free) == {};
    forall i: nat | i < |avail|
      ensures UsedAfter(avail, free, order)[i] <==> Assigned(Packed(avail, order), avail[i].index)
    {
      UsedIffAssigned(avail, order, i);
    }
    assert Positions(UsedAfter(avail, free, order))
        == set i: nat | i < |avail| && Assigned(Packed(avail, order), avail[i].index);
  }
}
