/** First-fit-decreasing assignment of GPU devices to models. */
module GpuPacking {
  import opened Common

  datatype Device = Device(index: int, vram: int, status: string)
  datatype Request = Request(model: string, vram: int, count: nat)
  datatype Placement = Placement(assignments: map<string, seq<int>>, unscheduled: seq<string>)

  // ----- one request against the free devices -----

  predicate Fits(avail: seq<Device>, used: seq<bool>, req: Request, i: nat)
    requires |used| == |avail|
  {
    i < |avail| && !used[i] && avail[i].vram >= req.vram
  }

  predicate BlockAt(avail: seq<Device>, used: seq<bool>, req: Request, start: nat)
    requires |used| == |avail|
  {
    start + req.count <= |avail| && forall i :: start <= i < start + req.count ==> Fits(avail, used, req, i)
  }

  /** The free devices with enough memory among the first `k`, in order. */
  function Candidates(avail: seq<Device>, used: seq<bool>, req: Request, k: nat): (r: seq<nat>)
    requires |used| == |avail| && k <= |avail|
    ensures forall j :: 0 <= j < |r| ==> r[j] < k && Fits(avail, used, req, r[j])
    ensures forall i, j :: 0 <= i < j < |r| ==> r[i] < r[j]
    ensures forall i :: 0 <= i < k && Fits(avail, used, req, i) ==> i in r
  {
    if k == 0 then [] else
      Candidates(avail, used, req, k - 1) + (if Fits(avail, used, req, k - 1) then [k - 1] else [])
  }

  function Range(start: nat, count: nat): (r: seq<nat>)
    ensures |r| == count && forall i :: 0 <= i < count ==> r[i] == start + i
  {
    seq(count, i requires i >= 0 => start + i)
  }

  /** The lowest start of a block at or after `from`. */
  function FirstBlock(avail: seq<Device>, used: seq<bool>, req: Request, from: nat): (r: Option<nat>)
    requires |used| == |avail|
    ensures r.Some? ==> from <= r.value && BlockAt(avail, used, req, r.value)
    ensures forall s :: from <= s < (if r.Some? then r.value else |avail| + 1) ==> !BlockAt(avail, used, req, s)
    decreases |avail| + 1 - from
  {
    if from + req.count > |avail| then None
    else if BlockAt(avail, used, req, from) then Some(from)
    else FirstBlock(avail, used, req, from + 1)
  }

  /** Where a request goes: the lowest contiguous block, else the first devices
      that fit, else nowhere. */
  function Place(avail: seq<Device>, used: seq<bool>, req: Request): Option<seq<nat>>
    requires |used| == |avail|
  {
    var block := FirstBlock(avail, used, req, 0);
    var free := Candidates(avail, used, req, |avail|);
    if block.Some? then Some(Range(block.value, req.count))
    else if 0 < req.count <= |free| then Some(free[..req.count])
    else None
  }

  ghost predicate GoodBlock(avail: seq<Device>, used: seq<bool>, req: Request, block: seq<nat>)
    requires |used| == |avail|
  {
    && |block| == req.count
    && (forall i, j :: 0 <= i < j < |block| ==> block[i] < block[j])
    && (forall i :: 0 <= i < |block| ==> Fits(avail, used, req, block[i]))
  }

  lemma PlaceIsGood(avail: seq<Device>, used: seq<bool>, req: Request)
    requires |used| == |avail|
    ensures Place(avail, used, req).Some? ==> GoodBlock(avail, used, req, Place(avail, used, req).value)
  {
  }

  lemma {:induction false} ElementsWithin(t: set<nat>, s: seq<nat>)
    requires forall x :: x in t ==> x in s
    ensures |t| <= |s|
  {
    if s != [] {
      var last := s[|s| - 1];
      ElementsWithin(t - {last}, s[..|s| - 1]);
      assert t <= (t - {last}) + {last};
      SubsetIsSmaller(t, (t - {last}) + {last});
    } else {
      assert t == {};
    }
  }

  /** A request is turned away only when no set of free devices could serve it,
      contiguous or not. */
  lemma RefusedMeansImpossible(avail: seq<Device>, used: seq<bool>, req: Request, t: set<nat>)
    requires |used| == |avail| && Place(avail, used, req) == None
    requires forall i :: i in t ==> Fits(avail, used, req, i)
    ensures |t| < req.count
  {
    ElementsWithin(t, Candidates(avail, used, req, |avail|));
    assert req.count == 0 ==> BlockAt(avail, used, req, 0);
  }

  /** Scattered devices are the first that fit: no free device with enough memory is
      passed over for a later one. */
  lemma ScatteredAreFirst(avail: seq<Device>, used: seq<bool>, req: Request, i: nat)
    requires |used| == |avail| && FirstBlock(avail, used, req, 0) == None && Place(avail, used, req).Some?
    requires Fits(avail, used, req, i) && i !in Place(avail, used, req).value
    ensures forall j :: j in Place(avail, used, req).value ==> j < i
  {
    var free := Candidates(avail, used, req, |avail|);
    var k :| 0 <= k < |free| && free[k] == i;
    assert forall n :: 0 <= n < req.count ==> free[n] in free[..req.count];
  }

  // ----- the whole run -----

  function After(used: seq<bool>, placed: Option<seq<nat>>): (r: seq<bool>)
    ensures |r| == |used|
    ensures forall i :: 0 <= i < |used| ==> (r[i] <==> used[i] || (placed.Some? && i in placed.value))
  {
    if placed == None then used
    else seq(|used|, i requires 0 <= i < |used| => used[i] || i in placed.value)
  }

  function Plan(avail: seq<Device>, used: seq<bool>, reqs: seq<Request>): (r: seq<Option<seq<nat>>>)
    requires |used| == |avail|
    ensures |r| == |reqs|
    decreases |reqs|
  {
    if reqs == [] then [] else
      var p := Place(avail, used, reqs[0]);
      [p] + Plan(avail, After(used, p), reqs[1..])
  }

  function UsedAfter(avail: seq<Device>, used: seq<bool>, reqs: seq<Request>): (r: seq<bool>)
    requires |used| == |avail|
    ensures |r| == |used|
    decreases |reqs|
  {
    if reqs == [] then used else UsedAfter(avail, After(used, Place(avail, used, reqs[0])), reqs[1..])
  }

  /** A placement takes free devices only and marks exactly those as used. */
  lemma {:induction false} PlanIsSound(avail: seq<Device>, used: seq<bool>, reqs: seq<Request>, k: nat)
    requires |used| == |avail| && k < |reqs|
    ensures var p := Plan(avail, used, reqs)[k];
      && (p.Some? ==> GoodBlock(avail, used, reqs[k], p.value))
      && (p.Some? ==> forall i :: 0 <= i < |p.value| ==> UsedAfter(avail, used, reqs)[p.value[i]])
    decreases |reqs|
  {
    hide Place, After, Fits;
    var p := Place(avail, used, reqs[0]);
    PlaceIsGood(avail, used, reqs[0]);
    UsedGrows(avail, After(used, p), reqs[1..]);
    if p.Some? { GoodBlockInRange(avail, used, reqs[0], p.value); }
    if k > 0 {
      FreeBefore(avail, used, p, reqs[k]);
      PlanIsSound(avail, After(used, p), reqs[1..], k - 1);
    }
  }

  lemma GoodBlockInRange(avail: seq<Device>, used: seq<bool>, req: Request, block: seq<nat>)
    requires |used| == |avail| && GoodBlock(avail, used, req, block)
    ensures forall i :: 0 <= i < |block| ==> block[i] < |avail| && !used[block[i]]
  {
  }

  /** What fits later fitted before. */
  lemma FreeBefore(avail: seq<Device>, used: seq<bool>, placed: Option<seq<nat>>, req: Request)
    requires |used| == |avail|
    ensures forall i :: Fits(avail, After(used, placed), req, i) ==> Fits(avail, used, req, i)
  {
    hide After;
  }

  lemma {:induction false} UsedGrows(avail: seq<Device>, used: seq<bool>, reqs: seq<Request>)
    requires |used| == |avail|
    ensures forall i :: 0 <= i < |used| && used[i] ==> UsedAfter(avail, used, reqs)[i]
    decreases |reqs|
  {
    if reqs != [] {
      UsedGrows(avail, After(used, Place(avail, used, reqs[0])), reqs[1..]);
    }
  }

  /** No device is given to two requests. */
  lemma {:induction false} PlanIsDisjoint(avail: seq<Device>, used: seq<bool>, reqs: seq<Request>, j: nat, k: nat)
    requires |used| == |avail| && j < k < |reqs|
    ensures var plan := Plan(avail, used, reqs);
      plan[j].Some? && plan[k].Some? ==> forall i :: i in plan[j].value ==> i !in plan[k].value
    decreases |reqs|
  {
    var p := Place(avail, used, reqs[0]);
    if j > 0 {
      PlanIsDisjoint(avail, After(used, p), reqs[1..], j - 1, k - 1);
    } else {
      PlaceIsGood(avail, used, reqs[0]);
      PlanIsSound(avail, After(used, p), reqs[1..], k - 1);
    }
  }

  /** At the end no refused request could be served by the devices left over. */
  lemma {:induction false} PlanIsMaximal(avail: seq<Device>, used: seq<bool>, reqs: seq<Request>, k: nat, t: set<nat>)
    requires |used| == |avail| && k < |reqs| && Plan(avail, used, reqs)[k] == None
    requires forall i :: i in t ==> Fits(avail, UsedAfter(avail, used, reqs), reqs[k], i)
    ensures |t| < reqs[k].count
    decreases |reqs|
  {
    var p := Place(avail, used, reqs[0]);
    if k > 0 {
      PlanIsMaximal(avail, After(used, p), reqs[1..], k - 1, t);
    } else {
      UsedGrows(avail, used, reqs);
      RefusedMeansImpossible(avail, used, reqs[0], t);
    }
  }

  function Positions(used: seq<bool>): set<nat> {
    set i: nat | i < |used| && used[i]
  }

  function PlacedCount(reqs: seq<Request>, plan: seq<Option<seq<nat>>>): nat
    requires |plan| == |reqs|
  {
    if reqs == [] then 0 else (if plan[0].Some? then reqs[0].count else 0) + PlacedCount(reqs[1..], plan[1..])
  }

  function Elements(s: seq<nat>): (r: set<nat>)
    ensures forall i :: i in r <==> i in s
  {
    if s == [] then {} else Elements(s[..|s| - 1]) + {s[|s| - 1]}
  }

  lemma {:induction false} AscendingCardinality(s: seq<nat>)
    requires forall i, j :: 0 <= i < j < |s| ==> s[i] < s[j]
    ensures |Elements(s)| == |s|
  {
    if s != [] {
      AscendingCardinality(s[..|s| - 1]);
    }
  }

  lemma TakenPositions(avail: seq<Device>, used: seq<bool>, req: Request, block: seq<nat>)
    requires |used| == |avail| && GoodBlock(avail, used, req, block)
    ensures |Positions(After(used, Some(block)))| == |Positions(used)| + req.count
  {
    hide After;
    GoodBlockInRange(avail, used, req, block);
    hide Fits;
    AscendingCardinality(block);
    hide Elements;
    assert Positions(After(used, Some(block))) == Positions(used) + Elements(block);
    assert Positions(used) !! Elements(block);
  }

  /** Devices used and devices asked for by placed requests are equally many. */
  lemma {:induction false} PlanConserves(avail: seq<Device>, used: seq<bool>, reqs: seq<Request>)
    requires |used| == |avail|
    ensures |Positions(UsedAfter(avail, used, reqs))| == |Positions(used)| + PlacedCount(reqs, Plan(avail, used, reqs))
    decreases |reqs|
  {
    hide Place, Positions, GoodBlock;
    if reqs != [] {
      var p := Place(avail, used, reqs[0]);
      PlanConserves(avail, After(used, p), reqs[1..]);
      PlaceIsGood(avail, used, reqs[0]);
      if p.Some? { TakenPositions(avail, used, reqs[0], p.value); }
    }
  }

  /** At its turn, a request gets the lowest contiguous block if there is one. */
  lemma {:induction false} BlocksArePreferred(avail: seq<Device>, used: seq<bool>, reqs: seq<Request>, k: nat, start: nat)
    requires |used| == |avail| && k < |reqs|
    requires BlockAt(avail, UsedAfter(avail, used, reqs[..k]), reqs[k], start)
    requires forall s :: 0 <= s < start ==> !BlockAt(avail, UsedAfter(avail, used, reqs[..k]), reqs[k], s)
    ensures Plan(avail, used, reqs)[k] == Some(Range(start, reqs[k].count))
    decreases |reqs|
  {
    if k > 0 {
      assert reqs[..k][1..] == reqs[1..][..k - 1];
      BlocksArePreferred(avail, After(used, Place(avail, used, reqs[0])), reqs[1..], k - 1, start);
    }
  }
}
