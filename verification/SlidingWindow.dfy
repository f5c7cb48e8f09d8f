/** The sliding-window rate limiter: a pruned set of milliseconds against the
    full log of admitted requests. */
module SlidingWindow {
  import opened Common

  /** The sorted set (its members are its scores) and the expiry of its key. */
  datatype Window = Window(members: set<int>, expiresAt: Option<int>)

  /** One call; `gone` says that the key had expired when the script ran. */
  datatype Call = Call(now: int, limit: int, gone: bool)

  function Kept(members: set<int>, now: int, width: nat): set<int> {
    set m | m in members && m > now - width
  }

  function Check(w: Window, c: Call, width: nat): (Window, bool) {
    var kept := Kept(if c.gone then {} else w.members, c.now, width);
    if |kept| >= c.limit then (Window(kept, w.expiresAt), true)
    else (Window(kept + {c.now}, Some(c.now + width)), false)
  }

  /** The key may be gone only once its expiry has passed. */
  predicate MayBeGone(w: Window, c: Call) {
    c.gone ==> w.expiresAt.Some? && w.expiresAt.value <= c.now
  }

  // ----- the reference: the whole log of admissions -----

  /** The distinct milliseconds of the log in the window that ends at `t`. */
  function Recent(log: seq<int>, t: int, width: nat): set<int> {
    set m | m in log && t - width < m <= t
  }

  function CheckLog(log: seq<int>, c: Call, width: nat): (seq<int>, bool) {
    if |Recent(log, c.now, width)| >= c.limit then (log, true) else (log + [c.now], false)
  }

  function RunLog(log: seq<int>, calls: seq<Call>, width: nat): seq<int>
    decreases |calls|
  {
    if calls == [] then log else RunLog(CheckLog(log, calls[0], width).0, calls[1..], width)
  }

  function RunWindow(w: Window, calls: seq<Call>, width: nat): Window
    decreases |calls|
  {
    if calls == [] then w else RunWindow(Check(w, calls[0], width).0, calls[1..], width)
  }

  function Decisions(w: Window, calls: seq<Call>, width: nat): seq<bool>
    decreases |calls|
  {
    if calls == [] then [] else
      var (w', rejected) := Check(w, calls[0], width);
      [rejected] + Decisions(w', calls[1..], width)
  }

  function LogDecisions(log: seq<int>, calls: seq<Call>, width: nat): seq<bool>
    decreases |calls|
  {
    if calls == [] then [] else
      var (log', rejected) := CheckLog(log, calls[0], width);
      [rejected] + LogDecisions(log', calls[1..], width)
  }

  /** Clocks do not run backwards, and keys expire no earlier than they may. */
  predicate Orderly(w: Window, calls: seq<Call>, width: nat, last: int)
    decreases |calls|
  {
    calls == [] || (last <= calls[0].now && MayBeGone(w, calls[0])
                    && Orderly(Check(w, calls[0], width).0, calls[1..], width, calls[0].now))
  }

  /** The set holds every admitted millisecond that can still matter. */
  ghost predicate Agrees(w: Window, log: seq<int>, last: int, width: nat) {
    && (forall m :: m in log ==> m <= last)
    && (forall m :: m in w.members ==> m in log)
    && (forall m :: m in log && m > last - width ==> m in w.members)
    && (w.expiresAt.Some? ==> forall m :: m in log ==> m + width <= w.expiresAt.value)
  }

  /** A request is rejected exactly when `limit` different admitted milliseconds lie
      in the window that ends now. */
  lemma RejectedIff(log: seq<int>, c: Call, width: nat)
    ensures CheckLog(log, c, width).1 <==>
      exists t: set<int> :: |t| >= c.limit && forall m :: m in t ==> m in log && c.now - width < m <= c.now
    ensures CheckLog(log, c, width).0 == if CheckLog(log, c, width).1 then log else log + [c.now]
  {
    if t: set<int> :| |t| >= c.limit && forall m :: m in t ==> m in log && c.now - width < m <= c.now {
      SubsetIsSmaller(t, Recent(log, c.now, width));
    }
  }

  lemma CheckAgrees(w: Window, log: seq<int>, c: Call, width: nat, last: int)
    requires Agrees(w, log, last, width) && last <= c.now && MayBeGone(w, c) && width > 0
    ensures Check(w, c, width).1 == CheckLog(log, c, width).1
    ensures Agrees(Check(w, c, width).0, CheckLog(log, c, width).0, c.now, width)
    ensures Check(w, c, width).0.members == Recent(CheckLog(log, c, width).0, c.now, width)
  {
    var kept := Kept(if c.gone then {} else w.members, c.now, width);
    assert kept == Recent(log, c.now, width);
    assert Recent(log + [c.now], c.now, width) == kept + {c.now};
  }

  /** Over any orderly sequence of calls the pruned set decides as the full log
      would, and holds exactly the admitted milliseconds of the last window. */
  lemma {:induction false} WindowRefinesLog(w: Window, log: seq<int>, calls: seq<Call>, width: nat, last: int)
    requires Agrees(w, log, last, width) && Orderly(w, calls, width, last) && width > 0
    ensures Decisions(w, calls, width) == LogDecisions(log, calls, width)
    ensures calls != [] ==>
      RunWindow(w, calls, width).members == Recent(RunLog(log, calls, width), calls[|calls| - 1].now, width)
    decreases |calls|
  {
    if calls != [] {
      var w' := Check(w, calls[0], width).0;
      var log' := CheckLog(log, calls[0], width).0;
      CheckAgrees(w, log, calls[0], width, last);
      hide Check, CheckLog, Agrees;
      WindowRefinesLog(w', log', calls[1..], width, calls[0].now);
      if |calls| > 1 {
        assert calls[1..][|calls| - 2] == calls[|calls| - 1];
      } else {
        assert RunWindow(w', [], width) == w' && RunLog(log', [], width) == log';
      }
    }
  }

  /** Whether and when the key expires never changes a decision. */
  lemma ExpiryIsInvisible(w: Window, log: seq<int>, c: Call, width: nat, last: int)
    requires Agrees(w, log, last, width) && last <= c.now && MayBeGone(w, c) && width > 0
    ensures Check(w, c, width).1 == Check(w, c.(gone := false), width).1
    ensures Check(w, c, width).0.members == Check(w, c.(gone := false), width).0.members
  {
    CheckAgrees(w, log, c, width, last);
    CheckAgrees(w, log, c.(gone := false), width, last);
  }

  /** The key expires exactly when its last member leaves the window: not earlier,
      so that nothing is forgotten, and not later, so that nothing stays behind. */
  lemma KeyLivesAsLongAsItsMembers(w: Window, c: Call, width: nat, t: int)
    requires !Check(w, c, width).1 && forall m :: m in w.members ==> m <= c.now
    ensures var w' := Check(w, c, width).0;
      w'.expiresAt.Some? && (w'.expiresAt.value <= t <==> forall m :: m in w'.members ==> m <= t - width)
  {
    assert c.now in Check(w, c, width).0.members;
  }

  // ----- how much is admitted -----

  /** No window, wherever it ends, holds more than `limit` admitted milliseconds. */
  ghost predicate Bounded(log: seq<int>, limit: nat, width: nat) {
    forall t :: |Recent(log, t, width)| <= limit
  }

  lemma CheckLogKeepsBounded(log: seq<int>, c: Call, limit: nat, width: nat)
    requires Bounded(log, limit, width) && c.limit <= limit && width > 0
    requires forall m :: m in log ==> m <= c.now
    ensures Bounded(CheckLog(log, c, width).0, limit, width)
  {
    var log' := CheckLog(log, c, width).0;
    forall t ensures |Recent(log', t, width)| <= limit {
      if log' != log {
        if t < c.now {
          assert Recent(log', t, width) == Recent(log, t, width);
        } else {
          SubsetIsSmaller(Recent(log', t, width), Recent(log, c.now, width) + {c.now});
        }
      }
    }
  }

  predicate Increasing(calls: seq<Call>) {
    forall i, j :: 0 <= i < j < |calls| ==> calls[i].now <= calls[j].now
  }

  /** With limits up to `limit`, every half-open window holds at most that many
      admitted milliseconds, over the whole run. */
  lemma {:induction false} WindowsAreBounded(log: seq<int>, calls: seq<Call>, limit: nat, width: nat)
    requires Bounded(log, limit, width) && Increasing(calls) && width > 0
    requires forall k :: 0 <= k < |calls| ==> calls[k].limit <= limit && forall m :: m in log ==> m <= calls[k].now
    ensures Bounded(RunLog(log, calls, width), limit, width)
    decreases |calls|
  {
    if calls != [] {
      CheckLogKeepsBounded(log, calls[0], limit, width);
      hide Bounded;
      WindowsAreBounded(CheckLog(log, calls[0], width).0, calls[1..], limit, width);
    }
  }

  // ----- requests against milliseconds -----

  /** Requests, not milliseconds, in the window that ends at `t`. */
  function Requests(log: seq<int>, t: int, width: nat): nat {
    if log == [] then 0 else
      Requests(log[..|log| - 1], t, width) + (if t - width < log[|log| - 1] <= t then 1 else 0)
  }

  predicate StrictlyIncreasing(s: seq<int>) {
    forall i, j :: 0 <= i < j < |s| ==> s[i] < s[j]
  }

  predicate NeverSimultaneous(calls: seq<Call>) {
    forall i, j :: 0 <= i < j < |calls| ==> calls[i].now < calls[j].now
  }

  lemma {:induction false} DistinctRequests(log: seq<int>, t: int, width: nat)
    requires StrictlyIncreasing(log)
    ensures Requests(log, t, width) == |Recent(log, t, width)|
  {
    if log == [] {
      assert Recent(log, t, width) == {};
    } else {
      var init, last := log[..|log| - 1], log[|log| - 1];
      DistinctRequests(init, t, width);
      assert log == init + [last];
      RecentStep(init, last, t, width);
      assert last !in init;
    }
  }

  lemma RecentStep(log: seq<int>, last: int, t: int, width: nat)
    ensures Recent(log + [last], t, width) == Recent(log, t, width) + (if t - width < last <= t then {last} else {})
  {
  }

  /** No millisecond is admitted twice, if calls are never simultaneous or only
      one is allowed per window anyway. */
  lemma {:induction false} LogStaysIncreasing(log: seq<int>, calls: seq<Call>, width: nat)
    requires StrictlyIncreasing(log) && Increasing(calls) && width > 0
    requires forall i, k :: 0 <= i < |log| && 0 <= k < |calls| ==> log[i] <= calls[k].now
    requires (NeverSimultaneous(calls) && forall i, k :: 0 <= i < |log| && 0 <= k < |calls| ==> log[i] < calls[k].now)
      || forall k :: 0 <= k < |calls| ==> calls[k].limit <= 1
    ensures StrictlyIncreasing(RunLog(log, calls, width))
    decreases |calls|
  {
    if calls != [] {
      var log' := CheckLog(log, calls[0], width).0;
      if calls[0].limit <= 1 && log' != log {
        assert Recent(log, calls[0].now, width) == {};
        assert forall i :: 0 <= i < |log| ==> log[i] in log && log[i] !in Recent(log, calls[0].now, width);
      }
      hide Recent, CheckLog;
      LogStaysIncreasing(log', calls[1..], width);
    }
  }

  /** The limit is a limit on requests if no two calls fall into one millisecond,
      or if it is at most one. */
  lemma RequestsAreBounded(calls: seq<Call>, limit: nat, width: nat, t: int)
    requires Increasing(calls) && width > 0
    requires forall k :: 0 <= k < |calls| ==> calls[k].limit <= limit
    requires NeverSimultaneous(calls) || limit <= 1
    ensures Requests(RunLog([], calls, width), t, width) <= limit
  {
    LogStaysIncreasing([], calls, width);
    DistinctRequests(RunLog([], calls, width), t, width);
    forall t ensures |Recent([], t, width)| <= limit { assert Recent([], t, width) == {}; }
    WindowsAreBounded([], calls, limit, width);
  }

  function Burst(now: int, limit: int, n: nat): (calls: seq<Call>)
    ensures |calls| == n && forall k :: 0 <= k < n ==> calls[k] == Call(now, limit, false)
  {
    if n == 0 then [] else [Call(now, limit, false)] + Burst(now, limit, n - 1)
  }

  /** Otherwise it is not: with a limit of two or more, any number of requests in
      one millisecond are all admitted. */
  lemma {:induction false} BurstIsAdmitted(log: seq<int>, now: int, limit: int, n: nat, width: nat)
    requires limit >= 2 && width > 0 && forall m :: m in log ==> m == now
    ensures RunLog(log, Burst(now, limit, n), width) == log + SameInstant(now, n)
    decreases n
  {
    if n == 0 {
      assert log + [] == log;
    } else {
      SubsetIsSmaller(Recent(log, now, width), {now});
      var calls := Burst(now, limit, n);
      assert calls[1..] == Burst(now, limit, n - 1);
      assert CheckLog(log, calls[0], width).0 == log + [now];
      BurstIsAdmitted(log + [now], now, limit, n - 1, width);
      assert log + [now] + SameInstant(now, n - 1) == log + SameInstant(now, n);
    }
  }

  /** The same millisecond `n` times. */
  function SameInstant(now: int, n: nat): (r: seq<int>)
    ensures |r| == n
  {
    if n == 0 then [] else [now] + SameInstant(now, n - 1)
  }

  // ----- the limiter as the program keeps it -----

  class Limiter {
    const width: nat
    var members: set<int>
    var expiresAt: Option<int>

    constructor (width: nat)
      ensures this.width == width && Contents() == Window({}, None)
    {
      this.width := width;
      members, expiresAt := {}, None;
    }

    function Contents(): Window
      reads this
    {
      Window(members, expiresAt)
    }

    /** The script: drop what is too old, count, reject or record. */
    method CheckSlidingWindow(now: int, limit: int, gone: bool) returns (exceeded: bool)
      modifies this
      ensures (Contents(), exceeded) == Check(old(Contents()), Call(now, limit, gone), width)
    {
      if gone { members := {}; }
      members := set m | m in members && m > now - width;
      if |members| >= limit { return true; }
      members := members + {now};
      expiresAt := Some(now + width);
      return false;
    }
  }
}
