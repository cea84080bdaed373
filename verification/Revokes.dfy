/**
 * Revokes among other threads. A revoke keeps its region locked for the whole scan, but each
 * allocation only while it looks at it, and a commit does not take the region's lock. So what a
 * revoke promises depends on the commits that can still finish while it runs.
 */
module Revokes {
  import opened Granularity
  import opened Collections
  import opened Donor
  import opened Allocation
  import opened Protocol
  import opened Runs

  predicate IsCommitted(s: State, id: nat) {
    id in s.allocs && s.allocs[id].h.state.Committed?
  }

  /** A donor backs the allocation, nobody has abandoned it, and its commit has not finished. */
  predicate CanStillCommit(s: State, id: nat) {
    id in s.allocs && s.allocs[id].place.Backed? && s.allocs[id].h.state.PendingCommit? &&
    !s.allocs[id].h.progress.Finished?
  }

  ghost predicate InScan(s: State, r: nat) {
    r in s.regions && s.regions[r].scan.Scan?
  }

  /** A reachable state. */
  ghost predicate Reachable(t: State) {
    exists s, steps :: Init(s) && Legal(s, steps) && Exec(s, steps) == t
  }

  lemma ReachableInv(t: State)
    requires Reachable(t)
    ensures Inv(t)
  {
    hide Legal, Exec, Init, Inv;
    var s, steps :| Init(s) && Legal(s, steps) && Exec(s, steps) == t;
    InitHolds(s);
    RunKeeps(s, steps);
  }

  // ---------------------------------------------------------------- one scan, step by step

  /** While a scan runs its region stays as it is, and what cannot commit any more stays caught. */
  lemma ScanStep(s: State, step: Step, r: nat)
    requires Inv(s) && Enabled(s, step) && InScan(s, r) && step != ScanEnd(r)
    ensures InScan(Apply(s, step), r) && Apply(s, step).regions[r].reg == s.regions[r].reg
    ensures Apply(s, step).regions[r].scan.remaining <= s.regions[r].scan.remaining
  {
    hide Inv, NextMultiple, Settle, Reservable, ReserveBytes, Count, Distinct, After;
  }

  lemma OwnPlace(s: State, r: nat, x: nat)
    requires Inv(s) && r in s.regions && x in s.regions[r].reg.ids
    ensures x in s.allocs && ListedIn(s, s.allocs[x], r) && AllocInv(s.allocs[x])
  {
    hide BatchesInv, AllocInv;
    RegionOf(s, r);
  }

  lemma StillStep(s: State, step: Step, r: nat, x: nat)
    requires Inv(s) && Enabled(s, step) && InScan(s, r) && step != ScanEnd(r)
    requires x in s.regions[r].reg.ids && !CanStillCommit(s, x)
    ensures var t := Apply(s, step);
      && InScan(t, r) && !CanStillCommit(t, x)
      && (IsCommitted(t, x) ==> IsCommitted(s, x) && (x in s.regions[r].scan.todo ==> x in t.regions[r].scan.todo))
  {
    hide Inv, NextMultiple, DoReserve, DoSettle, DoVisit, DoCall, DoReturn, DoBook, AllocInv;
    ScanStep(s, step, r);
    OwnPlace(s, r, x);
    match step
    case ReserveStep(b, q, rsvd) => StillReserve(s, b, q, rsvd, r, x);
    case SettleStep(b, granted) => StillSettle(s, b, granted, r, x);
    case Call(id, e) => if id == x { StillCall(s.allocs[x], e); }
    case ScanVisit(q, id) => StillVisit(s, q, id, r, x);
    case SendReturn(q, ids, accepted) => StillReturn(s, q, ids, accepted, x);
    case Book(id) => StillBook(s, id, r, x);
    case _ =>
  }

  lemma StillReserve(s: State, b: nat, q: nat, rsvd: seq<nat>, r: nat, x: nat)
    requires Inv(s) && Enabled(s, ReserveStep(b, q, rsvd)) && InScan(s, r) && x in s.regions[r].reg.ids
    ensures var t := DoReserve(s, b, q, rsvd);
      && t.allocs.Keys == s.allocs.Keys && r in t.regions && t.regions[r].scan == s.regions[r].scan
      && x in t.allocs && t.allocs[x] == s.allocs[x]
  {
    hide Inv, Distinct, ReserveBytes, Count;
    OwnPlace(s, r, x);
    var ids := Reservable(s.regions[q].reg, rsvd);
    assert forall id :: id in ids ==> id in rsvd;
  }

  lemma StillSettle(s: State, b: nat, granted: nat, r: nat, x: nat)
    requires Inv(s) && Enabled(s, SettleStep(b, granted)) && InScan(s, r) && x in s.regions[r].reg.ids
    ensures var t := DoSettle(s, b, granted);
      && t.allocs.Keys == s.allocs.Keys && r in t.regions && t.regions[r].scan == s.regions[r].scan
      && x in t.allocs && t.allocs[x] == s.allocs[x]
  {
    hide Inv, Distinct, Settle, Count;
    OwnPlace(s, r, x);
    Untried(s, b);
    var ids := s.batches[b].ids;
    assert forall k :: 0 <= k <= |ids| ==> forall id :: id in ids[..k] ==> id in ids;
  }

  lemma StillCall(a: Alloc, e: Event)
    requires AllocInv(a) && Allowed(a.h, e) && !e.ClaimEvent? && (e.RecordEvent? ==> a.place.Backed?)
    requires !(a.place.Backed? && a.h.state.PendingCommit? && !a.h.progress.Finished?)
    ensures var b := DoCall(a, e);
      && !(b.place.Backed? && b.h.state.PendingCommit? && !b.h.progress.Finished?)
      && (b.h.state.Committed? ==> a.h.state.Committed?)
  {
  }

  lemma StillVisit(s: State, q: nat, id: nat, r: nat, x: nat)
    requires Inv(s) && Enabled(s, ScanVisit(q, id)) && InScan(s, r)
    requires x in s.regions[r].reg.ids && !CanStillCommit(s, x)
    ensures var t := DoVisit(s, q, id);
      && InScan(t, r) && !CanStillCommit(t, x)
      && (IsCommitted(t, x) ==> IsCommitted(s, x) && (x in s.regions[r].scan.todo ==> x in t.regions[r].scan.todo))
  {
    hide Inv;
    OwnPlace(s, r, x);
  }

  lemma StillReturn(s: State, q: nat, ids: set<nat>, accepted: bool, x: nat)
    requires Enabled(s, SendReturn(q, ids, accepted)) && x in s.allocs
    ensures var t := DoReturn(s, q, ids, accepted);
      x in t.allocs && t.allocs[x].h == s.allocs[x].h && t.allocs[x].place == s.allocs[x].place
    ensures forall r :: r in s.regions ==>
      r in DoReturn(s, q, ids, accepted).regions && DoReturn(s, q, ids, accepted).regions[r].scan == s.regions[r].scan
  {
  }

  lemma StillBook(s: State, id: nat, r: nat, x: nat)
    requires Enabled(s, Book(id)) && x in s.allocs && r in s.regions
    ensures var t := DoBook(s, id);
      x in t.allocs && t.allocs[x].h == s.allocs[x].h && t.allocs[x].place == s.allocs[x].place
    ensures r in DoBook(s, id).regions && DoBook(s, id).regions[r].scan == s.regions[r].scan
  {
  }

  lemma {:induction false} StillRun(s: State, steps: seq<Step>, r: nat, x: nat)
    requires Inv(s) && Legal(s, steps) && InScan(s, r) && ScanEnd(r) !in steps && x in s.regions[r].reg.ids
    ensures var t := Exec(s, steps);
      && InScan(t, r) && t.regions[r].reg == s.regions[r].reg
      && t.regions[r].scan.remaining <= s.regions[r].scan.remaining
      && (!CanStillCommit(s, x) && IsCommitted(t, x) ==>
            IsCommitted(s, x) && (x in s.regions[r].scan.todo ==> x in t.regions[r].scan.todo))
    decreases |steps|
  {
    hide Enabled, Apply, Inv, CanStillCommit, IsCommitted;
    if steps != [] {
      StepKeeps(s, steps[0]);
      ScanStep(s, steps[0], r);
      StillRun(Apply(s, steps[0]), steps[1..], r, x);
      if !CanStillCommit(s, x) {
        StillStep(s, steps[0], r, x);
      }
    }
  }

  // ---------------------------------------------------------------- what other threads can do to a scan

  lemma {:induction false} Append(s: State, a: seq<Step>, b: seq<Step>)
    requires Legal(s, a) && Legal(Exec(s, a), b)
    ensures Legal(s, a + b) && Exec(s, a + b) == Exec(Exec(s, a), b)
    decreases |a|
  {
    hide Enabled, Apply;
    if a == [] {
      assert a + b == b;
    } else {
      Append(Apply(s, a[0]), a[1..], b);
      assert (a + b)[0] == a[0] && (a + b)[1..] == a[1..] + b;
    }
  }

  /** The scan of `r` has moved from `s` to `t`, down to `floor`, and claimed nothing. */
  ghost predicate PassedTo(s: State, t: State, r: nat, floor: nat) {
    && InScan(s, r) && InScan(t, r) && t.regions[r].reg == s.regions[r].reg
    && t.regions[r].scan.remaining == s.regions[r].scan.remaining
    && t.regions[r].scan.todo == (set k | k in s.regions[r].scan.todo && k < floor)
    && forall k :: k in s.allocs && k < floor ==> k in t.allocs && t.allocs[k] == s.allocs[k]
  }

  lemma AbandonOne(s: State, id: nat)
    requires Inv(s) && id in s.allocs
    ensures Enabled(s, Call(id, AbandonEvent))
    ensures var t := Apply(s, Call(id, AbandonEvent));
      && t.regions == s.regions && t.allocs.Keys == s.allocs.Keys && !IsCommitted(t, id)
      && forall k :: k in s.allocs && k != id ==> t.allocs[k] == s.allocs[k]
  {
    hide Inv;
  }

  /** The scan passes over an allocation that is not committed. */
  lemma PassOne(s: State, r: nat, id: nat)
    requires Inv(s) && InScan(s, r) && s.regions[r].scan.remaining > 0 && id in s.regions[r].scan.todo
    requires !IsCommitted(s, id) && forall k :: k in s.regions[r].scan.todo ==> k <= id
    ensures Enabled(s, ScanVisit(r, id))
    ensures var t := Apply(s, ScanVisit(r, id));
      && t.allocs == s.allocs && InScan(t, r) && t.regions[r].reg == s.regions[r].reg
      && t.regions[r].scan.remaining == s.regions[r].scan.remaining
      && t.regions[r].scan.todo == s.regions[r].scan.todo - {id}
  {
    hide Inv;
    TodoListed(s, r);
    OwnPlace(s, r, id);
    assert After(s.allocs[id].h, ClaimEvent) == s.allocs[id].h;
    assert s.allocs[id := s.allocs[id]] == s.allocs;
  }

  lemma TodoListed(s: State, r: nat)
    requires Inv(s) && InScan(s, r)
    ensures s.regions[r].scan.todo <= s.regions[r].reg.ids
  {
    hide AllocsInv, BatchesInv;
    RegionOf(s, r);
  }

  /** One allocation is passed over, after being abandoned unless it is `x`. */
  lemma PassTop(s: State, r: nat, x: nat, id: nat) returns (steps: seq<Step>)
    requires Inv(s) && InScan(s, r) && s.regions[r].scan.remaining > 0 && id in s.regions[r].scan.todo
    requires x in s.allocs && !IsCommitted(s, x) && forall k :: k in s.regions[r].scan.todo ==> k <= id
    ensures Legal(s, steps) && ScanEnd(r) !in steps && Inv(Exec(s, steps))
    ensures PassedTo(s, Exec(s, steps), r, id) && x in Exec(s, steps).allocs && Exec(s, steps).allocs[x] == s.allocs[x]
  {
    hide Inv, Apply, Enabled, IsCommitted, PassedTo, Legal, Exec, InScan;
    var u, first := s, [];
    NoSteps(s);
    if id != x {
      TodoAlloc(s, r, id);
      AbandonOne(s, id);
      first := [Call(id, AbandonEvent)];
      u := Apply(s, first[0]);
      OneStep(s, first[0]);
    }
    RunKeeps(s, first);
    PassUnabandoned(s, u, r, id);
    OneStep(u, ScanVisit(r, id));
    Append(s, first, [ScanVisit(r, id)]);
    steps := first + [ScanVisit(r, id)];
    RunKeeps(s, steps);
  }

  lemma NoSteps(s: State)
    ensures Legal(s, []) && Exec(s, []) == s
  {
  }

  lemma OneStep(s: State, step: Step)
    requires Enabled(s, step)
    ensures Legal(s, [step]) && Exec(s, [step]) == Apply(s, step)
  {
    hide Enabled, Apply;
    NoSteps(Apply(s, step));
    Prepend(s, step, []);
    assert [step] + [] == [step];
  }

  lemma TodoAlloc(s: State, r: nat, id: nat)
    requires Inv(s) && InScan(s, r) && id in s.regions[r].scan.todo
    ensures id in s.allocs
  {
    hide Inv, AllocInv, ListedIn;
    TodoListed(s, r);
    OwnPlace(s, r, id);
  }

  lemma PassUnabandoned(s: State, u: State, r: nat, id: nat)
    requires Inv(u) && u.regions == s.regions && u.allocs.Keys == s.allocs.Keys && InScan(s, r)
    requires s.regions[r].scan.remaining > 0 && id in s.regions[r].scan.todo && !IsCommitted(u, id)
    requires forall k :: k in s.regions[r].scan.todo ==> k <= id
    requires forall k :: k in s.allocs && k != id ==> u.allocs[k] == s.allocs[k]
    ensures Enabled(u, ScanVisit(r, id)) && Apply(u, ScanVisit(r, id)).allocs == u.allocs
    ensures PassedTo(s, Apply(u, ScanVisit(r, id)), r, id)
  {
    hide Inv, Enabled, Apply;
    PassOne(u, r, id);
  }

  /** Other threads can lead the scan past everything from `floor` up without touching `x`. */
  lemma {:induction false} Sweep(s: State, r: nat, x: nat, floor: nat) returns (steps: seq<Step>)
    requires Inv(s) && InScan(s, r) && s.regions[r].scan.remaining > 0 && x in s.allocs && !IsCommitted(s, x)
    ensures Legal(s, steps) && ScanEnd(r) !in steps && Inv(Exec(s, steps))
    ensures var t := Exec(s, steps);
      && PassedTo(s, t, r, floor) && x in t.allocs && t.allocs[x] == s.allocs[x]
    decreases |s.regions[r].scan.todo|
  {
    hide Inv, Apply, Enabled;
    var todo := s.regions[r].scan.todo;
    if forall k :: k in todo ==> k < floor {
      steps := [];
    } else {
      MaxExists(todo);
      var id :| id in todo && forall k :: k in todo ==> k <= id;
      var first := PassTop(s, r, x, id);
      var u := Exec(s, first);
      Smaller(u.regions[r].scan.todo, todo, id);
      var rest := Sweep(u, r, x, floor);
      Append(s, first, rest);
      steps := first + rest;
    }
  }

  lemma Smaller(a: set<nat>, b: set<nat>, id: nat)
    requires a <= b && id in b && id !in a
    ensures |a| < |b|
  {
    SubsetSize(a, b - {id});
  }

  /** An allocation that can still commit does, and nothing else changes. */
  lemma CommitLate(s: State, x: nat, r: nat) returns (steps: seq<Step>)
    requires Inv(s) && CanStillCommit(s, x)
    ensures Legal(s, steps) && ScanEnd(r) !in steps && Inv(Exec(s, steps))
    ensures var t := Exec(s, steps);
      && t.regions == s.regions && IsCommitted(t, x)
      && forall k :: k in s.allocs && k != x ==> k in t.allocs && t.allocs[k] == s.allocs[k]
  {
    hide Inv, Apply, Enabled;
    var u, first := s, [];
    if s.allocs[x].h.progress.NotStarted? {
      RecordLate(s, x);
      StepKeeps(s, Call(x, RecordEvent));
      u := Apply(s, Call(x, RecordEvent));
      Prepend(s, Call(x, RecordEvent), []);
      first := [Call(x, RecordEvent)] + [];
    }
    LockLate(u, x);
    Prepend(u, Call(x, LockEvent), []);
    Append(s, first, [Call(x, LockEvent)] + []);
    steps := first + ([Call(x, LockEvent)] + []);
    RunKeeps(s, steps);
  }

  lemma RecordLate(s: State, x: nat)
    requires Inv(s) && CanStillCommit(s, x) && s.allocs[x].h.progress.NotStarted?
    ensures Enabled(s, Call(x, RecordEvent))
    ensures var t := Apply(s, Call(x, RecordEvent));
      && t.regions == s.regions && CanStillCommit(t, x) && t.allocs[x].h.progress.Recorded?
      && t.allocs.Keys == s.allocs.Keys && forall k :: k in s.allocs && k != x ==> t.allocs[k] == s.allocs[k]
  {
    hide Inv;
  }

  lemma LockLate(s: State, x: nat)
    requires CanStillCommit(s, x) && s.allocs[x].h.progress.Recorded?
    ensures Enabled(s, Call(x, LockEvent))
    ensures var t := Apply(s, Call(x, LockEvent));
      && t.regions == s.regions && IsCommitted(t, x)
      && t.allocs.Keys == s.allocs.Keys && forall k :: k in s.allocs && k != x ==> t.allocs[k] == s.allocs[k]
  {
  }

  // ---------------------------------------------------------------- when a revoke keeps its promises

  /** A continuation of the revoke that has not released the region yet. */
  ghost predicate Continues(t: State, r: nat, size: nat, more: seq<Step>)
    requires Enabled(t, ScanStart(r, size))
  {
    Legal(Apply(t, ScanStart(r, size)), more) && ScanEnd(r) !in more
  }

  /** Such a continuation is about to end in debt although an allocation of the region is committed. */
  ghost predicate LeavesCommitted(t: State, r: nat, size: nat, more: seq<Step>)
    requires Enabled(t, ScanStart(r, size)) && Continues(t, r, size, more)
  {
    var end := Exec(Apply(t, ScanStart(r, size)), more);
    Enabled(end, ScanEnd(r)) && end.regions[r].scan.remaining > 0 &&
    exists id :: id in end.regions[r].reg.ids && IsCommitted(end, id)
  }

  lemma Started(t: State, r: nat, size: nat)
    requires Inv(t) && Enabled(t, ScanStart(r, size))
    ensures var u := Apply(t, ScanStart(r, size));
      && Inv(u) && InScan(u, r) && u.allocs == t.allocs && u.regions[r].reg == t.regions[r].reg
      && u.regions[r].scan == Scan(NextMultiple(size).value, t.regions[r].reg.ids, {})
  {
    hide Inv, NextMultiple;
    StepKeeps(t, ScanStart(r, size));
  }

  /** If nothing listed can still commit when the revoke begins, a debt means that nothing committed is left. */
  lemma RevokeIsExhaustive(t: State, r: nat, size: nat, more: seq<Step>)
    requires Reachable(t) && Enabled(t, ScanStart(r, size)) && Continues(t, r, size, more)
    requires NextMultiple(size).value == 0 || forall x :: x in t.regions[r].reg.ids ==> !CanStillCommit(t, x)
    ensures !LeavesCommitted(t, r, size, more)
  {
    hide Legal, Exec, Inv, NextMultiple, Apply, CanStillCommit, IsCommitted, Reachable;
    ReachableInv(t);
    Started(t, r, size);
    var u := Apply(t, ScanStart(r, size));
    var end := Exec(u, more);
    forall id | id in u.regions[r].reg.ids
      ensures InScan(end, r) && end.regions[r].reg == u.regions[r].reg
      ensures end.regions[r].scan.remaining <= u.regions[r].scan.remaining
      ensures !CanStillCommit(t, id) && IsCommitted(end, id) ==> id in end.regions[r].scan.todo
    {
      StillRun(u, more, r, id);
      SameCan(t, u, id);
    }
    RunRegion(u, more, r);
  }

  lemma SameCan(s: State, t: State, id: nat)
    requires s.allocs == t.allocs
    ensures CanStillCommit(s, id) == CanStillCommit(t, id)
  {
  }

  lemma {:induction false} RunRegion(s: State, steps: seq<Step>, r: nat)
    requires Inv(s) && Legal(s, steps) && InScan(s, r) && ScanEnd(r) !in steps
    ensures InScan(Exec(s, steps), r) && Exec(s, steps).regions[r].reg == s.regions[r].reg
    decreases |steps|
  {
    hide Enabled, Apply, Inv;
    if steps != [] {
      StepKeeps(s, steps[0]);
      ScanStep(s, steps[0], r);
      RunRegion(Apply(s, steps[0]), steps[1..], r);
    }
  }

  /** Otherwise other threads can bring it about. */
  lemma RevokeCanMiss(t: State, r: nat, size: nat, x: nat) returns (more: seq<Step>)
    requires Reachable(t) && Enabled(t, ScanStart(r, size)) && NextMultiple(size).value > 0
    requires x in t.regions[r].reg.ids && CanStillCommit(t, x)
    ensures Continues(t, r, size, more) && LeavesCommitted(t, r, size, more)
  {
    hide Legal, Exec, Inv, NextMultiple, Apply, Reachable;
    ReachableInv(t);
    Started(t, r, size);
    var u := Apply(t, ScanStart(r, size));
    var first := Sweep(u, r, x, 0);
    var v := Exec(u, first);
    var rest := CommitLate(v, x, r);
    Append(u, first, rest);
    more := first + rest;
    assert IsCommitted(Exec(u, more), x);
  }

  /**
   * When a revoke leaves a debt only if nothing committed is left. Over all that other threads
   * may do while it runs, this holds exactly if the rounded size is zero, or nothing listed in
   * the region can still commit when the revoke begins.
   */
  lemma RevokeIsExhaustiveIff(t: State, r: nat, size: nat)
    requires Reachable(t) && Enabled(t, ScanStart(r, size))
    ensures (forall more | Continues(t, r, size, more) :: !LeavesCommitted(t, r, size, more)) <==>
      (NextMultiple(size).value == 0 || forall x :: x in t.regions[r].reg.ids ==> !CanStillCommit(t, x))
  {
    hide Continues, LeavesCommitted, NextMultiple, CanStillCommit, Reachable;
    if NextMultiple(size).value == 0 || forall x :: x in t.regions[r].reg.ids ==> !CanStillCommit(t, x) {
      forall more | Continues(t, r, size, more) ensures !LeavesCommitted(t, r, size, more) {
        RevokeIsExhaustive(t, r, size, more);
      }
    } else {
      var x :| x in t.regions[r].reg.ids && CanStillCommit(t, x);
      var more := RevokeCanMiss(t, r, size, x);
    }
  }

  /** The revoke is about to claim an allocation although a higher one of the region is committed. */
  ghost predicate ClaimsBelow(t: State, r: nat, size: nat, more: seq<Step>)
    requires Enabled(t, ScanStart(r, size)) && Continues(t, r, size, more)
  {
    var end := Exec(Apply(t, ScanStart(r, size)), more);
    exists x, y :: Enabled(end, ScanVisit(r, y)) && IsCommitted(end, y) && Passed(end, r, x, y)
  }

  ghost predicate Passed(end: State, r: nat, x: nat, y: nat) {
    r in end.regions && x in end.regions[r].reg.ids && y < x && IsCommitted(end, x)
  }

  /** `x` can still commit, and a lower allocation is committed or can be. */
  predicate CanBePassed(t: State, r: nat, x: nat, y: nat) {
    r in t.regions && x in t.regions[r].reg.ids && y in t.regions[r].reg.ids && y < x &&
    CanStillCommit(t, x) && (IsCommitted(t, y) || CanStillCommit(t, y))
  }

  lemma PassedCouldBePassed(t: State, r: nat, size: nat, more: seq<Step>, x: nat, y: nat)
    requires Inv(t) && Enabled(t, ScanStart(r, size)) && Continues(t, r, size, more)
    requires var end := Exec(Apply(t, ScanStart(r, size)), more);
      Enabled(end, ScanVisit(r, y)) && IsCommitted(end, y) && Passed(end, r, x, y)
    ensures NextMultiple(size).value > 0 && CanBePassed(t, r, x, y)
  {
    hide Legal, Exec, Inv, NextMultiple, Apply, CanStillCommit, IsCommitted;
    Started(t, r, size);
    var u := Apply(t, ScanStart(r, size));
    var end := Exec(u, more);
    RunKeeps(u, more);
    RunRegion(u, more, r);
    TodoListed(end, r);
    StillRun(u, more, r, x);
    StillRun(u, more, r, y);
    SameCan(t, u, x);
    SameCan(t, u, y);
    SameCommitted(t, u, y);
  }

  lemma SameCommitted(s: State, t: State, id: nat)
    requires s.allocs == t.allocs
    ensures IsCommitted(s, id) == IsCommitted(t, id)
  {
  }

  lemma RevokeCanPass(t: State, r: nat, size: nat, x: nat, y: nat) returns (more: seq<Step>)
    requires Reachable(t) && Enabled(t, ScanStart(r, size)) && NextMultiple(size).value > 0 && CanBePassed(t, r, x, y)
    ensures Continues(t, r, size, more) && ClaimsBelow(t, r, size, more)
  {
    hide Legal, Exec, Inv, NextMultiple, Apply, Reachable;
    ReachableInv(t);
    Started(t, r, size);
    var u := Apply(t, ScanStart(r, size));
    var first := Sweep(u, r, x, y + 1);
    var v := Exec(u, first);
    var second := CommitLate(v, x, r);
    var w := Exec(v, second);
    var third := [];
    if !IsCommitted(w, y) {
      third := CommitLate(w, y, r);
    } else {
      NoSteps(w);
    }
    Append(v, second, third);
    Append(u, first, second + third);
    more := first + (second + third);
    var end := Exec(u, more);
    assert Enabled(end, ScanVisit(r, y)) && IsCommitted(end, y) && Passed(end, r, x, y);
  }

  /**
   * When a revoke claims the highest committed allocations: over all that other threads may do
   * while it runs, exactly if the rounded size is zero, or nothing listed can still commit above
   * an allocation that is committed or can be.
   */
  lemma RevokeTakesHighestIff(t: State, r: nat, size: nat)
    requires Reachable(t) && Enabled(t, ScanStart(r, size))
    ensures (forall more | Continues(t, r, size, more) :: !ClaimsBelow(t, r, size, more)) <==>
      (NextMultiple(size).value == 0 || forall x, y :: !CanBePassed(t, r, x, y))
  {
    hide Continues, ClaimsBelow, NextMultiple, CanBePassed, Reachable;
    if NextMultiple(size).value == 0 || forall x, y :: !CanBePassed(t, r, x, y) {
      forall more | Continues(t, r, size, more) ensures !ClaimsBelow(t, r, size, more) {
        NeverBelow(t, r, size, more);
      }
    } else {
      var x, y :| CanBePassed(t, r, x, y);
      var more := RevokeCanPass(t, r, size, x, y);
    }
  }

  lemma NeverBelow(t: State, r: nat, size: nat, more: seq<Step>)
    requires Reachable(t) && Enabled(t, ScanStart(r, size)) && Continues(t, r, size, more)
    requires NextMultiple(size).value == 0 || forall x, y :: !CanBePassed(t, r, x, y)
    ensures !ClaimsBelow(t, r, size, more)
  {
    hide Legal, Exec, Inv, NextMultiple, Apply, Enabled, Reachable, CanBePassed, Passed, IsCommitted;
    ReachableInv(t);
    var end := Exec(Apply(t, ScanStart(r, size)), more);
    forall x, y ensures !(Enabled(end, ScanVisit(r, y)) && IsCommitted(end, y) && Passed(end, r, x, y)) {
      if Enabled(end, ScanVisit(r, y)) && IsCommitted(end, y) && Passed(end, r, x, y) {
        PassedCouldBePassed(t, r, size, more, x, y);
        assert false;
      }
    }
  }

  /**
   * In every run, a committed allocation above the one that a revoke looks at was passed over
   * while its commit had not finished.
   */
  lemma HigherCommittedWereEarly(s: State, r: nat, id: nat, x: nat)
    requires Reachable(s) && Enabled(s, ScanVisit(r, id))
    requires x in s.regions[r].reg.ids && id < x && IsCommitted(s, x)
    ensures x in s.regions[r].scan.early
  {
    hide Inv, Reachable;
    ReachableInv(s);
    RegionOf(s, r);
  }

  /** The commit of the allocation, if there is one at all, has not finished. */
  predicate Unfinished(s: State, id: nat) {
    id !in s.allocs || !s.allocs[id].h.progress.Finished?
  }

  /** Only an allocation whose commit was unfinished when the revoke began is passed over early. */
  lemma {:induction false} EarlyWereUnfinished(s: State, steps: seq<Step>, r: nat, id: nat)
    requires Legal(s, steps) && InScan(s, r) && ScanEnd(r) !in steps
    ensures InScan(Exec(s, steps), r) && Exec(s, steps).regions[r].reg == s.regions[r].reg
    ensures id in Exec(s, steps).regions[r].scan.early ==> id in s.regions[r].scan.early || Unfinished(s, id)
    decreases |steps|
  {
    hide Enabled, Apply;
    if steps != [] {
      EarlyStep(s, steps[0], r, id);
      EarlyWereUnfinished(Apply(s, steps[0]), steps[1..], r, id);
    }
  }

  lemma EarlyStep(s: State, step: Step, r: nat, id: nat)
    requires Enabled(s, step) && InScan(s, r) && step != ScanEnd(r)
    ensures var t := Apply(s, step);
      && InScan(t, r) && t.regions[r].reg == s.regions[r].reg
      && (id in t.regions[r].scan.early ==> id in s.regions[r].scan.early || Unfinished(s, id))
      && (Unfinished(t, id) ==> Unfinished(s, id))
  {
    hide NextMultiple, Settle, Reservable, ReserveBytes, Count, Distinct;
  }

  /** Every backed allocation that was never abandoned is listed in its region. */
  lemma BackedAreListed(s: State, id: nat)
    requires Reachable(s) && id in s.allocs && s.allocs[id].place.Backed? && s.allocs[id].h.abandons == 0
    ensures s.allocs[id].place.region in s.regions && id in s.regions[s.allocs[id].place.region].reg.ids
  {
    hide Inv, Reachable;
    ReachableInv(s);
    BackedPlace(s, id);
  }

  lemma BackedPlace(s: State, id: nat)
    requires Inv(s) && id in s.allocs && s.allocs[id].place.Backed? && s.allocs[id].h.abandons == 0
    ensures s.allocs[id].place.region in s.regions && id in s.regions[s.allocs[id].place.region].reg.ids
  {
    hide BatchesInv;
    assert AllocInv(s.allocs[id]) && PlaceInv(s, id);
    RegionOf(s, s.allocs[id].place.region);
  }

  lemma Prepend(s: State, step: Step, rest: seq<Step>)
    requires Enabled(s, step) && Legal(Apply(s, step), rest)
    ensures Legal(s, [step] + rest) && Exec(s, [step] + rest) == Exec(Apply(s, step), rest)
  {
    assert ([step] + rest)[1..] == rest;
  }

  const RACE: seq<Step> :=
    [ScanStart(0, G)] + ([ScanVisit(0, 1)] + ([Call(1, LockEvent)] + ([ScanEnd(0)] + [])))

  const BEFORE_RACE: seq<Step> :=
    [Create(1)] + ([ReserveStep(0, 0, [1])] + ([SettleStep(0, G)] + ([Call(1, RecordEvent)] + RACE)))

  /**
   * Such a commit does occur: the donor of a single chunk revokes it while its commit is under
   * way. The revoke finds nothing committed and leaves a debt, although the one allocation of
   * the region is committed when the revoke ends.
   */
  lemma DebtBesideACommittedAllocation(s: State)
    requires s == State(map[0 := RegionState(Region(G, 0, 0, {}), NoScan, 0, 0, 0, 0, 0)], map[], map[])
    ensures Init(s) && Legal(s, BEFORE_RACE)
    ensures var t := Exec(s, BEFORE_RACE);
      0 in t.regions && t.regions[0].reg.owed == G && t.regions[0].reg.ids == {1} &&
      1 in t.allocs && t.allocs[1].h.state == Committed
  {
    var h := After(Fresh, RecordEvent);
    var backed := Alloc(h, Backed(0), 0, 0, 0, 0, 0);
    var mid := State(map[0 := RegionState(Region(G, G, 0, {1}), NoScan, G, 0, 0, 0, 0)], map[1 := backed], map[]);
    RaceFrom(mid, backed);
    RaceTo(s, mid, backed);
  }

  lemma RaceFrom(s: State, a: Alloc)
    requires s == State(map[0 := RegionState(Region(G, G, 0, {1}), NoScan, G, 0, 0, 0, 0)], map[1 := a], map[])
    requires a.h.state.PendingCommit? && a.h.progress.Recorded?
    ensures Legal(s, RACE)
    ensures var t := Exec(s, RACE);
      0 in t.regions && t.regions[0].reg.owed == G && t.regions[0].reg.ids == {1} &&
      1 in t.allocs && t.allocs[1].h.state == Committed
  {
    var s1 := Apply(s, ScanStart(0, G));
    assert s1.regions[0].scan == Scan(G, {1}, {});
    var s2 := Apply(s1, ScanVisit(0, 1));
    assert s2.regions[0].scan == Scan(G, {}, {1});
    var s3 := Apply(s2, Call(1, LockEvent));
    assert s3.allocs[1].h.state == Committed;
    var s4 := Apply(s3, ScanEnd(0));
    Prepend(s3, ScanEnd(0), []);
    Prepend(s2, Call(1, LockEvent), [ScanEnd(0)] + []);
    Prepend(s1, ScanVisit(0, 1), [Call(1, LockEvent)] + ([ScanEnd(0)] + []));
    Prepend(s, ScanStart(0, G), [ScanVisit(0, 1)] + ([Call(1, LockEvent)] + ([ScanEnd(0)] + [])));
  }

  lemma RaceTo(s: State, mid: State, a: Alloc)
    requires s == State(map[0 := RegionState(Region(G, 0, 0, {}), NoScan, 0, 0, 0, 0, 0)], map[], map[])
    requires a == Alloc(After(Fresh, RecordEvent), Backed(0), 0, 0, 0, 0, 0)
    requires mid == State(map[0 := RegionState(Region(G, G, 0, {1}), NoScan, G, 0, 0, 0, 0)], map[1 := a], map[])
    requires Legal(mid, RACE)
    ensures Legal(s, BEFORE_RACE) && Exec(s, BEFORE_RACE) == Exec(mid, RACE) && Init(s)
  {
    hide Legal, Exec, Enabled, Apply;
    var newborn := Alloc(Fresh, Unplaced, 0, 0, 0, 0, 0);
    RaceCreate(s, newborn);
    var s1 := Apply(s, Create(1));
    RaceReserve(s1, newborn);
    var s2 := Apply(s1, ReserveStep(0, 0, [1]));
    RaceSettle(s2, newborn);
    var s3 := Apply(s2, SettleStep(0, G));
    RaceRecord(s3, newborn, mid, a);
    Prepend(s3, Call(1, RecordEvent), RACE);
    Prepend(s2, SettleStep(0, G), [Call(1, RecordEvent)] + RACE);
    Prepend(s1, ReserveStep(0, 0, [1]), [SettleStep(0, G)] + ([Call(1, RecordEvent)] + RACE));
    Prepend(s, Create(1), [ReserveStep(0, 0, [1])] + ([SettleStep(0, G)] + ([Call(1, RecordEvent)] + RACE)));
  }

  lemma RaceCreate(s: State, newborn: Alloc)
    requires s == State(map[0 := RegionState(Region(G, 0, 0, {}), NoScan, 0, 0, 0, 0, 0)], map[], map[])
    requires newborn == Alloc(Fresh, Unplaced, 0, 0, 0, 0, 0)
    ensures Enabled(s, Create(1)) && Apply(s, Create(1)) == s.(allocs := map[1 := newborn])
  {
  }

  lemma RaceRecord(s: State, newborn: Alloc, mid: State, a: Alloc)
    requires newborn == Alloc(Fresh, Unplaced, 0, 0, 0, 0, 0)
    requires a == newborn.(h := After(Fresh, RecordEvent), place := Backed(0))
    requires s.allocs == map[1 := newborn.(place := Backed(0))] && mid == s.(allocs := map[1 := a])
    ensures Enabled(s, Call(1, RecordEvent)) && Apply(s, Call(1, RecordEvent)) == mid
  {
    hide DoReserve, DoSettle, DoVisit, DoReturn, DoBook, DoCall, NextMultiple;
    assert s.allocs[1].place == Backed(0) && s.allocs[1].h == Fresh;
    RecordCall(s.allocs[1], a);
    OnlyKey(s.allocs, 1, a);
  }

  lemma RecordCall(before: Alloc, a: Alloc)
    requires before == Alloc(Fresh, Backed(0), 0, 0, 0, 0, 0) && a == before.(h := After(Fresh, RecordEvent))
    ensures DoCall(before, RecordEvent) == a
  {
  }

  /**
   * The other promise fails as well: with two chunks whose commits are both under way, the state
   * below is reachable, and `RevokeCanPass` leads from it to a revoke that claims the lower
   * allocation beside a committed higher one.
   */
  lemma LowerOneClaimed(s: State) returns (t: State, more: seq<Step>)
    requires s == State(map[0 := RegionState(Region(2 * G, 0, 0, {}), NoScan, 0, 0, 0, 0, 0)], map[], map[])
    ensures Reachable(t) && Enabled(t, ScanStart(0, G)) && CanBePassed(t, 0, 2, 1)
    ensures Continues(t, 0, G, more) && ClaimsBelow(t, 0, G, more)
  {
    hide Legal, Exec, Enabled, Apply, Init, Reachable, Continues, ClaimsBelow, CanBePassed;
    var newborn := Alloc(Fresh, Unplaced, 0, 0, 0, 0, 0);
    var s2 := s.(allocs := map[1 := newborn, 2 := newborn]);
    PairCreate(s, newborn, s2);
    PairReserve(s2, newborn);
    var s3 := Apply(s2, ReserveStep(0, 0, [1, 2]));
    PairSettle(s3, newborn);
    t := Apply(s3, SettleStep(0, 2 * G));
    OneStep(s3, SettleStep(0, 2 * G));
    Prepend(s2, ReserveStep(0, 0, [1, 2]), [SettleStep(0, 2 * G)]);
    Prepend(Apply(s, Create(1)), Create(2), [ReserveStep(0, 0, [1, 2])] + [SettleStep(0, 2 * G)]);
    Prepend(s, Create(1), [Create(2)] + ([ReserveStep(0, 0, [1, 2])] + [SettleStep(0, 2 * G)]));
    ReachedBy(s, [Create(1)] + ([Create(2)] + ([ReserveStep(0, 0, [1, 2])] + [SettleStep(0, 2 * G)])), t);
    PairPending(t, newborn);
    more := RevokeCanPass(t, 0, G, 2, 1);
  }

  lemma ReachedBy(s: State, steps: seq<Step>, t: State)
    requires Init(s) && Legal(s, steps) && Exec(s, steps) == t
    ensures Reachable(t)
  {
  }

  lemma PairCreate(s: State, newborn: Alloc, s2: State)
    requires s == State(map[0 := RegionState(Region(2 * G, 0, 0, {}), NoScan, 0, 0, 0, 0, 0)], map[], map[])
    requires newborn == Alloc(Fresh, Unplaced, 0, 0, 0, 0, 0) && s2 == s.(allocs := map[1 := newborn, 2 := newborn])
    ensures Init(s) && Enabled(s, Create(1)) && Enabled(Apply(s, Create(1)), Create(2))
    ensures Apply(Apply(s, Create(1)), Create(2)) == s2
  {
    assert map[1 := newborn][2 := newborn] == map[1 := newborn, 2 := newborn];
  }

  lemma PairReserve(s: State, newborn: Alloc)
    requires newborn.place == Unplaced
    requires s == State(map[0 := RegionState(Region(2 * G, 0, 0, {}), NoScan, 0, 0, 0, 0, 0)],
                        map[1 := newborn, 2 := newborn], map[])
    ensures Enabled(s, ReserveStep(0, 0, [1, 2]))
    ensures Apply(s, ReserveStep(0, 0, [1, 2])) ==
      State(map[0 := RegionState(Region(2 * G, 2 * G, 0, {1, 2}), NoScan, 0, 0, 0, 0, 0)],
            map[1 := newborn.(place := Reserved(0)), 2 := newborn.(place := Reserved(0))],
            map[0 := Batch(0, [1, 2])])
  {
    hide PlaceAll, Reservable, Donor.Reserve, DoSettle;
    PairRegion();
    PairPlaced(s.allocs, newborn, newborn, Reserved(0));
    PairElems();
    OnlyRegion(s.regions, RegionState(Region(2 * G, 2 * G, 0, {1, 2}), NoScan, 0, 0, 0, 0, 0));
    OneBatch(s.batches, Batch(0, [1, 2]));
  }

  lemma PairRegion()
    ensures Reservable(Region(2 * G, 0, 0, {}), [1, 2]) == [1, 2]
    ensures Donor.Reserve(Region(2 * G, 0, 0, {}), [1, 2]) == Region(2 * G, 2 * G, 0, {1, 2})
  {
    Chunks(2);
    CountChunks(2 * G);
    PairElems();
  }

  lemma PairElems()
    ensures Elems<nat>([1, 2]) == {1, 2} && [1, 2][..2] == [1, 2] && Elems<nat>([1, 2][2..]) == {}
  {
  }

  /** Both allocations get the same new place. */
  lemma PairPlaced(allocs: map<nat, Alloc>, a: Alloc, b: Alloc, p: Place)
    requires allocs == map[1 := a, 2 := b]
    ensures PlaceAll(allocs, {1, 2}, p) == map[1 := a.(place := p), 2 := b.(place := p)]
  {
  }

  lemma OnlyRegion(regions: map<nat, RegionState>, rs: RegionState)
    requires regions.Keys == {0}
    ensures regions[0 := rs] == map[0 := rs]
  {
  }

  lemma PairSettle(s: State, newborn: Alloc)
    requires s == State(map[0 := RegionState(Region(2 * G, 2 * G, 0, {1, 2}), NoScan, 0, 0, 0, 0, 0)],
                        map[1 := newborn.(place := Reserved(0)), 2 := newborn.(place := Reserved(0))],
                        map[0 := Batch(0, [1, 2])])
    ensures Enabled(s, SettleStep(0, 2 * G))
    ensures Apply(s, SettleStep(0, 2 * G)) ==
      State(map[0 := RegionState(Region(2 * G, 2 * G, 0, {1, 2}), NoScan, 2 * G, 0, 0, 0, 0)],
            map[1 := newborn.(place := Backed(0)), 2 := newborn.(place := Backed(0))], map[])
  {
    hide Settle, Count, PlaceAll, DoReserve;
    SettleTwo();
    PairElems();
    var reserved := newborn.(place := Reserved(0));
    var unplaced := newborn.(place := Unplaced);
    PairPlaced(s.allocs, reserved, reserved, Unplaced);
    PairPlaced(map[1 := unplaced, 2 := unplaced], unplaced, unplaced, Backed(0));
    OnlyRegion(s.regions, RegionState(Region(2 * G, 2 * G, 0, {1, 2}), NoScan, 2 * G, 0, 0, 0, 0));
    OnlyBatch(s.batches);
    var rs := RegionState(Region(2 * G, 2 * G, 0, {1, 2}), NoScan, 2 * G, 0, 0, 0, 0);
    var t := DoSettle(s, 0, 2 * G);
    assert t.regions == map[0 := rs];
    assert t.allocs == map[1 := newborn.(place := Backed(0)), 2 := newborn.(place := Backed(0))];
    assert t.batches == map[];
  }

  lemma OneBatch(batches: map<nat, Batch>, batch: Batch)
    requires batches == map[]
    ensures batches[0 := batch] == map[0 := batch]
  {
  }

  lemma OnlyBatch(batches: map<nat, Batch>)
    requires batches.Keys == {0}
    ensures batches - {0} == map[]
  {
  }

  lemma SettleTwo()
    ensures Settle(Region(2 * G, 2 * G, 0, {1, 2}), [1, 2], 2 * G) ==
      Settlement(Region(2 * G, 2 * G, 0, {1, 2}), 2 * G, 0)
    ensures Count(2 * G) == 2
  {
    Chunks(2);
    CountChunks(2 * G);
    PairElems();
  }

  lemma PairPending(t: State, newborn: Alloc)
    requires newborn == Alloc(Fresh, Unplaced, 0, 0, 0, 0, 0)
    requires t == State(map[0 := RegionState(Region(2 * G, 2 * G, 0, {1, 2}), NoScan, 2 * G, 0, 0, 0, 0)],
                        map[1 := newborn.(place := Backed(0)), 2 := newborn.(place := Backed(0))], map[])
    ensures Enabled(t, ScanStart(0, G)) && NextMultiple(G).value > 0 && CanBePassed(t, 0, 2, 1)
  {
  }

  lemma OnlyKey(m: map<nat, Alloc>, k: nat, a: Alloc)
    requires m.Keys == {k}
    ensures m[k := a] == map[k := a]
  {
  }

  lemma RaceReserve(s: State, newborn: Alloc)
    requires s == State(map[0 := RegionState(Region(G, 0, 0, {}), NoScan, 0, 0, 0, 0, 0)], map[1 := newborn], map[])
    requires newborn.place == Unplaced
    ensures Enabled(s, ReserveStep(0, 0, [1]))
    ensures Apply(s, ReserveStep(0, 0, [1])) ==
      State(map[0 := RegionState(Region(G, G, 0, {1}), NoScan, 0, 0, 0, 0, 0)],
            map[1 := newborn.(place := Reserved(0))], map[0 := Batch(0, [1])])
  {
    Chunks(1);
    CountChunks(G);
    assert Reservable(s.regions[0].reg, [1]) == [1];
    assert Elems([1]) == {1};
    var t := Apply(s, ReserveStep(0, 0, [1]));
    assert t.regions[0].reg == Region(G, G, 0, {1});
    assert t.allocs == map[1 := newborn.(place := Reserved(0))];
  }

  lemma RaceSettle(s: State, newborn: Alloc)
    requires s == State(map[0 := RegionState(Region(G, G, 0, {1}), NoScan, 0, 0, 0, 0, 0)],
                        map[1 := newborn.(place := Reserved(0))], map[0 := Batch(0, [1])])
    ensures Enabled(s, SettleStep(0, G))
    ensures Apply(s, SettleStep(0, G)) ==
      State(map[0 := RegionState(Region(G, G, 0, {1}), NoScan, G, 0, 0, 0, 0)],
            map[1 := newborn.(place := Backed(0))], map[])
  {
    hide Settle, Count;
    SettleOne();
    assert [1][..1] == [1] && Elems([1]) == {1};
    var t := Apply(s, SettleStep(0, G));
    assert t.allocs == map[1 := newborn.(place := Backed(0))];
  }

  lemma SettleOne()
    ensures Settle(Region(G, G, 0, {1}), [1], G) == Settlement(Region(G, G, 0, {1}), G, 0) && Count(G) == 1
  {
    Chunks(1);
    CountChunks(G);
    assert Elems([1][1..]) == {};
  }
}
