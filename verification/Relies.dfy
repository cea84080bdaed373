/**
 * What the methods that run among other threads rely on, derived from the state machine: a revoke
 * that holds its region's lock, and a thread that hands allocations back.
 */
module Relies {
  import opened Granularity
  import opened Collections
  import opened Allocation
  import opened Donor
  import opened Protocol
  import opened Runs
  import opened Revokes

  // ---------------------------------------------------------------- a locked region

  /** A step that the revoke of region `r` does not take itself. */
  predicate NotTheScan(step: Step, r: nat) {
    step != ScanEnd(r) && !(step.ScanVisit? && step.region == r)
  }

  lemma TurnStep(s: State, step: Step, r: nat, x: nat)
    requires Inv(s) && Enabled(s, step) && InScan(s, r) && NotTheScan(step, r) && x in s.regions[r].reg.ids
    ensures x in s.allocs && x in Apply(s, step).allocs
    ensures MayTurn(s.allocs[x].h.state, Apply(s, step).allocs[x].h.state)
  {
    hide Inv, NextMultiple, DoReserve, DoSettle, DoVisit, DoCall, DoReturn, DoBook, AllocInv;
    OwnPlace(s, r, x);
    match step
    case ReserveStep(b, q, rsvd) => StillReserve(s, b, q, rsvd, r, x);
    case SettleStep(b, granted) => StillSettle(s, b, granted, r, x);
    case Call(id, e) => if id == x { TurnCall(s.allocs[x], e); }
    case ScanVisit(q, id) => TurnVisit(s, q, id, r, x);
    case SendReturn(q, ids, accepted) => StillReturn(s, q, ids, accepted, x);
    case Book(id) => StillBook(s, id, r, x);
    case _ =>
  }

  lemma TurnCall(a: Alloc, e: Event)
    requires AllocInv(a) && Allowed(a.h, e) && !e.ClaimEvent?
    ensures MayTurn(a.h.state, DoCall(a, e).h.state)
  {
  }

  /** An allocation listed in `r` is not looked at by the revoke of another region. */
  lemma TurnVisit(s: State, q: nat, id: nat, r: nat, x: nat)
    requires Inv(s) && Enabled(s, ScanVisit(q, id)) && q != r && r in s.regions && x in s.regions[r].reg.ids
    ensures x in s.allocs && x in DoVisit(s, q, id).allocs && DoVisit(s, q, id).allocs[x] == s.allocs[x]
  {
    hide Inv, AllocInv;
    OwnPlace(s, r, x);
    TodoListed(s, q);
    OwnPlace(s, q, id);
  }

  lemma NotScanEnd(step: Step, r: nat)
    requires NotTheScan(step, r)
    ensures step != ScanEnd(r)
  {
  }

  lemma SameTurn(a: AllocState)
    ensures MayTurn(a, a)
  {
  }

  lemma TurnsOn(a: AllocState, b: AllocState, c: AllocState)
    requires MayTurn(a, b) && MayTurn(b, c)
    ensures MayTurn(a, c)
  {
  }

  /**
   * What `DonatableRegion.Interfere` may do: for as many steps of other threads as there are
   * between two visits of a revoke, its region stays and each listed allocation only turns.
   */
  lemma {:induction false} OthersOnlyTurn(s: State, steps: seq<Step>, r: nat, x: nat)
    requires Inv(s) && Legal(s, steps) && InScan(s, r) && x in s.regions[r].reg.ids
    requires forall step :: step in steps ==> NotTheScan(step, r)
    ensures InScan(Exec(s, steps), r) && Exec(s, steps).regions[r].reg == s.regions[r].reg
    ensures x in s.allocs && x in Exec(s, steps).allocs
    ensures MayTurn(s.allocs[x].h.state, Exec(s, steps).allocs[x].h.state)
    decreases |steps|
  {
    hide Inv, Enabled, Apply, MayTurn, AllocInv, ListedIn, NotTheScan;
    OwnPlace(s, r, x);
    SameTurn(s.allocs[x].h.state);
    if steps != [] {
      var t := Apply(s, steps[0]);
      StepKeeps(s, steps[0]);
      NotScanEnd(steps[0], r);
      ScanStep(s, steps[0], r);
      TurnStep(s, steps[0], r, x);
      OthersOnlyTurn(t, steps[1..], r, x);
      TurnsOn(s.allocs[x].h.state, t.allocs[x].h.state, Exec(s, steps).allocs[x].h.state);
    }
  }

  // ---------------------------------------------------------------- allocations being handed back

  /** The donor has been recorded, for good, and an allocation that is won has one. */
  ghost predicate Progressed(a: Alloc, b: Alloc) {
    && (a.h.state.Abandoned? ==> b.h.state.Abandoned?)
    && (!a.h.progress.NotStarted? ==> !b.h.progress.NotStarted? && b.place == a.place)
    && (Abandon(a.h.state).1 ==> Abandon(b.h.state).1 || b.h.state.Abandoned?)
    && Recorded(a) && Recorded(b)
  }

  ghost predicate Recorded(a: Alloc) {
    Abandon(a.h.state).1 ==> !a.h.progress.NotStarted? && a.place.Backed?
  }

  lemma AlwaysRecorded(a: Alloc)
    requires AllocInv(a)
    ensures Recorded(a)
  {
  }

  lemma PassStep(s: State, step: Step, id: nat)
    requires Inv(s) && Enabled(s, step) && id in s.allocs
    ensures id in Apply(s, step).allocs && Progressed(s.allocs[id], Apply(s, step).allocs[id])
  {
    hide Inv, NextMultiple, Distinct, ReserveBytes, Settle, Count;
    StepKeeps(s, step);
    AllocOf(s, id);
    AlwaysRecorded(s.allocs[id]);
    match step
    case SettleStep(b, granted) => Untried(s, b);
    case _ =>
  }

  lemma AllocOf(s: State, id: nat)
    requires Inv(s) && id in s.allocs
    ensures AllocInv(s.allocs[id])
  {
  }

  lemma PassedOn(a: Alloc, b: Alloc, c: Alloc)
    requires Progressed(a, b) && Progressed(b, c)
    ensures Progressed(a, c)
  {
  }

  /**
   * What `Grouping.Interfere` may do to an allocation, for any number of steps: abandonment is
   * final, a record stays, a committed allocation stays so unless it is abandoned, and one that
   * can be won has its donor recorded.
   */
  lemma {:induction false} OthersOnlyPass(s: State, steps: seq<Step>, id: nat)
    requires Inv(s) && Legal(s, steps) && id in s.allocs
    ensures id in Exec(s, steps).allocs && Progressed(s.allocs[id], Exec(s, steps).allocs[id])
    decreases |steps|
  {
    hide Inv, Enabled, Apply, Progressed;
    if steps == [] {
      AllocOf(s, id);
      SameProgressed(s.allocs[id]);
    } else {
      var t := Apply(s, steps[0]);
      StepKeeps(s, steps[0]);
      PassStep(s, steps[0], id);
      OthersOnlyPass(t, steps[1..], id);
      PassedOn(s.allocs[id], t.allocs[id], Exec(s, steps).allocs[id]);
    }
  }

  lemma SameProgressed(a: Alloc)
    requires AllocInv(a)
    ensures Progressed(a, a)
  {
  }
}
