/** What holds after every run of the allocation protocol. */
module Runs {
  import opened Granularity
  import opened Collections
  import opened Donor
  import opened Allocation
  import opened Protocol

  ghost predicate Legal(s: State, steps: seq<Step>)
    decreases |steps|
  {
    steps == [] || (Enabled(s, steps[0]) && Legal(Apply(s, steps[0]), steps[1..]))
  }

  ghost function Exec(s: State, steps: seq<Step>): State
    requires Legal(s, steps)
    decreases |steps|
  {
    if steps == [] then s else Exec(Apply(s, steps[0]), steps[1..])
  }

  lemma StepKeeps(s: State, step: Step)
    requires Inv(s) && Enabled(s, step)
    ensures Inv(Apply(s, step))
  {
    hide Inv, Apply, Enabled;
    match step
    case Create(id) => CreateKeeps(s, id);
    case ReserveStep(b, r, rsvd) => ReserveStepKeeps(s, b, r, rsvd);
    case SettleStep(b, granted) => SettleStepKeeps(s, b, granted);
    case SendExcess(r, bytes) => SendExcessKeeps(s, r, bytes);
    case Call(id, e) => CallKeeps(s, id, e);
    case ScanStart(r, size) => ScanStartKeeps(s, r, size);
    case ScanVisit(r, id) => ScanVisitKeeps(s, r, id);
    case ScanEnd(r) => ScanEndKeeps(s, r);
    case SendReturn(r, ids, accepted) => SendReturnKeeps(s, r, ids, accepted);
    case DropDuty(id) => DropDutyKeeps(s, id);
    case Book(id) => BookKeeps(s, id);
  }

  lemma InitHolds(s: State)
    requires Init(s)
    ensures Inv(s)
  {
    forall r | r in s.regions ensures RegionInv(s, r) {
      assert Listed(s, r) == {} && Unreturned(s.allocs, r) == {} && Claimed(s.allocs, r) == {};
    }
  }

  lemma {:induction false} RunKeeps(s: State, steps: seq<Step>)
    requires Inv(s) && Legal(s, steps)
    ensures Inv(Exec(s, steps))
    decreases |steps|
  {
    hide Inv, Apply, Enabled;
    if steps != [] {
      StepKeeps(s, steps[0]);
      RunKeeps(Apply(s, steps[0]), steps[1..]);
    }
  }

  /**
   * Donor-memory ledger. Whatever the interleaving, every byte a donor granted (up to what was
   * asked) is in a return command already issued, in one about to be, or in a chunk backing an
   * allocation that no return command covers; and no allocation is covered by two.
   */
  lemma DonorMemoryIsConserved(s: State, steps: seq<Step>, r: nat)
    requires Init(s) && Legal(s, steps) && r in Exec(s, steps).regions
    ensures var t := Exec(s, steps);
      && t.regions[r].granted == t.regions[r].issued + t.regions[r].excess + G * |Unreturned(t.allocs, r)|
      && t.regions[r].issued <= t.regions[r].granted
      && forall id :: id in t.allocs ==> t.allocs[id].sent <= 1 && t.allocs[id].held + t.allocs[id].sent <= 1
  {
    hide Legal, Exec, Init, AllocInv;
    var t := Exec(s, steps);
    InitHolds(s);
    RunKeeps(s, steps);
    assert RegionInv(t, r);
    forall id | id in t.allocs
      ensures t.allocs[id].sent <= 1 && t.allocs[id].held + t.allocs[id].sent <= 1
    {
      DutyFate(t, id);
    }
  }

  /**
   * Exactly once: the duty to return an allocation exists from the moment its commit and an
   * abandonment have both completed, and from then on it is held, dropped or sent, once.
   */
  lemma DutyFate(t: State, id: nat)
    requires Inv(t) && id in t.allocs
    ensures var a := t.allocs[id];
      a.held + a.dropped + a.sent == (if a.h.progress.Finished? && a.h.abandons > 0 then 1 else 0)
    ensures t.allocs[id].h.panics == 0
  {
    hide BatchesInv, RegionsInv;
    assert AllocInv(t.allocs[id]);
  }

  /**
   * Revocation ledger. The bytes that donors asked back, each request rounded up to whole
   * chunks, equal one chunk for every allocation a revoke has won, plus what was kept back from
   * later grants, plus what the region still owes, plus what a scan in progress still seeks.
   */
  lemma RevocationsAreAccountedFor(s: State, steps: seq<Step>, r: nat)
    requires Init(s) && Legal(s, steps) && r in Exec(s, steps).regions
    ensures var t := Exec(s, steps);
      && t.regions[r].revoked ==
         G * |Claimed(t.allocs, r)| + t.regions[r].clawed + t.regions[r].reg.owed + StillSought(t.regions[r].scan)
      && forall id :: id in t.allocs ==> t.allocs[id].h.claims <= 1
  {
    hide Legal, Exec, Init, Unreturned, Claimed, Listed;
    InitHolds(s);
    RunKeeps(s, steps);
    assert RegionInv(Exec(s, steps), r);
    assert forall id :: id in Exec(s, steps).allocs ==> AllocInv(Exec(s, steps).allocs[id]);
  }

  /**
   * In every reachable state a region has donated at least G per listed allocation and at most
   * its size, in whole chunks, and no allocation is listed in two regions.
   */
  lemma RegionsStaySound(s: State, steps: seq<Step>, r: nat)
    requires Init(s) && Legal(s, steps) && r in Exec(s, steps).regions
    ensures var t := Exec(s, steps);
      var reg := t.regions[r].reg;
      && G * |reg.ids| <= reg.donated <= reg.size
      && Whole(reg.donated) && Whole(reg.owed)
      && forall q, id :: q in t.regions && id in reg.ids && id in t.regions[q].reg.ids ==> q == r
  {
    hide Legal, Exec, Init, DonorLedger, RevokeLedger, Unreturned, Claimed, AllocInv;
    var t := Exec(s, steps);
    InitHolds(s);
    RunKeeps(s, steps);
    assert RegionInv(t, r);
    forall q, id | q in t.regions && id in t.regions[r].reg.ids && id in t.regions[q].reg.ids ensures q == r {
      assert RegionInv(t, q);
    }
  }

  /** A bookkeeping call always finds its allocation and enough donated memory: no warning is ever printed. */
  lemma BookkeepingNeverWarns(s: State, steps: seq<Step>, id: nat)
    requires Init(s) && Legal(s, steps) && Enabled(Exec(s, steps), Book(id))
    ensures var t := Exec(s, steps);
      var reg := t.regions[t.allocs[id].place.region].reg;
      id in reg.ids && G <= reg.donated
  {
    hide Legal, Exec, Init;
    var t := Exec(s, steps);
    InitHolds(s);
    RunKeeps(s, steps);
    BookAlloc(t, id);
    assert RegionInv(t, t.allocs[id].place.region);
    BookkeepKeeps(t.regions[t.allocs[id].place.region].reg, id);
  }

  lemma SlackStep(s: State, step: Step, r: nat)
    requires Inv(s) && Enabled(s, step) && r in s.regions
    ensures r in Apply(s, step).regions && Apply(s, step).regions[r].reg.Slack() >= s.regions[r].reg.Slack()
  {
    hide Inv, Settle, DoSettle, DoReserve, DoBook, After;
    match step
    case ReserveStep(b, q, rsvd) => SlackReserved(s, b, q, rsvd, r);
    case SettleStep(b, granted) => SlackSettled(s, b, granted, r);
    case Book(id) => SlackBooked(s, id, r);
    case _ =>
  }

  lemma SlackReserved(s: State, b: nat, q: nat, rsvd: seq<nat>, r: nat)
    requires Inv(s) && Enabled(s, ReserveStep(b, q, rsvd)) && r in s.regions
    ensures r in DoReserve(s, b, q, rsvd).regions
    ensures DoReserve(s, b, q, rsvd).regions[r].reg.Slack() == s.regions[r].reg.Slack()
  {
    hide AllocsInv, BatchesInv, RegionsInv, Listed, Unreturned, Claimed, Reservable, ReserveBytes, Distinct, Reserve;
    if q == r {
      RegionOf(s, r);
      var ids := Reservable(s.regions[r].reg, rsvd);
      ReserveSets(s, DoReserve(s, b, r, rsvd), b, r, rsvd, ids);
      PrefixDistinct(ids, rsvd);
      ReserveKeeps(s.regions[r].reg, ids, G * |rsvd|);
    }
  }

  lemma SlackSettled(s: State, b: nat, granted: nat, r: nat)
    requires Inv(s) && Enabled(s, SettleStep(b, granted)) && r in s.regions
    ensures r in DoSettle(s, b, granted).regions
    ensures DoSettle(s, b, granted).regions[r].reg.Slack() >= s.regions[r].reg.Slack()
  {
    hide Inv, Listed, Unreturned, Claimed, Settle, Count, Distinct, Region.Slack, Region.Ok;
    if s.batches[b].region == r {
      var ids := s.batches[b].ids;
      var t := DoSettle(s, b, granted);
      RegionOf(s, r);
      Untried(s, b);
      SettleFits(s, b, granted);
      SettleListed(s, t, b, granted, r, ids, Count(Settle(s.regions[r].reg, ids, granted).usable));
      SettleKeeps(s.regions[r].reg, ids, granted);
      var usable := Settle(s.regions[r].reg, ids, granted).usable;
      AtLeast(G * |ids|, usable, Count(usable), |ids|);
    }
  }

  lemma AtLeast(asked: nat, usable: nat, k: nat, n: nat)
    requires asked == G * n && usable == G * k && k <= n
    ensures usable <= asked
  {
  }

  lemma SlackBooked(s: State, id: nat, r: nat)
    requires Inv(s) && Enabled(s, Book(id)) && r in s.regions
    ensures r in DoBook(s, id).regions && DoBook(s, id).regions[r].reg.Slack() == s.regions[r].reg.Slack()
  {
    hide Inv, Bookkeep, Region.Slack, Region.Ok, Listed, Unreturned, Claimed;
    if s.allocs[id].place.region == r {
      RegionOf(s, r);
      BookAlloc(s, id);
      BookkeepKeeps(s.regions[r].reg, id);
    }
  }

  lemma PrefixDistinct(p: seq<nat>, s: seq<nat>)
    requires p <= s && Distinct(s)
    ensures Distinct(p)
  {
  }

  /** Memory that a donor failed to give, or took back early, is never offered again. */
  lemma {:induction false} SlackNeverShrinks(s: State, steps: seq<Step>, r: nat)
    requires Inv(s) && Legal(s, steps) && r in s.regions
    ensures r in Exec(s, steps).regions && Exec(s, steps).regions[r].reg.Slack() >= s.regions[r].reg.Slack()
    decreases |steps|
  {
    hide Inv, Apply, Enabled;
    if steps != [] {
      StepKeeps(s, steps[0]);
      SlackStep(s, steps[0], r);
      SlackNeverShrinks(Apply(s, steps[0]), steps[1..], r);
    }
  }

  // ---------------------------------------------------------------- what a request may rely on

  /** The step is not one that the request owning `mine` takes itself. */
  ghost predicate ByOthers(s: State, step: Step, mine: set<nat>)
    requires Enabled(s, step)
  {
    match step
    case ReserveStep(b, r, rsvd) => forall id :: id in rsvd ==> id !in mine
    case SettleStep(b, granted) => forall id :: id in s.batches[b].ids ==> id !in mine
    case Call(id, e) => id in mine ==> e.AbandonEvent?
    case _ => true
  }

  lemma OneOtherStep(s: State, step: Step, mine: set<nat>, id: nat, r: nat)
    requires Inv(s) && Enabled(s, step) && ByOthers(s, step, mine) && id in mine && id in s.allocs && r in s.regions
    ensures Respected(s, Apply(s, step), id, r)
  {
    hide RegionsInv, BatchesInv, Distinct, NextMultiple, ReserveBytes, Count, Whole;
    assert AllocInv(s.allocs[id]);
  }

  /** Steps of other threads, as many as there may be between two of the request's own. */
  ghost predicate OthersRun(s: State, steps: seq<Step>, mine: set<nat>)
    decreases |steps|
  {
    steps == [] ||
    (Enabled(s, steps[0]) && ByOthers(s, steps[0], mine) && OthersRun(Apply(s, steps[0]), steps[1..], mine))
  }

  /** What happened to one allocation of a request, and to its listing in one region. */
  ghost predicate Respected(s: State, t: State, id: nat, r: nat) {
    && id in s.allocs && id in t.allocs && r in s.regions && r in t.regions
    && t.allocs[id].h.progress == s.allocs[id].h.progress
    && (s.allocs[id].h.state.PendingCommit? ==> t.allocs[id].h.state.PendingCommit? || t.allocs[id].h.state.Abandoned?)
    && (s.allocs[id].h.state.Abandoned? ==> t.allocs[id].h.state.Abandoned?)
    && (id in t.regions[r].reg.ids ==> id in s.regions[r].reg.ids)
    && (s.allocs[id].h.progress.NotStarted? && id in s.regions[r].reg.ids ==> id in t.regions[r].reg.ids)
  }

  /**
   * A request that other threads interrupt, for any number of their steps, finds its allocations
   * as it may expect: nobody else commits one, lists one, or unlists one whose donor has not been
   * recorded.
   */
  lemma {:induction false} OthersRespectARequest(s: State, steps: seq<Step>, mine: set<nat>, id: nat, r: nat)
    requires Inv(s) && OthersRun(s, steps, mine) && id in mine && id in s.allocs && r in s.regions
    ensures Legal(s, steps) && Respected(s, Exec(s, steps), id, r)
    decreases |steps|
  {
    hide Inv, Enabled, Apply, ByOthers;
    if steps != [] {
      StepKeeps(s, steps[0]);
      OneOtherStep(s, steps[0], mine, id, r);
      OthersRespectARequest(Apply(s, steps[0]), steps[1..], mine, id, r);
    }
  }
}
