/**
 * The orchestrator's allocation protocol as a state machine. Its steps are the sections that
 * run under one lock (or on one write-once cell) and the commands sent to donors; everything
 * between them may be interleaved freely, and donors may answer anything.
 *
 * A revoke locks the donor's region for its whole scan but each allocation only while it looks
 * at it, so a scan is a sequence of steps during which the region, but not its allocations,
 * stays out of reach of other threads.
 */
module Protocol {
  import opened Granularity
  import opened Collections
  import opened Donor
  import opened Allocation

  /** Not in any region; reserved by a batch still negotiating; or backed by a region. */
  datatype Place = Unplaced | Reserved(batch: nat) | Backed(region: nat)

  /**
   * An allocation with the fate of the duty to return its memory: held by some caller, dropped
   * (the donor had exited), or turned into a return command; and of the bookkeeping calls
   * that follow a command the donor accepted.
   */
  datatype Alloc = Alloc(h: History, place: Place, held: nat, dropped: nat, sent: nat, booking: nat, booked: nat)

  /** One request in flight to a donor. */
  datatype Batch = Batch(region: nat, ids: seq<nat>)

  /** A revoke in progress: bytes still to find, ids not yet looked at, ids passed before their commit finished. */
  datatype Scan = NoScan | Scan(remaining: nat, todo: set<nat>, early: set<nat>)

  /** A region with the running totals of what happened to it. */
  datatype RegionState = RegionState(
    reg: Region, scan: Scan,
    granted: nat, issued: nat, excess: nat, revoked: nat, clawed: nat)

  datatype State = State(regions: map<nat, RegionState>, allocs: map<nat, Alloc>, batches: map<nat, Batch>)

  datatype Step =
    | Create(id: nat)
    | ReserveStep(batch: nat, region: nat, rsvd: seq<nat>)
    | SettleStep(batch: nat, granted: nat)
    | SendExcess(region: nat, bytes: nat)
    | Call(id: nat, event: Event)
    | ScanStart(region: nat, size: nat)
    | ScanVisit(region: nat, id: nat)
    | ScanEnd(region: nat)
    | SendReturn(region: nat, ids: set<nat>, accepted: bool)
    | DropDuty(id: nat)
    | Book(id: nat)

  // ---------------------------------------------------------------- steps

  ghost predicate Enabled(s: State, step: Step) {
    match step
    case Create(id) => id !in s.allocs
    case ReserveStep(b, r, rsvd) =>
      b !in s.batches && r in s.regions && s.regions[r].scan.NoScan? &&
      s.regions[r].reg.donated <= s.regions[r].reg.size &&
      G <= s.regions[r].reg.size - s.regions[r].reg.donated &&
      Distinct(rsvd) && forall id :: id in rsvd ==> id in s.allocs && s.allocs[id].place.Unplaced?
    case SettleStep(b, granted) =>
      b in s.batches && s.batches[b].region in s.regions && s.regions[s.batches[b].region].scan.NoScan?
    case SendExcess(r, bytes) => r in s.regions && bytes <= s.regions[r].excess
    case Call(id, e) =>
      id in s.allocs && !e.ClaimEvent? && Allowed(s.allocs[id].h, e) &&
      (e.RecordEvent? ==> s.allocs[id].place.Backed?)
    case ScanStart(r, size) => r in s.regions && s.regions[r].scan.NoScan? && NextMultiple(size).Some?
    case ScanVisit(r, id) =>
      r in s.regions && s.regions[r].scan.Scan? && s.regions[r].scan.remaining > 0 && id in s.allocs &&
      id in s.regions[r].scan.todo && forall x :: x in s.regions[r].scan.todo ==> x <= id
    case ScanEnd(r) =>
      r in s.regions && s.regions[r].scan.Scan? && (s.regions[r].scan.remaining == 0 || s.regions[r].scan.todo == {})
    case SendReturn(r, ids, accepted) =>
      r in s.regions && forall id :: id in ids ==>
        id in s.allocs && s.allocs[id].place == Backed(r) && s.allocs[id].held > 0
    case DropDuty(id) => id in s.allocs && s.allocs[id].held > 0
    case Book(id) =>
      id in s.allocs && s.allocs[id].booking > 0 && s.allocs[id].place.Backed? &&
      s.allocs[id].place.region in s.regions && s.regions[s.allocs[id].place.region].scan.NoScan?
  }

  function Apply(s: State, step: Step): State
    requires Enabled(s, step)
  {
    match step
    case Create(id) => s.(allocs := s.allocs[id := Alloc(Fresh, Unplaced, 0, 0, 0, 0, 0)])
    case ReserveStep(b, r, rsvd) => DoReserve(s, b, r, rsvd)
    case SettleStep(b, granted) => DoSettle(s, b, granted)
    case SendExcess(r, bytes) =>
      var rs := s.regions[r];
      s.(regions := s.regions[r := rs.(issued := rs.issued + bytes, excess := rs.excess - bytes)])
    case Call(id, e) => s.(allocs := s.allocs[id := DoCall(s.allocs[id], e)])
    case ScanStart(r, size) =>
      var rs := s.regions[r];
      var rounded := NextMultiple(size).value;
      s.(regions := s.regions[r := rs.(scan := Scan(rounded, rs.reg.ids, {}), revoked := rs.revoked + rounded)])
    case ScanVisit(r, id) => DoVisit(s, r, id)
    case ScanEnd(r) =>
      var rs := s.regions[r];
      s.(regions := s.regions[r := rs.(reg := rs.reg.(owed := rs.reg.owed + rs.scan.remaining), scan := NoScan)])
    case SendReturn(r, ids, accepted) => DoReturn(s, r, ids, accepted)
    case DropDuty(id) =>
      var a := s.allocs[id];
      s.(allocs := s.allocs[id := a.(held := a.held - 1, dropped := a.dropped + 1)])
    case Book(id) => DoBook(s, id)
  }

  /** Gives every allocation of `ids` the place `p`. */
  function PlaceAll(allocs: map<nat, Alloc>, ids: set<nat>, p: Place): map<nat, Alloc> {
    map id | id in allocs :: if id in ids then allocs[id].(place := p) else allocs[id]
  }

  function DoReserve(s: State, b: nat, r: nat, rsvd: seq<nat>): State
    requires r in s.regions && s.regions[r].reg.donated <= s.regions[r].reg.size
  {
    var rs := s.regions[r];
    var ids := Reservable(rs.reg, rsvd);
    State(s.regions[r := rs.(reg := Donor.Reserve(rs.reg, ids))],
          PlaceAll(s.allocs, Elems(ids), Reserved(b)),
          s.batches[b := Batch(r, ids)])
  }

  /** The whole chunks of a grant that do not reach the request: they pay a debt. */
  function KeptBack(granted: nat, n: nat, usable: nat): nat {
    SaturatingSub(AlignDown(Min(granted, G * n)), usable)
  }

  function DoSettle(s: State, b: nat, granted: nat): State
    requires b in s.batches && s.batches[b].region in s.regions
  {
    var r, ids := s.batches[b].region, s.batches[b].ids;
    var rs := s.regions[r];
    var settled := Settle(rs.reg, ids, granted);
    CountMonotone(settled.usable, |ids|);
    var k := Count(settled.usable);
    State(s.regions[r := rs.(reg := settled.region,
                             granted := rs.granted + Min(granted, G * |ids|),
                             excess := rs.excess + settled.giveBack,
                             clawed := rs.clawed + KeptBack(granted, |ids|, settled.usable))],
          PlaceAll(PlaceAll(s.allocs, Elems(ids), Unplaced), Elems(ids[..k]), Backed(r)),
          s.batches - {b})
  }

  function DoCall(a: Alloc, e: Event): Alloc {
    var h := After(a.h, e);
    a.(h := h, held := a.held + SaturatingSub(h.Duties(), a.h.Duties()))
  }

  function DoVisit(s: State, r: nat, id: nat): State
    requires r in s.regions && s.regions[r].scan.Scan? && id in s.allocs
  {
    var rs, a := s.regions[r], s.allocs[id];
    var h := After(a.h, ClaimEvent);
    var won := h.claims > a.h.claims;
    var early := if a.h.progress.Finished? then rs.scan.early else rs.scan.early + {id};
    var remaining := if won then SaturatingSub(rs.scan.remaining, G) else rs.scan.remaining;
    var scan := Scan(remaining, rs.scan.todo - {id}, early);
    s.(regions := s.regions[r := rs.(scan := scan)], allocs := s.allocs[id := a.(h := h)])
  }

  function DoReturn(s: State, r: nat, ids: set<nat>, accepted: bool): State
    requires r in s.regions && forall id :: id in ids ==> id in s.allocs && s.allocs[id].held > 0
  {
    var rs := s.regions[r];
    State(s.regions[r := rs.(issued := rs.issued + G * |ids|)],
          map id | id in s.allocs :: if id in ids then Returned(s.allocs[id], accepted) else s.allocs[id],
          s.batches)
  }

  function Returned(a: Alloc, accepted: bool): Alloc
    requires a.held > 0
  {
    a.(held := a.held - 1, sent := a.sent + 1, booking := a.booking + if accepted then 1 else 0)
  }

  function DoBook(s: State, id: nat): State
    requires id in s.allocs && s.allocs[id].booking > 0 && s.allocs[id].place.Backed?
    requires s.allocs[id].place.region in s.regions
  {
    var a := s.allocs[id];
    var r := a.place.region;
    var rs := s.regions[r];
    s.(regions := s.regions[r := rs.(reg := Bookkeep(rs.reg, id))],
       allocs := s.allocs[id := a.(booking := a.booking - 1, booked := a.booked + 1)])
  }

  // ---------------------------------------------------------------- the invariant

  /** Allocations backed by the region for which no return command has been sent. */
  ghost function Unreturned(allocs: map<nat, Alloc>, r: nat): set<nat> {
    set id | id in allocs && allocs[id].place == Backed(r) && allocs[id].sent == 0
  }

  /** Allocations of the region that some revoke has won. */
  ghost function Claimed(allocs: map<nat, Alloc>, r: nat): set<nat> {
    set id | id in allocs && allocs[id].place == Backed(r) && allocs[id].h.claims > 0
  }

  ghost predicate ListedIn(s: State, a: Alloc, r: nat) {
    match a.place
    case Unplaced => false
    case Reserved(b) => b in s.batches && s.batches[b].region == r
    case Backed(q) => q == r && a.booked == 0
  }

  ghost function Listed(s: State, r: nat): set<nat> {
    set id | id in s.allocs && ListedIn(s, s.allocs[id], r)
  }

  ghost predicate AllocInv(a: Alloc) {
    && Sound(a.h)
    && (a.place.Backed? || a.h.progress.NotStarted?)
    && a.held + a.dropped + a.sent == a.h.Duties()
    && a.booking + a.booked <= a.sent
  }

  ghost predicate PlaceInv(s: State, id: nat)
    requires id in s.allocs
  {
    match s.allocs[id].place
    case Unplaced => true
    case Reserved(b) => b in s.batches && id in s.batches[b].ids
    case Backed(r) => r in s.regions
  }

  ghost predicate BatchInv(s: State, b: nat)
    requires b in s.batches
  {
    s.batches[b].region in s.regions && Distinct(s.batches[b].ids) &&
    forall id :: id in s.batches[b].ids ==> id in s.allocs && s.allocs[id].place == Reserved(b)
  }

  function StillSought(scan: Scan): nat {
    if scan.Scan? then scan.remaining else 0
  }

  /** granted = sent back + about to be sent back + G for every chunk that nobody sent back. */
  ghost predicate DonorLedger(rs: RegionState, unreturned: nat) {
    rs.granted == rs.issued + rs.excess + G * unreturned
  }

  /** revoked = G for every allocation won + taken out of grants + owed + still being looked for. */
  ghost predicate RevokeLedger(rs: RegionState, claimed: nat) {
    rs.revoked == G * claimed + rs.clawed + rs.reg.owed + StillSought(rs.scan)
  }

  /** Committed, or yet to commit. */
  predicate Catchable(h: History) {
    h.state.Committed? || !h.progress.Finished?
  }

  ghost predicate ScanInv(s: State, rs: RegionState) {
    match rs.scan
    case NoScan => true
    case Scan(remaining, todo, early) =>
      Whole(remaining) && todo <= rs.reg.ids && early <= rs.reg.ids &&
      forall id :: id in rs.reg.ids && id in s.allocs && Catchable(s.allocs[id].h) ==> id in todo || id in early
  }

  ghost predicate RegionInv(s: State, r: nat)
    requires r in s.regions
  {
    var rs := s.regions[r];
    && rs.reg.Ok()
    && rs.reg.ids == Listed(s, r)
    && ScanInv(s, rs)
    && DonorLedger(rs, |Unreturned(s.allocs, r)|)
    && RevokeLedger(rs, |Claimed(s.allocs, r)|)
  }

  ghost predicate AllocsInv(s: State) {
    forall id :: id in s.allocs ==> AllocInv(s.allocs[id]) && PlaceInv(s, id)
  }

  ghost predicate BatchesInv(s: State) {
    forall b :: b in s.batches ==> BatchInv(s, b)
  }

  ghost predicate RegionsInv(s: State) {
    forall r :: r in s.regions ==> RegionInv(s, r)
  }

  ghost predicate Inv(s: State) {
    AllocsInv(s) && BatchesInv(s) && RegionsInv(s)
  }

  ghost predicate Init(s: State) {
    s.allocs == map[] && s.batches == map[] &&
    forall r :: r in s.regions ==>
      exists size: nat :: s.regions[r] == RegionState(Region(size, 0, 0, {}), NoScan, 0, 0, 0, 0, 0)
  }

  // ---------------------------------------------------------------- every step keeps the invariant

  /** The step may have moved the allocation's history on, but nothing its region counts. */
  ghost predicate SameRole(a: Alloc, b: Alloc) {
    a.place == b.place && a.sent == b.sent && a.booked == b.booked && a.h.claims == b.h.claims &&
    (Catchable(b.h) ==> Catchable(a.h))
  }

  /** `t` differs from `s` only in what its allocations have been through, and in new ones. */
  ghost predicate RolesKept(s: State, t: State) {
    && t.regions == s.regions && t.batches == s.batches
    && (forall id :: id in s.allocs ==> id in t.allocs && SameRole(s.allocs[id], t.allocs[id]))
    && (forall id :: id in t.allocs && id !in s.allocs ==> t.allocs[id].place.Unplaced?)
  }

  lemma RolesKeptSets(s: State, t: State, r: nat)
    requires RolesKept(s, t)
    ensures Listed(t, r) == Listed(s, r)
    ensures Unreturned(t.allocs, r) == Unreturned(s.allocs, r) && Claimed(t.allocs, r) == Claimed(s.allocs, r)
  {
  }

  lemma RolesKeptScan(s: State, t: State, r: nat)
    requires RolesKept(s, t) && r in s.regions && ScanInv(s, s.regions[r]) && s.regions[r].reg.ids == Listed(s, r)
    ensures ScanInv(t, s.regions[r])
  {
  }

  lemma RolesKeptRegions(s: State, t: State)
    requires RegionsInv(s) && BatchesInv(s) && RolesKept(s, t)
    ensures RegionsInv(t) && BatchesInv(t)
  {
    forall r | r in t.regions ensures RegionInv(t, r) {
      hide RolesKept, Listed, Unreturned, Claimed, ScanInv, DonorLedger, RevokeLedger;
      assert RegionInv(s, r);
      assert t.regions == s.regions by { RegionsSame(s, t); }
      RolesKeptSets(s, t, r);
      RolesKeptScan(s, t, r);
    }
    forall b | b in t.batches ensures BatchInv(t, b) {
      assert BatchInv(s, b);
    }
  }

  lemma RegionsSame(s: State, t: State)
    requires RolesKept(s, t)
    ensures t.regions == s.regions
  {
  }

  lemma CreateKeeps(s: State, id: nat)
    requires Inv(s) && Enabled(s, Create(id))
    ensures Inv(Apply(s, Create(id)))
  {
    hide RegionsInv, BatchesInv, AllocsInv, AllocInv;
    FreshInv(Alloc(Fresh, Unplaced, 0, 0, 0, 0, 0));
    RolesKeptRegions(s, Apply(s, Create(id)));
    OneAlloc(s, Apply(s, Create(id)), id);
  }

  lemma OneAlloc(s: State, t: State, id: nat)
    requires AllocsInv(s) && id in t.allocs && t == s.(allocs := s.allocs[id := t.allocs[id]])
    requires AllocInv(t.allocs[id]) && PlaceInv(t, id)
    ensures AllocsInv(t)
  {
    hide AllocInv;
  }

  lemma FreshInv(a: Alloc)
    requires a == Alloc(Fresh, Unplaced, 0, 0, 0, 0, 0)
    ensures AllocInv(a)
  {
    hide Sound;
    FreshSound(a.h);
  }

  lemma CallKeeps(s: State, id: nat, e: Event)
    requires Inv(s) && Enabled(s, Call(id, e))
    ensures Inv(Apply(s, Call(id, e)))
  {
    hide RegionsInv, BatchesInv, Sound, After, DoCall;
    CallAlloc(s.allocs[id], e);
    RolesKeptRegions(s, Apply(s, Call(id, e)));
  }

  lemma CallAlloc(a: Alloc, e: Event)
    requires AllocInv(a) && Allowed(a.h, e) && !e.ClaimEvent? && (e.RecordEvent? ==> a.place.Backed?)
    ensures AllocInv(DoCall(a, e)) && SameRole(a, DoCall(a, e))
  {
    SoundStep(a.h, e);
  }

  lemma DropDutyKeeps(s: State, id: nat)
    requires Inv(s) && Enabled(s, DropDuty(id))
    ensures Inv(Apply(s, DropDuty(id)))
  {
    hide RegionsInv, BatchesInv, Sound;
    RolesKeptRegions(s, Apply(s, DropDuty(id)));
  }

  /** The allocation is nowhere, in a batch with region `r`, or backed by `r`. */
  ghost predicate AtMostIn(s: State, a: Alloc, r: nat) {
    match a.place
    case Unplaced => true
    case Reserved(b) => b in s.batches && s.batches[b].region == r
    case Backed(q) => q == r
  }

  /** The step from `s` to `t` touched only region `r`, its batches and its allocations. */
  ghost predicate Local(s: State, t: State, r: nat) {
    && r in s.regions && t.regions.Keys == s.regions.Keys && t.allocs.Keys == s.allocs.Keys
    && (forall q :: q in s.regions && q != r ==> t.regions[q] == s.regions[q])
    && (forall b :: b in s.batches && s.batches[b].region != r ==> b in t.batches && t.batches[b] == s.batches[b])
    && (forall b :: b in t.batches && t.batches[b].region != r ==> b in s.batches && t.batches[b] == s.batches[b])
    && (forall id :: id in s.allocs ==>
          SameRole(s.allocs[id], t.allocs[id]) || (AtMostIn(s, s.allocs[id], r) && AtMostIn(t, t.allocs[id], r)))
  }

  lemma LocalSets(s: State, t: State, r: nat, q: nat)
    requires Local(s, t, r) && q != r
    ensures Listed(t, q) == Listed(s, q)
    ensures Unreturned(t.allocs, q) == Unreturned(s.allocs, q) && Claimed(t.allocs, q) == Claimed(s.allocs, q)
  {
  }

  lemma LocalScan(s: State, t: State, r: nat, q: nat)
    requires Local(s, t, r) && q != r && q in s.regions && ScanInv(s, s.regions[q])
    requires s.regions[q].reg.ids == Listed(s, q)
    ensures ScanInv(t, t.regions[q])
  {
  }

  lemma LocalRegions(s: State, t: State, r: nat)
    requires RegionsInv(s) && Local(s, t, r) && RegionInv(t, r)
    ensures RegionsInv(t)
  {
    forall q | q in t.regions ensures RegionInv(t, q) {
      hide Listed, Unreturned, Claimed, ScanInv, DonorLedger, RevokeLedger;
      if q != r {
        assert RegionInv(s, q);
        LocalSets(s, t, r, q);
        LocalScan(s, t, r, q);
      }
    }
  }

  /** Steps that only move numbers within one region. */
  lemma RegionOnly(s: State, t: State, r: nat)
    requires Inv(s) && r in s.regions && r in t.regions && t == s.(regions := s.regions[r := t.regions[r]])
    requires t.regions[r].reg.ids == s.regions[r].reg.ids
    requires t.regions[r].reg.Ok() && ScanInv(t, t.regions[r])
    requires DonorLedger(t.regions[r], |Unreturned(s.allocs, r)|) && RevokeLedger(t.regions[r], |Claimed(s.allocs, r)|)
    ensures Inv(t)
  {
    hide AllocInv, Unreturned, Claimed, ScanInv, DonorLedger, RevokeLedger;
    assert RegionInv(s, r);
    assert Listed(t, r) == Listed(s, r);
    LocalRegions(s, t, r);
    forall b | b in t.batches ensures BatchInv(t, b) {
      assert BatchInv(s, b);
    }
  }

  lemma SendExcessKeeps(s: State, r: nat, bytes: nat)
    requires Inv(s) && Enabled(s, SendExcess(r, bytes))
    ensures Inv(Apply(s, SendExcess(r, bytes)))
  {
    hide AllocsInv, BatchesInv, Unreturned, Claimed;
    assert RegionInv(s, r);
    RegionOnly(s, Apply(s, SendExcess(r, bytes)), r);
  }

  lemma ScanStartKeeps(s: State, r: nat, size: nat)
    requires Inv(s) && Enabled(s, ScanStart(r, size))
    ensures Inv(Apply(s, ScanStart(r, size)))
  {
    hide AllocsInv, BatchesInv, Unreturned, Claimed, NextMultiple;
    assert RegionInv(s, r);
    RegionOnly(s, Apply(s, ScanStart(r, size)), r);
  }

  lemma ScanEndKeeps(s: State, r: nat)
    requires Inv(s) && Enabled(s, ScanEnd(r))
    ensures Inv(Apply(s, ScanEnd(r)))
  {
    hide AllocsInv, BatchesInv, Unreturned, Claimed, Whole;
    assert RegionInv(s, r);
    WholeArith(s.regions[r].reg.owed, s.regions[r].scan.remaining);
    RegionOnly(s, Apply(s, ScanEnd(r)), r);
  }

  // A scan looks at one allocation.

  /** What a visit does to one history. */
  lemma ClaimOnce(h: History)
    requires Sound(h)
    ensures var g := After(h, ClaimEvent);
      && Sound(g) && g.progress == h.progress && g.Duties() == h.Duties()
      && g.claims == h.claims + (if h.state.Committed? then 1 else 0)
      && (h.state.Committed? ==> h.claims == 0 && h.progress.Finished?)
      && (Catchable(g) ==> !h.progress.Finished? && Catchable(h))
  {
    SoundStep(h, ClaimEvent);
  }

  lemma ListedAtMost(s: State, a: Alloc, r: nat)
    requires ListedIn(s, a, r)
    ensures AtMostIn(s, a, r)
  {
  }

  lemma VisitAlloc(s: State, r: nat, id: nat)
    requires Inv(s) && Enabled(s, ScanVisit(r, id))
    ensures var a, h := s.allocs[id], After(s.allocs[id].h, ClaimEvent);
      && id in s.regions[r].reg.ids && AtMostIn(s, a, r)
      && AllocInv(a.(h := h)) && h.progress == a.h.progress
      && h.claims == a.h.claims + (if a.h.state.Committed? then 1 else 0)
      && (a.h.state.Committed? ==> a.place == Backed(r) && a.h.claims == 0)
      && (Catchable(h) ==> !a.h.progress.Finished? && Catchable(a.h))
  {
    hide BatchesInv, DonorLedger, RevokeLedger, Unreturned, Claimed, Sound, AtMostIn, Catchable;
    RegionOf(s, r);
    assert AllocInv(s.allocs[id]);
    ClaimOnce(s.allocs[id].h);
    ListedAtMost(s, s.allocs[id], r);
  }

  lemma VisitSets(s: State, t: State, r: nat, id: nat)
    requires Inv(s) && Enabled(s, ScanVisit(r, id)) && t == DoVisit(s, r, id)
    ensures Listed(t, r) == Listed(s, r) && Unreturned(t.allocs, r) == Unreturned(s.allocs, r)
    ensures Claimed(t.allocs, r) == Claimed(s.allocs, r) + (if s.allocs[id].h.state.Committed? then {id} else {})
    ensures s.allocs[id].h.state.Committed? ==> id !in Claimed(s.allocs, r)
  {
    hide AllocsInv, BatchesInv, RegionsInv, AllocInv, After, AtMostIn;
    VisitAlloc(s, r, id);
  }

  lemma VisitLocal(s: State, t: State, r: nat, id: nat)
    requires Inv(s) && Enabled(s, ScanVisit(r, id)) && t == DoVisit(s, r, id)
    ensures Local(s, t, r) && AllocsInv(t) && BatchesInv(t)
  {
    hide RegionsInv, AllocInv, After;
    VisitAlloc(s, r, id);
    forall b | b in t.batches ensures BatchInv(t, b) {
      assert BatchInv(s, b);
    }
    forall x | x in t.allocs ensures AllocInv(t.allocs[x]) && PlaceInv(t, x) {
      assert AllocInv(s.allocs[x]) && PlaceInv(s, x);
    }
  }

  lemma VisitScan(s: State, t: State, r: nat, id: nat)
    requires Inv(s) && Enabled(s, ScanVisit(r, id)) && t == DoVisit(s, r, id)
    ensures ScanInv(t, t.regions[r])
    ensures s.allocs[id].h.state.Committed? ==> t.regions[r].scan.remaining + G == s.regions[r].scan.remaining
    ensures !s.allocs[id].h.state.Committed? ==> t.regions[r].scan.remaining == s.regions[r].scan.remaining
  {
    hide AllocsInv, BatchesInv, AllocInv, After, AtMostIn, Whole, DonorLedger, RevokeLedger, Listed,
      Unreturned, Claimed;
    assert RegionInv(s, r);
    VisitAlloc(s, r, id);
    DropChunk(s.regions[r].scan.remaining);
  }

  lemma ScanVisitKeeps(s: State, r: nat, id: nat)
    requires Inv(s) && Enabled(s, ScanVisit(r, id))
    ensures Inv(Apply(s, ScanVisit(r, id)))
  {
    hide AllocsInv, BatchesInv, AllocInv, After, AtMostIn, Local, ScanInv, Listed, Unreturned, Claimed;
    var t := DoVisit(s, r, id);
    assert RegionInv(s, r);
    VisitSets(s, t, r, id);
    VisitLocal(s, t, r, id);
    VisitScan(s, t, r, id);
    assert |Claimed(t.allocs, r)| == |Claimed(s.allocs, r)| + if s.allocs[id].h.state.Committed? then 1 else 0;
    assert RegionInv(t, r);
    LocalRegions(s, t, r);
  }

  // A caller sends one return command.

  lemma ReturnAllocs(s: State, r: nat, ids: set<nat>, accepted: bool)
    requires Inv(s) && Enabled(s, SendReturn(r, ids, accepted))
    ensures forall id :: id in ids ==> AllocInv(Returned(s.allocs[id], accepted)) && s.allocs[id].sent == 0
  {
    hide Sound, RegionsInv, BatchesInv;
    forall id | id in ids ensures AllocInv(Returned(s.allocs[id], accepted)) && s.allocs[id].sent == 0 {
      assert AllocInv(s.allocs[id]);
      OneDuty(s.allocs[id].h);
    }
  }

  lemma OneDuty(h: History)
    requires Sound(h)
    ensures h.Duties() <= 1
  {
  }

  lemma ReturnSets(s: State, t: State, r: nat, ids: set<nat>, accepted: bool)
    requires Inv(s) && Enabled(s, SendReturn(r, ids, accepted)) && t == DoReturn(s, r, ids, accepted)
    ensures Listed(t, r) == Listed(s, r) && Claimed(t.allocs, r) == Claimed(s.allocs, r)
    ensures Unreturned(t.allocs, r) == Unreturned(s.allocs, r) - ids && ids <= Unreturned(s.allocs, r)
  {
    hide AllocsInv, BatchesInv, RegionsInv, AllocInv;
    ReturnAllocs(s, r, ids, accepted);
  }

  lemma ReturnLocal(s: State, t: State, r: nat, ids: set<nat>, accepted: bool)
    requires Inv(s) && Enabled(s, SendReturn(r, ids, accepted)) && t == DoReturn(s, r, ids, accepted)
    ensures Local(s, t, r) && ScanInv(t, t.regions[r])
  {
    hide AllocInv, AllocsInv, BatchesInv, RegionsInv, Listed, Unreturned, Claimed, DonorLedger, RevokeLedger,
      Catchable, Region.Ok;
    RegionOf(s, r);
    assert forall id :: id in s.allocs ==> t.allocs[id].h == s.allocs[id].h && t.allocs[id].place == s.allocs[id].place;
  }

  lemma ReturnOthers(s: State, t: State, r: nat, ids: set<nat>, accepted: bool)
    requires Inv(s) && Enabled(s, SendReturn(r, ids, accepted)) && t == DoReturn(s, r, ids, accepted)
    ensures AllocsInv(t) && BatchesInv(t)
  {
    hide AllocInv, RegionsInv;
    ReturnAllocs(s, r, ids, accepted);
    forall b | b in t.batches ensures BatchInv(t, b) {
      assert BatchInv(s, b);
    }
    forall x | x in t.allocs ensures AllocInv(t.allocs[x]) && PlaceInv(t, x) {
      assert AllocInv(s.allocs[x]) && PlaceInv(s, x);
    }
  }

  lemma ReturnTotals(rs: RegionState, ts: RegionState, before: nat, after: nat, claimed: nat, n: nat)
    requires DonorLedger(rs, before) && RevokeLedger(rs, claimed) && before == after + n
    requires ts == rs.(issued := rs.issued + G * n)
    ensures DonorLedger(ts, after) && RevokeLedger(ts, claimed)
  {
    assert G * before == G * after + G * n;
  }

  lemma ReturnRegion(s: State, t: State, r: nat, ids: set<nat>, accepted: bool)
    requires Inv(s) && Enabled(s, SendReturn(r, ids, accepted)) && t == DoReturn(s, r, ids, accepted)
    ensures RegionInv(t, r)
  {
    hide AllocsInv, BatchesInv, RegionsInv, AllocInv, Local, ScanInv, Listed, Unreturned, Claimed, DonorLedger,
      RevokeLedger;
    RegionOf(s, r);
    ReturnSets(s, t, r, ids, accepted);
    ReturnLocal(s, t, r, ids, accepted);
    SubsetSize(ids, Unreturned(s.allocs, r));
    ReturnTotals(s.regions[r], t.regions[r], |Unreturned(s.allocs, r)|, |Unreturned(t.allocs, r)|,
                 |Claimed(s.allocs, r)|, |ids|);
  }

  lemma SendReturnKeeps(s: State, r: nat, ids: set<nat>, accepted: bool)
    requires Inv(s) && Enabled(s, SendReturn(r, ids, accepted))
    ensures Inv(Apply(s, SendReturn(r, ids, accepted)))
  {
    hide AllocsInv, BatchesInv, RegionInv, Local;
    var t := DoReturn(s, r, ids, accepted);
    ReturnLocal(s, t, r, ids, accepted);
    ReturnOthers(s, t, r, ids, accepted);
    ReturnRegion(s, t, r, ids, accepted);
    LocalRegions(s, t, r);
  }

  // One allocation is taken off the books.

  lemma BookAlloc(s: State, id: nat)
    requires Inv(s) && Enabled(s, Book(id))
    ensures id in s.regions[s.allocs[id].place.region].reg.ids
    ensures var a := s.allocs[id]; AllocInv(a.(booking := a.booking - 1, booked := a.booked + 1))
  {
    hide Sound, BatchesInv;
    var a := s.allocs[id];
    assert AllocInv(a);
    OneDuty(a.h);
    assert RegionInv(s, a.place.region);
  }

  lemma BookSets(s: State, t: State, r: nat, id: nat)
    requires Inv(s) && Enabled(s, Book(id)) && r == s.allocs[id].place.region && t == DoBook(s, id)
    ensures Listed(t, r) == Listed(s, r) - {id}
    ensures Claimed(t.allocs, r) == Claimed(s.allocs, r) && Unreturned(t.allocs, r) == Unreturned(s.allocs, r)
  {
    hide AllocsInv, BatchesInv, RegionsInv, AllocInv;
  }

  lemma BookLocal(s: State, t: State, r: nat, id: nat)
    requires Inv(s) && Enabled(s, Book(id)) && r == s.allocs[id].place.region && t == DoBook(s, id)
    ensures Local(s, t, r) && AllocsInv(t) && BatchesInv(t)
  {
    hide AllocInv, RegionsInv;
    BookAlloc(s, id);
    forall b | b in t.batches ensures BatchInv(t, b) {
      assert BatchInv(s, b);
    }
    forall x | x in t.allocs ensures AllocInv(t.allocs[x]) && PlaceInv(t, x) {
      assert AllocInv(s.allocs[x]) && PlaceInv(s, x);
    }
  }

  lemma BookKeeps(s: State, id: nat)
    requires Inv(s) && Enabled(s, Book(id))
    ensures Inv(Apply(s, Book(id)))
  {
    hide AllocsInv, BatchesInv, AllocInv, Local, Listed, Unreturned, Claimed;
    var r, t := s.allocs[id].place.region, DoBook(s, id);
    assert RegionInv(s, r);
    BookAlloc(s, id);
    BookkeepKeeps(s.regions[r].reg, id);
    BookSets(s, t, r, id);
    BookLocal(s, t, r, id);
    assert RegionInv(t, r);
    LocalRegions(s, t, r);
  }

  // A search reserves part of a region.

  lemma ReserveSets(s: State, t: State, b: nat, r: nat, rsvd: seq<nat>, ids: seq<nat>)
    requires Inv(s) && Enabled(s, ReserveStep(b, r, rsvd)) && t == DoReserve(s, b, r, rsvd)
    requires ids == Reservable(s.regions[r].reg, rsvd)
    ensures Listed(t, r) == Listed(s, r) + Elems(ids) && Elems(ids) !! Listed(s, r)
    ensures Unreturned(t.allocs, r) == Unreturned(s.allocs, r) && Claimed(t.allocs, r) == Claimed(s.allocs, r)
  {
    hide BatchesInv, RegionsInv, AllocInv, Reservable;
    assert forall id :: id in ids ==> id in rsvd;
  }

  lemma ReserveLocal(s: State, t: State, b: nat, r: nat, rsvd: seq<nat>)
    requires Inv(s) && Enabled(s, ReserveStep(b, r, rsvd)) && t == DoReserve(s, b, r, rsvd)
    ensures Local(s, t, r)
  {
    hide BatchesInv, RegionsInv, AllocInv, Reservable;
    assert forall id :: id in Reservable(s.regions[r].reg, rsvd) ==> id in rsvd;
  }

  lemma ReserveOthers(s: State, t: State, b: nat, r: nat, rsvd: seq<nat>)
    requires Inv(s) && Enabled(s, ReserveStep(b, r, rsvd)) && t == DoReserve(s, b, r, rsvd)
    ensures AllocsInv(t) && BatchesInv(t)
  {
    hide Sound, RegionsInv, Reservable;
    var ids := Reservable(s.regions[r].reg, rsvd);
    assert forall id :: id in ids ==> id in rsvd;
    forall c | c in t.batches ensures BatchInv(t, c) {
      if c != b {
        assert BatchInv(s, c);
      }
    }
    forall x | x in t.allocs ensures AllocInv(t.allocs[x]) && PlaceInv(t, x) {
      assert AllocInv(s.allocs[x]) && PlaceInv(s, x);
    }
  }

  lemma ReserveStepKeeps(s: State, b: nat, r: nat, rsvd: seq<nat>)
    requires Inv(s) && Enabled(s, ReserveStep(b, r, rsvd))
    ensures Inv(Apply(s, ReserveStep(b, r, rsvd)))
  {
    hide AllocsInv, BatchesInv, Local, Listed, Unreturned, Claimed, Reservable, ReserveBytes;
    var t := DoReserve(s, b, r, rsvd);
    var ids := Reservable(s.regions[r].reg, rsvd);
    assert RegionInv(s, r);
    ReserveSets(s, t, b, r, rsvd, ids);
    ReserveLocal(s, t, b, r, rsvd);
    ReserveOthers(s, t, b, r, rsvd);
    ReserveKeeps(s.regions[r].reg, ids, G * |rsvd|);
    assert RegionInv(t, r);
    LocalRegions(s, t, r);
  }

  // A donor's answer is settled.

  lemma SettleListed(s: State, t: State, b: nat, granted: nat, r: nat, ids: seq<nat>, k: nat)
    requires Inv(s) && Enabled(s, SettleStep(b, granted)) && t == DoSettle(s, b, granted)
    requires s.batches[b] == Batch(r, ids) && k == Count(Settle(s.regions[r].reg, ids, granted).usable) <= |ids|
    ensures Elems(ids) <= Listed(s, r)
    ensures Listed(t, r) == Listed(s, r) - Elems(ids) + Elems(ids[..k])
  {
    hide RegionsInv, BatchesInv, AllocInv, Settle, Count;
    Untried(s, b);
    forall x ensures x in Listed(t, r) <==> x in Listed(s, r) - Elems(ids) + Elems(ids[..k]) {
      assert x in ids[..k] ==> x in ids;
      if x in s.allocs && x !in ids {
        assert PlaceInv(s, x);
        assert t.allocs[x] == s.allocs[x];
      }
    }
  }

  lemma SettleSets(s: State, t: State, b: nat, granted: nat, r: nat, ids: seq<nat>, k: nat)
    requires Inv(s) && Enabled(s, SettleStep(b, granted)) && t == DoSettle(s, b, granted)
    requires s.batches[b] == Batch(r, ids) && k == Count(Settle(s.regions[r].reg, ids, granted).usable) <= |ids|
    ensures Unreturned(t.allocs, r) == Unreturned(s.allocs, r) + Elems(ids[..k])
    ensures Unreturned(s.allocs, r) !! Elems(ids[..k])
    ensures Claimed(t.allocs, r) == Claimed(s.allocs, r)
  {
    hide AllocsInv, BatchesInv, RegionsInv, AllocInv, Settle, Count;
    Untried(s, b);
    assert forall id :: id in ids[..k] ==> id in ids;
  }

  lemma RegionOf(s: State, r: nat)
    requires Inv(s) && r in s.regions
    ensures RegionInv(s, r)
  {
  }

  lemma Untried(s: State, b: nat)
    requires Inv(s) && b in s.batches
    ensures Distinct(s.batches[b].ids)
    ensures forall id :: id in s.batches[b].ids ==>
      id in s.allocs && s.allocs[id].sent == 0 && s.allocs[id].booked == 0 && s.allocs[id].h.claims == 0 &&
      s.allocs[id].place == Reserved(b) && s.allocs[id].h.progress.NotStarted?
  {
    hide RegionsInv;
    assert BatchInv(s, b);
    forall id | id in s.batches[b].ids
      ensures s.allocs[id].sent == 0 && s.allocs[id].booked == 0 && s.allocs[id].h.claims == 0
    {
      assert AllocInv(s.allocs[id]);
    }
  }

  lemma SettleLocal(s: State, t: State, b: nat, granted: nat, r: nat)
    requires Inv(s) && Enabled(s, SettleStep(b, granted)) && t == DoSettle(s, b, granted) && r == s.batches[b].region
    ensures Local(s, t, r)
  {
    hide AllocsInv, RegionsInv, Settle, Count, Catchable;
    assert BatchInv(s, b);
  }

  lemma SettleAllocs(s: State, t: State, b: nat, granted: nat)
    requires Inv(s) && Enabled(s, SettleStep(b, granted)) && t == DoSettle(s, b, granted)
    ensures AllocsInv(t)
  {
    hide RegionsInv, Settle, Count, Sound;
    assert BatchInv(s, b);
    forall x | x in t.allocs ensures AllocInv(t.allocs[x]) && PlaceInv(t, x) {
      assert AllocInv(s.allocs[x]) && PlaceInv(s, x);
    }
  }

  lemma SettleBatches(s: State, t: State, b: nat, granted: nat)
    requires Inv(s) && Enabled(s, SettleStep(b, granted)) && t == DoSettle(s, b, granted)
    ensures BatchesInv(t)
  {
    hide RegionsInv, AllocsInv, Settle, Count;
    assert BatchInv(s, b);
    forall c | c in t.batches ensures BatchInv(t, c) {
      assert BatchInv(s, c);
    }
  }

  lemma SettleTotals(rs: RegionState, ts: RegionState, settled: Settlement, asked: nat, granted: nat, unreturned: nat,
                     claimed: nat)
    requires DonorLedger(rs, unreturned) && RevokeLedger(rs, claimed) && rs.scan.NoScan?
    requires settled.region.owed <= rs.reg.owed
    requires (rs.reg.owed - settled.region.owed) + settled.usable == AlignDown(Min(granted, G * asked))
    requires settled.usable == G * Count(settled.usable) && settled.usable + settled.giveBack == Min(granted, G * asked)
    requires ts == rs.(reg := settled.region, granted := rs.granted + Min(granted, G * asked),
                       excess := rs.excess + settled.giveBack,
                       clawed := rs.clawed + KeptBack(granted, asked, settled.usable))
    ensures DonorLedger(ts, unreturned + Count(settled.usable)) && RevokeLedger(ts, claimed)
  {
    hide Count, AlignDown;
  }

  lemma SettledRegion(s: State, t: State, b: nat, granted: nat, r: nat, ids: seq<nat>)
    requires Inv(s) && Enabled(s, SettleStep(b, granted)) && t == DoSettle(s, b, granted)
    requires s.batches[b] == Batch(r, ids)
    ensures r in s.regions && r in t.regions && s.regions[r].scan.NoScan? && RegionInv(s, r)
    ensures var rs, settled := s.regions[r], Settle(s.regions[r].reg, ids, granted);
      t.regions[r] == rs.(reg := settled.region, granted := rs.granted + Min(granted, G * |ids|),
                          excess := rs.excess + settled.giveBack,
                          clawed := rs.clawed + KeptBack(granted, |ids|, settled.usable))
  {
    hide Settle, AllocsInv, BatchesInv, RegionInv, Count;
  }

  lemma SettleRegion(s: State, t: State, b: nat, granted: nat, r: nat, ids: seq<nat>, k: nat)
    requires Inv(s) && Enabled(s, SettleStep(b, granted)) && t == DoSettle(s, b, granted)
    requires s.batches[b] == Batch(r, ids) && k == Count(Settle(s.regions[r].reg, ids, granted).usable) <= |ids|
    ensures r in t.regions && RegionInv(t, r)
  {
    hide Inv, DoSettle, Elems, Distinct, Listed, Unreturned, Claimed, Settle, Whole, Count, AlignDown, DonorLedger,
      RevokeLedger;
    SettledRegion(s, t, b, granted, r, ids);
    var settled := Settle(s.regions[r].reg, ids, granted);
    Untried(s, b);
    SettleListed(s, t, b, granted, r, ids, k);
    SettleSets(s, t, b, granted, r, ids, k);
    SettleKeeps(s.regions[r].reg, ids, granted);
    SettleTotals(s.regions[r], t.regions[r], settled, |ids|, granted,
                 |Unreturned(s.allocs, r)|, |Claimed(s.allocs, r)|);
    MoreBy(Unreturned(s.allocs, r), ids, k);
  }

  lemma MoreBy(a: set<nat>, ids: seq<nat>, k: nat)
    requires Distinct(ids) && k <= |ids| && a !! Elems(ids[..k])
    ensures |a + Elems(ids[..k])| == |a| + k
  {
    SplitElems(ids, k);
  }

  lemma SettleStepKeeps(s: State, b: nat, granted: nat)
    requires Inv(s) && Enabled(s, SettleStep(b, granted))
    ensures Inv(Apply(s, SettleStep(b, granted)))
  {
    hide AllocsInv, Local, Listed, Unreturned, Claimed, Settle, Whole, Count, RegionInv;
    var t := DoSettle(s, b, granted);
    var r, ids := s.batches[b].region, s.batches[b].ids;
    var k := Count(Settle(s.regions[r].reg, ids, granted).usable);
    SettleFits(s, b, granted);
    SettleLocal(s, t, b, granted, r);
    SettleAllocs(s, t, b, granted);
    SettleBatches(s, t, b, granted);
    SettleRegion(s, t, b, granted, r, ids, k);
    LocalRegions(s, t, r);
  }

  lemma SettleFits(s: State, b: nat, granted: nat)
    requires Inv(s) && b in s.batches && s.batches[b].region in s.regions
    ensures Count(Settle(s.regions[s.batches[b].region].reg, s.batches[b].ids, granted).usable) <= |s.batches[b].ids|
  {
    hide Settle, Count, Whole;
    assert RegionInv(s, s.batches[b].region);
    SettleBytes(s.regions[s.batches[b].region].reg, s.batches[b].ids, granted);
  }
}
