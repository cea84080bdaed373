/**
 * The search for donors. A request walks the VM list by socket path, reserves, asks the donor,
 * settles and commits; between any two locked sections other threads may run.
 */
module DonorSearch {
  import opened Granularity
  import opened Collections
  import opened Allocation
  import opened Donor
  import opened DonorWalk

  /** The list is ordered by path; the empty path, 0, comes before every VM. */
  ghost predicate Ordered(vms: seq<Vm>) {
    (forall i :: 0 <= i < |vms| ==> 0 < vms[i].path) &&
    forall i, j :: 0 <= i < j < |vms| ==> vms[i].path < vms[j].path
  }

  /** `R` holds every region in the list; the regions of one VM have distinct paths. */
  ghost predicate Regions(vms: seq<Vm>, R: set<DonatableRegion>) {
    (forall v, k :: 0 <= v < |vms| && 0 <= k < |vms[v].regions| ==> vms[v].regions[k] in R) &&
    forall v, k, l :: 0 <= v < |vms| && 0 <= k < l < |vms[v].regions| ==>
      vms[v].regions[k].path != vms[v].regions[l].path
  }

  ghost predicate AllValid(R: set<DonatableRegion>)
    reads R
  {
    forall r :: r in R ==> r.Valid()
  }

  // ---------------------------------------------------------------- where a request stands

  /** What a request can see of one of its allocations. */
  datatype Seen = Seen(id: nat, donor: Option<DonorAllocation>, state: AllocState)

  ghost function See(rsvd: seq<EphAllocation>): (s: seq<Seen>)
    reads rsvd
    ensures |s| == |rsvd|
  {
    seq(|rsvd|, k requires 0 <= k < |rsvd| reads rsvd => Seen(rsvd[k].id, rsvd[k].donorInfo, rsvd[k].state))
  }

  /** The ids listed in each region. */
  ghost function Lists(R: set<DonatableRegion>): (l: map<DonatableRegion, set<nat>>)
    reads R
    ensures l.Keys == R
  {
    map r | r in R :: r.allocations.Keys
  }

  /** What each region's lock protects. */
  ghost function Views(R: set<DonatableRegion>): (v: map<DonatableRegion, Region>)
    reads R
    ensures v.Keys == R
  {
    map r | r in R :: r.View()
  }

  lemma ViewAt(R: set<DonatableRegion>, region: DonatableRegion)
    requires region in R
    ensures Views(R)[region] == region.View()
  {
  }

  /** Which allocations have been abandoned. */
  ghost function Gone(s: seq<Seen>): (gone: seq<bool>)
    ensures |gone| == |s|
  {
    seq(|s|, k requires 0 <= k < |s| => s[k].state.Abandoned?)
  }

  /** `d` is the VM and the device that own region `r`. */
  ghost predicate Names(vms: seq<Vm>, d: DonorAllocation, r: DonatableRegion) {
    exists v :: 0 <= v < |vms| && r in vms[v].regions && d == DonorAllocation(vms[v].path, r.path)
  }

  /** Not committed yet, and listed in region `q` alone (nowhere if `q` is null). */
  ghost predicate Waiting(l: map<DonatableRegion, set<nat>>, a: Seen, q: DonatableRegion?) {
    a.donor.None? && (a.state.PendingCommit? || a.state.Abandoned?) && forall r :: r in l ==> (a.id in l[r] <==> r == q)
  }

  /** Donor recorded, and listed at most in the region the record names. */
  ghost predicate Processed(vms: seq<Vm>, l: map<DonatableRegion, set<nat>>, a: Seen) {
    a.donor.Some? && forall r :: r in l && a.id in l[r] ==> Names(vms, a.donor.value, r)
  }

  /** The first `i` are processed, the next `n` wait in region `q`, the rest wait nowhere. */
  ghost predicate Progress(vms: seq<Vm>, l: map<DonatableRegion, set<nat>>, s: seq<Seen>, i: int, n: int,
                           q: DonatableRegion?) {
    0 <= i <= i + n <= |s| &&
    forall k :: 0 <= k < |s| ==>
      if k < i then Processed(vms, l, s[k]) else Waiting(l, s[k], if k < i + n then q else null)
  }

  /** A request's allocations were created for it, each with an id of its own. */
  ghost predicate Own(rsvd: seq<EphAllocation>) {
    forall j, k :: 0 <= j < k < |rsvd| ==> rsvd[j].id != rsvd[k].id
  }

  /**
   * What other threads may do in between: they never record a donor for our allocations nor
   * commit one, they list none of ours, and unlist one only after we have recorded its donor
   * (a return needs an abandonment that found the allocation committed).
   */
  ghost predicate Rely(l: map<DonatableRegion, set<nat>>, m: map<DonatableRegion, set<nat>>, s: seq<Seen>,
                       t: seq<Seen>) {
    && m.Keys == l.Keys && |t| == |s|
    && (forall k :: 0 <= k < |s| ==> t[k].id == s[k].id && t[k].donor == s[k].donor)
    && (forall k :: 0 <= k < |s| && s[k].state.PendingCommit? ==> t[k].state.PendingCommit? || t[k].state.Abandoned?)
    && (forall k :: 0 <= k < |s| && s[k].state.Abandoned? ==> t[k].state.Abandoned?)
    && (forall k, r :: 0 <= k < |s| && r in l && s[k].id in m[r] ==> s[k].id in l[r])
    && (forall k, r :: 0 <= k < |s| && r in l && s[k].donor.None? && s[k].id in l[r] ==> s[k].id in m[r])
  }

  lemma Undisturbed(vms: seq<Vm>, l: map<DonatableRegion, set<nat>>, m: map<DonatableRegion, set<nat>>,
                    s: seq<Seen>, t: seq<Seen>, i: int, n: int, q: DonatableRegion?)
    requires Progress(vms, l, s, i, n, q) && Rely(l, m, s, t)
    ensures Progress(vms, m, t, i, n, q)
  {
    hide Names;
    forall k | 0 <= k < |t|
      ensures if k < i then Processed(vms, m, t[k]) else Waiting(m, t[k], if k < i + n then q else null)
    {
      assert if k < i then Processed(vms, l, s[k]) else Waiting(l, s[k], if k < i + n then q else null);
    }
  }

  /** A change of one region's list that concerns only waiting allocations resizes the batch. */
  lemma Relisted(vms: seq<Vm>, l: map<DonatableRegion, set<nat>>, m: map<DonatableRegion, set<nat>>,
                 s: seq<Seen>, i: nat, n: nat, k: nat, region: DonatableRegion)
    requires region in l && Progress(vms, l, s, i, n, region) && i + k <= |s|
    requires region in m && m == l[region := m[region]]
    requires forall j :: 0 <= j < i ==> s[j].id in m[region] ==> s[j].id in l[region]
    requires forall j :: i <= j < |s| ==> (s[j].id in m[region] <==> j < i + k)
    ensures Progress(vms, m, s, i, k, region)
  {
    hide Names;
    forall j | 0 <= j < |s|
      ensures if j < i then Processed(vms, m, s[j]) else Waiting(m, s[j], if j < i + k then region else null)
    {
      assert if j < i then Processed(vms, l, s[j]) else Waiting(l, s[j], if j < i + n then region else null);
    }
  }

  /** Recording the donor and settling the state of the next allocation moves the request on by one. */
  lemma Advanced(vms: seq<Vm>, l: map<DonatableRegion, set<nat>>, s: seq<Seen>, t: seq<Seen>,
                 i: nat, n: nat, v: nat, region: DonatableRegion)
    requires v < |vms| && region in vms[v].regions && 0 < n && Progress(vms, l, s, i, n, region)
    requires |t| == |s| && forall j :: 0 <= j < |s| && j != i ==> t[j] == s[j]
    requires t[i].id == s[i].id && t[i].donor == Some(DonorAllocation(vms[v].path, region.path))
    ensures Progress(vms, l, t, i + 1, n - 1, region)
  {
    forall j | 0 <= j < |t|
      ensures if j < i + 1 then Processed(vms, l, t[j]) else Waiting(l, t[j], if j < i + n then region else null)
    {
      assert if j < i then Processed(vms, l, s[j]) else Waiting(l, s[j], if j < i + n then region else null);
      assert j == i ==> Names(vms, t[j].donor.value, region);
    }
  }

  /** Other threads, of which callers know only that they respect `Rely`, and do nothing if `quiet`. */
  method Interfere(R: set<DonatableRegion>, rsvd: seq<EphAllocation>, ghost quiet: bool)
    requires AllValid(R)
    modifies R`donated, R`revokedOwed, R`allocations
    modifies (set a | a in rsvd)`state, (set a | a in rsvd)`dcdSet, (set a | a in rsvd)`releaseRequested
    ensures AllValid(R) && Rely(old(Lists(R)), Lists(R), old(See(rsvd)), See(rsvd))
    ensures quiet ==> Views(R) == old(Views(R)) && See(rsvd) == old(See(rsvd))
  {
    // Nothing happens here; callers only rely on the contract.
  }

  // ---------------------------------------------------------------- the steps of one attempt

  /** `find_region` on a donor: the first region with the path. */
  method FindRegion(regions: seq<DonatableRegion>, qomPath: string) returns (region: DonatableRegion?)
    ensures region == null ==> forall k :: 0 <= k < |regions| ==> regions[k].path != qomPath
    ensures region != null ==> exists k ::
      0 <= k < |regions| && regions[k] == region && region.path == qomPath &&
      forall j :: 0 <= j < k ==> regions[j].path != qomPath
  {
    for k := 0 to |regions|
      invariant forall j :: 0 <= j < k ==> regions[j].path != qomPath
    {
      if regions[k].path == qomPath {
        return regions[k];
      }
    }
    region := null;
  }

  datatype RevokeError = TooLargeToAlign | UnknownRegion

  /**
   * `revoke_eph_memory` up to the point where the claimed allocations are handed back: the size
   * is rounded up, the region is looked up, and its newest committed allocations are claimed.
   */
  method RevokeEphMemory(regions: seq<DonatableRegion>, qomPath: string, size: nat, ghost quiet: bool)
    returns (error: Option<RevokeError>, region: DonatableRegion?, claimed: seq<EphAllocation>, ghost met: set<nat>)
    requires forall r :: r in regions ==> r.Filed()
    modifies regions`revokedOwed, (set r, id | r in regions && id in r.allocations :: r.allocations[id])`state
    ensures error == Some(TooLargeToAlign) <==> NextMultiple(size).None?
    ensures error == Some(UnknownRegion) <==> NextMultiple(size).Some? && forall r :: r in regions ==> r.path != qomPath
    ensures error.Some? ==> claimed == []
    ensures forall r :: r in regions && (error.Some? || r != region) ==> r.revokedOwed == old(r.revokedOwed)
    ensures error.None? ==> region in regions && region.path == qomPath
    ensures error.None? ==>
      Ids(claimed) == Claims(Ascending(region.allocations.Keys), met, Count(NextMultiple(size).value))
    ensures error.None? ==> Revoked(old(region.States()), region.States(), met, Ids(claimed), quiet)
    ensures error.None? ==> forall c :: c in claimed ==> c in region.allocations.Values
    ensures error.None? ==> region.revokedOwed == old(region.revokedOwed) + (NextMultiple(size).value - G * |claimed|)
  {
    hide Ascending, Claims, Count, Revoked;
    error, region, claimed, met := None, null, [], {};
    var rounded := NextMultiple(size);
    if rounded == None {
      return Some(TooLargeToAlign), null, [], {};
    }
    region := FindRegion(regions, qomPath);
    if region == null {
      return Some(UnknownRegion), null, [], {};
    }
    claimed, met := region.RevokeLocked(rounded.value, quiet);
  }

  predicate HasRoom(r: DonatableRegion)
    reads r
  {
    r.size - r.donated >= G
  }

  ghost predicate FirstWithRoom(regions: seq<DonatableRegion>, region: DonatableRegion)
    reads regions
  {
    exists k :: 0 <= k < |regions| && regions[k] == region && HasRoom(region) && NoneBefore(regions, k)
  }

  ghost predicate NoneBefore(regions: seq<DonatableRegion>, k: nat)
    requires k <= |regions|
    reads regions
  {
    forall l :: 0 <= l < k ==> !HasRoom(regions[l])
  }

  /** No region of the VMs behind `start`, up to the `n`-th of the list, has room for a chunk. */
  ghost predicate NoRoom(vms: seq<Vm>, start: nat, n: nat)
    requires n <= |vms|
    reads set v, k | 0 <= v < |vms| && 0 <= k < |vms[v].regions| :: vms[v].regions[k]
  {
    forall w, k :: 0 <= w < n && start < vms[w].path && 0 <= k < |vms[w].regions| ==> !HasRoom(vms[w].regions[k])
  }

  /** The choice made by `allocate_eph_memory_inner`: the first region with room after `start`. */
  method FindRoom(vms: seq<Vm>, start: nat, ghost R: set<DonatableRegion>) returns (v: nat, region: DonatableRegion?)
    requires Regions(vms, R)
    ensures region == null ==> NoRoom(vms, start, |vms|)
    ensures region != null ==>
      v < |vms| && start < vms[v].path && region in vms[v].regions && region in R && HasRoom(region)
    ensures region != null ==> FirstWithRoom(vms[v].regions, region)
    ensures region != null ==> NoRoom(vms, start, v)
  {
    v := 0;
    while v < |vms|
      invariant v <= |vms| && NoRoom(vms, start, v)
    {
      if start < vms[v].path {
        for k := 0 to |vms[v].regions|
          invariant forall l :: 0 <= l < k ==> !HasRoom(vms[v].regions[l])
        {
          if vms[v].regions[k].size - vms[v].regions[k].donated >= G {
            assert NoneBefore(vms[v].regions, k);
            return v, vms[v].regions[k];
          }
        }
      }
      v := v + 1;
    }
    region := null;
  }

  /** Position by position, which ids of the request lie in the slice `[i, i + n)`. */
  lemma SliceIds(rsvd: seq<EphAllocation>, i: nat, n: nat)
    requires Own(rsvd) && i + n <= |rsvd|
    ensures Distinct(Ids(rsvd[i..i + n])) && |Ids(rsvd[i..i + n])| == n
    ensures forall k :: 0 <= k < |rsvd| ==> (rsvd[k].id in Elems(Ids(rsvd[i..i + n])) <==> i <= k < i + n)
  {
    var ids := Ids(rsvd[i..i + n]);
    assert forall j :: 0 <= j < n ==> ids[j] == rsvd[i + j].id;
    forall k | i <= k < i + n ensures rsvd[k].id in Elems(ids) {
      assert ids[k - i] == rsvd[k].id;
    }
  }

  lemma TailIds(rsvd: seq<EphAllocation>, i: nat, n: nat, m: nat)
    requires i + n <= |rsvd| && m <= n
    ensures Ids(rsvd[i..i + n])[m..] == Ids(rsvd[i + m..i + n])
  {
  }

  /** What a region with room gives to the waiting tail of a request. */
  lemma RoomFor(r: Region, rsvd: seq<EphAllocation>, i: nat, bytes: nat)
    requires r.Ok() && r.size - r.donated >= G && i < |rsvd| && Own(rsvd)
    requires bytes == ReserveBytes(r, G * (|rsvd| - i))
    requires forall k :: i <= k < |rsvd| ==> rsvd[k].id !in r.ids
    ensures 0 < Count(bytes) <= |rsvd| - i
    ensures Donor.Reserve(r, Ids(rsvd[i..i + Count(bytes)])).Ok()
  {
    hide Count, Whole, ReserveBytes, Own, Ids, Elems, Donor.Reserve;
    RoomBytes(r, |rsvd| - i);
    var n := Count(bytes);
    SliceIds(rsvd, i, n);
    FreshIds(r, rsvd, i, n);
    ReserveKeeps(r, Ids(rsvd[i..i + n]), G * (|rsvd| - i));
  }

  lemma FreshIds(r: Region, rsvd: seq<EphAllocation>, i: nat, n: nat)
    requires i + n <= |rsvd| && forall k :: i <= k < |rsvd| ==> rsvd[k].id !in r.ids
    ensures Elems(Ids(rsvd[i..i + n])) !! r.ids
  {
    var ids := Ids(rsvd[i..i + n]);
    forall j | 0 <= j < |ids| ensures ids[j] !in r.ids {
      assert ids[j] == rsvd[i + j].id;
    }
  }

  lemma RoomBytes(r: Region, wanted: nat)
    requires r.donated <= r.size && r.size - r.donated >= G && wanted > 0
    ensures var bytes := ReserveBytes(r, G * wanted);
      0 < Count(bytes) <= wanted && bytes == G * Count(bytes)
  {
  }

  /** Which of the request's allocations region `region` lists while a batch is in flight there. */
  lemma ListedBatch(vms: seq<Vm>, l: map<DonatableRegion, set<nat>>, rsvd: seq<EphAllocation>, i: nat, n: nat,
                    region: DonatableRegion)
    requires region in l && Progress(vms, l, See(rsvd), i, n, region)
    ensures forall k :: i <= k < |rsvd| ==> (rsvd[k].id in l[region] <==> k < i + n)
    ensures Elems(Ids(rsvd[i..i + n])) <= l[region]
  {
    forall k | i <= k < |rsvd| ensures rsvd[k].id in l[region] <==> k < i + n {
      assert Waiting(l, See(rsvd)[k], if k < i + n then region else null);
    }
    var ids := Ids(rsvd[i..i + n]);
    assert forall j :: 0 <= j < n ==> ids[j] == rsvd[i + j].id;
  }

  lemma ReservedList(vms: seq<Vm>, l: map<DonatableRegion, set<nat>>, m: map<DonatableRegion, set<nat>>,
                     rsvd: seq<EphAllocation>, i: nat, n: nat, region: DonatableRegion)
    requires Own(rsvd) && region in l && i + n <= |rsvd| && Progress(vms, l, See(rsvd), i, 0, region)
    requires m == l[region := l[region] + Elems(Ids(rsvd[i..i + n]))]
    ensures Progress(vms, m, See(rsvd), i, n, region)
  {
    hide Progress, Ids, Elems, Own;
    SliceIds(rsvd, i, n);
    ListedBatch(vms, l, rsvd, i, 0, region);
    Relisted(vms, l, m, See(rsvd), i, 0, n, region);
  }

  lemma SettledList(vms: seq<Vm>, l: map<DonatableRegion, set<nat>>, m: map<DonatableRegion, set<nat>>,
                    rsvd: seq<EphAllocation>, i: nat, n: nat, k: nat, region: DonatableRegion)
    requires Own(rsvd) && region in l && i + n <= |rsvd| && k <= n && Progress(vms, l, See(rsvd), i, n, region)
    requires m == l[region := l[region] - Elems(Ids(rsvd[i..i + n])[k..])]
    ensures Progress(vms, m, See(rsvd), i, k, region)
  {
    hide Progress, Ids, Elems, Own;
    TailIds(rsvd, i, n, k);
    SliceIds(rsvd, i + k, n - k);
    ListedBatch(vms, l, rsvd, i, n, region);
    Relisted(vms, l, m, See(rsvd), i, n, k, region);
  }

  method ReserveIn(vms: seq<Vm>, R: set<DonatableRegion>, rsvd: seq<EphAllocation>, i: nat, region: DonatableRegion)
    returns (n: nat)
    requires AllValid(R) && region in R && HasRoom(region)
    requires i < |rsvd| && Own(rsvd) && Progress(vms, Lists(R), See(rsvd), i, 0, region)
    modifies region`donated, region`allocations
    ensures AllValid(R) && 0 < n <= |rsvd| - i && Progress(vms, Lists(R), See(rsvd), i, n, region)
    ensures G * n == old(ReserveBytes(region.View(), G * (|rsvd| - i)))
    ensures region.donated == old(region.donated) + G * n <= region.size
    ensures n == |rsvd| - i || region.size - region.donated < G
    ensures Views(R) == old(Views(R))[region := Donor.Reserve(old(region.View()), Ids(rsvd[i..i + n]))]
  {
    hide Count, Whole, ReserveBytes, Ids, Elems, Own, Progress, Region.Ok, See;
    ghost var before := Lists(R);
    ghost var view := region.View();
    assert view.Ok();
    ListedBatch(vms, before, rsvd, i, 0, region);
    RoomFor(view, rsvd, i, ReserveBytes(view, G * (|rsvd| - i)));
    var bytes := region.ReserveFrom(G * (|rsvd| - i), rsvd[i..]);
    n := Count(bytes);
    CountChunks(bytes);
    LessThanAChunk(|rsvd| - i, n);
    assert rsvd[i..][..n] == rsvd[i..i + n];
    ReservedList(vms, before, Lists(R), rsvd, i, n, region);
  }

  lemma LessThanAChunk(wanted: nat, n: nat)
    requires n <= wanted
    ensures G * wanted - G * n < G ==> n == wanted
  {
  }

  /** `handle_reserved_alloc` for the batch in flight: the chunks granted keep waiting, the others are let go. */
  method SettleIn(vms: seq<Vm>, R: set<DonatableRegion>, rsvd: seq<EphAllocation>, i: nat, n: nat,
                  region: DonatableRegion, granted: nat)
    returns (m: nat, giveBack: nat)
    requires AllValid(R) && region in R && i + n <= |rsvd|
    requires Own(rsvd) && Progress(vms, Lists(R), See(rsvd), i, n, region)
    modifies region`revokedOwed, region`allocations
    ensures AllValid(R) && m <= n && Progress(vms, Lists(R), See(rsvd), i, m, region)
    ensures G * m + giveBack == Min(granted, G * n) && G * m == Usable(old(region.revokedOwed), G * n, granted)
    ensures region.revokedOwed <= old(region.revokedOwed) && (region.revokedOwed > 0 ==> m == 0)
    ensures (old(region.revokedOwed) - region.revokedOwed) + G * m == AlignDown(Min(granted, G * n))
    ensures var settled := Settle(old(region.View()), Ids(rsvd[i..i + n]), granted);
      Views(R) == old(Views(R))[region := settled.region] && m == Count(settled.usable) && giveBack == settled.giveBack
  {
    hide Count, Whole, AlignDown, Ids, Elems, Own, Settle, Usable, Progress, Region.Ok, Region.Slack, See;
    ghost var before := Lists(R);
    ghost var view := region.View();
    var ids := Ids(rsvd[i..i + n]);
    SliceIds(rsvd, i, n);
    ListedBatch(vms, before, rsvd, i, n, region);
    SettleKeeps(view, ids, granted);
    SettleUses(view, ids, granted);
    var usable;
    usable, giveBack := region.SettleReserved(ids, G * n, granted);
    m := Count(usable);
    SettledList(vms, before, Lists(R), rsvd, i, n, m, region);
  }

  lemma SeeAt(rsvd: seq<EphAllocation>, s: seq<Seen>, i: nat)
    requires i < |rsvd| && s == See(rsvd)
    ensures s[i] == Seen(rsvd[i].id, rsvd[i].donorInfo, rsvd[i].state)
  {
  }

  /** The donor record of the next allocation is written. */
  method RecordNext(rsvd: seq<EphAllocation>, i: nat, d: DonorAllocation)
    requires i < |rsvd| && Own(rsvd) && rsvd[i].donorInfo == None
    modifies rsvd[i]
    ensures rsvd[i].donorInfo == Some(d) && rsvd[i].state == old(rsvd[i].state)
    ensures See(rsvd) == old(See(rsvd))[i := Seen(rsvd[i].id, Some(d), rsvd[i].state)]
  {
    var panicked := rsvd[i].RecordDonor(d);
    assert forall k :: 0 <= k < |rsvd| && k != i ==> rsvd[k] != rsvd[i];
    assert !panicked;
  }

  /** Its state is locked and settled. */
  method CommitNext(rsvd: seq<EphAllocation>, i: nat) returns (kept: bool)
    requires i < |rsvd| && Own(rsvd) && (rsvd[i].state == PendingCommit || rsvd[i].state == Abandoned)
    modifies {rsvd[i]}`state
    ensures rsvd[i].state == if kept then Committed else Abandoned
    ensures old(rsvd[i].state) == Abandoned <==> !kept
    ensures See(rsvd) == old(See(rsvd))[i := Seen(rsvd[i].id, rsvd[i].donorInfo, rsvd[i].state)]
  {
    var outcome := rsvd[i].CommitLocked();
    assert forall k :: 0 <= k < |rsvd| && k != i ==> rsvd[k] != rsvd[i];
    assert !outcome.Panicked?;
    kept := outcome.Kept?;
  }

  /** Other threads run; a request that stands somewhere still stands there afterwards. */
  method Disturb(vms: seq<Vm>, R: set<DonatableRegion>, rsvd: seq<EphAllocation>, i: nat, n: nat, q: DonatableRegion?,
                 ghost quiet: bool)
    requires AllValid(R) && Progress(vms, Lists(R), See(rsvd), i, n, q)
    modifies R`donated, R`revokedOwed, R`allocations, rsvd
    ensures AllValid(R) && Progress(vms, Lists(R), See(rsvd), i, n, q) && Stay(old(See(rsvd)), See(rsvd))
    ensures NoneListed(old(Lists(R)), Lists(R), rsvd)
    ensures quiet ==> Views(R) == old(Views(R)) && See(rsvd) == old(See(rsvd))
  {
    hide Progress, AllValid, See, Own, Rely, Lists, NoneListed, Views;
    ghost var s, l := See(rsvd), Lists(R);
    Interfere(R, rsvd, quiet);
    Undisturbed(vms, l, Lists(R), s, See(rsvd), i, n, q);
    RelyStays(l, Lists(R), s, See(rsvd));
    RelyLists(l, Lists(R), rsvd, See(rsvd), s);
  }

  /** None of the request's allocations has been listed anywhere between `l` and `m`. */
  ghost predicate NoneListed(l: map<DonatableRegion, set<nat>>, m: map<DonatableRegion, set<nat>>,
                             rsvd: seq<EphAllocation>) {
    m.Keys == l.Keys && forall r, k :: r in l && 0 <= k < |rsvd| && rsvd[k].id in m[r] ==> rsvd[k].id in l[r]
  }

  lemma RelyLists(l: map<DonatableRegion, set<nat>>, m: map<DonatableRegion, set<nat>>, rsvd: seq<EphAllocation>,
                  t: seq<Seen>, s: seq<Seen>)
    requires Rely(l, m, s, t) && t == See(rsvd)
    ensures NoneListed(l, m, rsvd)
  {
    forall r, k | r in l && 0 <= k < |rsvd| && rsvd[k].id in m[r] ensures rsvd[k].id in l[r] {
      assert s[k].id == t[k].id == rsvd[k].id;
    }
  }

  lemma ListedOn(l: map<DonatableRegion, set<nat>>, m: map<DonatableRegion, set<nat>>,
                 n: map<DonatableRegion, set<nat>>, rsvd: seq<EphAllocation>)
    requires NoneListed(l, m, rsvd) && NoneListed(m, n, rsvd)
    ensures NoneListed(l, n, rsvd)
  {
  }

  lemma SameLists(l: map<DonatableRegion, set<nat>>, rsvd: seq<EphAllocation>)
    ensures NoneListed(l, l, rsvd)
  {
  }

  /** Ids are fixed, and an abandoned allocation stays abandoned. */
  ghost predicate Stay(s: seq<Seen>, t: seq<Seen>) {
    |s| == |t| && forall k :: 0 <= k < |s| ==> s[k].id == t[k].id && (s[k].state.Abandoned? ==> t[k].state.Abandoned?)
  }

  lemma RelyStays(l: map<DonatableRegion, set<nat>>, m: map<DonatableRegion, set<nat>>, s: seq<Seen>, t: seq<Seen>)
    requires Rely(l, m, s, t)
    ensures Stay(s, t)
  {
  }

  lemma StayOn(s: seq<Seen>, t: seq<Seen>, u: seq<Seen>)
    requires Stay(s, t) && Stay(t, u)
    ensures Stay(s, u)
  {
  }

  /** One turn of the commit loop; the donor is recorded, others run, and the state is locked. */
  method CommitOne(vms: seq<Vm>, R: set<DonatableRegion>, rsvd: seq<EphAllocation>, i: nat, n: nat, v: nat,
                   region: DonatableRegion, ghost quiet: bool)
    returns (kept: bool)
    requires AllValid(R) && v < |vms| && region in vms[v].regions && region in R && 0 < n && i < |rsvd|
    requires Own(rsvd) && Progress(vms, Lists(R), See(rsvd), i, n, region)
    modifies R`donated, R`revokedOwed, R`allocations, rsvd
    ensures AllValid(R) && Progress(vms, Lists(R), See(rsvd), i + 1, n - 1, region)
    ensures rsvd[i].donorInfo == Some(DonorAllocation(vms[v].path, region.path))
    ensures rsvd[i].state == if kept then Committed else Abandoned
    ensures Stay(old(See(rsvd)), See(rsvd)) && (old(rsvd[i].state) == Abandoned ==> !kept)
    ensures NoneListed(old(Lists(R)), Lists(R), rsvd)
    ensures quiet ==> Views(R) == old(Views(R)) && OnlyCommits(old(See(rsvd)), See(rsvd), i, [kept])
  {
    hide Progress, AllValid, See, Own, Stay, NoneListed, Views, OnlyCommits, Lists;
    var d := DonorAllocation(vms[v].path, region.path);
    ghost var s0, l0 := See(rsvd), Lists(R);
    NextWaits(vms, l0, rsvd, i, n, region);
    SeeAt(rsvd, s0, i);
    RecordNext(rsvd, i, d);
    ghost var s1 := See(rsvd);
    Advanced(vms, l0, s0, s1, i, n, v, region);
    Interfere(R, rsvd, quiet);
    ghost var s2, l2 := See(rsvd), Lists(R);
    Undisturbed(vms, l0, l2, s1, s2, i + 1, n - 1, region);
    RelyLists(l0, l2, rsvd, s2, s1);
    SeeAt(rsvd, s2, i);
    kept := CommitNext(rsvd, i);
    ProcessedState(vms, l2, s2, See(rsvd), i, n, region);
    CommitStays(l0, l2, s0, s1, s2, See(rsvd), i);
    SeeAt(rsvd, See(rsvd), i);
    if quiet {
      CommitOnly(s0, s1, See(rsvd), i, kept);
    }
  }

  /** From `s` to `t` the allocations from `i` on were committed, and no others touched. */
  ghost predicate OnlyCommits(s: seq<Seen>, t: seq<Seen>, i: nat, kept: seq<bool>) {
    && |s| == |t| && i + |kept| <= |s| && kept == Commits(Gone(s), i, |kept|)
    && (forall k :: 0 <= k < |s| && !(i <= k < i + |kept|) ==> t[k].state == s[k].state)
    && (forall k :: 0 <= k < |kept| ==> t[i + k].state == if kept[k] then Committed else Abandoned)
  }

  lemma CommitOnly(s0: seq<Seen>, s1: seq<Seen>, t: seq<Seen>, i: nat, kept: bool)
    requires i < |s0| == |s1| == |t| && s1 == s0[i := s1[i]] && s1[i].state == s0[i].state && t == s1[i := t[i]]
    requires (kept <==> !s0[i].state.Abandoned?) && t[i].state == if kept then Committed else Abandoned
    ensures OnlyCommits(s0, t, i, [kept])
  {
  }

  lemma NoCommits(s: seq<Seen>, i: nat)
    requires i <= |s|
    ensures OnlyCommits(s, s, i, [])
  {
  }

  lemma MoreCommits(s: seq<Seen>, t: seq<Seen>, u: seq<Seen>, i: nat, before: seq<bool>, kept: seq<bool>)
    requires OnlyCommits(s, t, i, before) && OnlyCommits(t, u, i + |before|, kept)
    ensures OnlyCommits(s, u, i, before + kept)
  {
  }

  lemma CommitStays(l: map<DonatableRegion, set<nat>>, m: map<DonatableRegion, set<nat>>,
                    s0: seq<Seen>, s1: seq<Seen>, s2: seq<Seen>, s3: seq<Seen>, i: nat)
    requires i < |s0| && |s1| == |s0| && |s3| == |s2| && Rely(l, m, s1, s2)
    requires s1 == s0[i := s1[i]] && s1[i].id == s0[i].id && s1[i].state == s0[i].state
    requires s3 == s2[i := s3[i]] && s3[i].id == s2[i].id && (s2[i].state.Abandoned? ==> s3[i].state.Abandoned?)
    ensures Stay(s0, s3) && (s0[i].state.Abandoned? ==> s2[i].state.Abandoned?)
  {
  }

  lemma NextWaits(vms: seq<Vm>, l: map<DonatableRegion, set<nat>>, rsvd: seq<EphAllocation>, i: nat, n: nat,
                  region: DonatableRegion)
    requires 0 < n && i < |rsvd| && Progress(vms, l, See(rsvd), i, n, region)
    ensures rsvd[i].donorInfo == None && (rsvd[i].state == PendingCommit || rsvd[i].state == Abandoned)
  {
    assert Waiting(l, See(rsvd)[i], region);
  }

  /** The state of a processed allocation may be anything. */
  lemma ProcessedState(vms: seq<Vm>, l: map<DonatableRegion, set<nat>>, s: seq<Seen>, t: seq<Seen>,
                       i: nat, n: nat, region: DonatableRegion)
    requires 0 < n && i < |s| && Progress(vms, l, s, i + 1, n - 1, region)
    requires |t| == |s| && t == s[i := t[i]] && t[i].id == s[i].id && t[i].donor == s[i].donor
    ensures Progress(vms, l, t, i + 1, n - 1, region)
  {
    hide Names;
    assert Processed(vms, l, s[i]);
  }

  // ---------------------------------------------------------------- the loops

  /** A refused commit found its allocation abandoned; an allocation abandoned before is refused. */
  ghost predicate Fair(s: seq<Seen>, t: seq<Seen>, i: nat, kept: seq<bool>) {
    i + |kept| <= |s| && Stay(s, t) &&
    forall j :: 0 <= j < |kept| ==>
      (kept[j] ==> !s[i + j].state.Abandoned?) && (!kept[j] ==> t[i + j].state.Abandoned?)
  }

  lemma FairAtFirst(s: seq<Seen>, i: nat)
    requires i <= |s|
    ensures Fair(s, s, i, [])
  {
  }

  lemma FairOn(s: seq<Seen>, t: seq<Seen>, u: seq<Seen>, i: nat, kept: seq<bool>)
    requires Fair(s, t, i, kept) && Stay(t, u)
    ensures Fair(s, u, i, kept)
  {
  }

  lemma FairNext(s: seq<Seen>, t: seq<Seen>, u: seq<Seen>, i: nat, kept: seq<bool>, k: bool)
    requires Fair(s, t, i, kept) && Stay(t, u) && i + |kept| < |s|
    requires (k ==> !t[i + |kept|].state.Abandoned?) && (!k ==> u[i + |kept|].state.Abandoned?)
    ensures Fair(s, u, i, kept + [k])
  {
  }

  /** The commits of one batch follow those of the batches before. */
  lemma FairMore(s: seq<Seen>, t: seq<Seen>, u: seq<Seen>, before: seq<bool>, kept: seq<bool>)
    requires Fair(s, t, 0, before) && Fair(t, u, |before|, kept)
    ensures Fair(s, u, 0, before + kept)
  {
  }

  /**
   * The commit loop over one settled batch: whether each commit was kept, and the ids of the
   * allocations whose consumer had abandoned them; those are processed like the others.
   */
  method CommitBatch(vms: seq<Vm>, R: set<DonatableRegion>, rsvd: seq<EphAllocation>, i: nat, m: nat, v: nat,
                     region: DonatableRegion, ghost quiet: bool)
    returns (refused: seq<nat>, kept: seq<bool>)
    requires AllValid(R) && v < |vms| && region in vms[v].regions && region in R && i + m <= |rsvd|
    requires Own(rsvd) && Progress(vms, Lists(R), See(rsvd), i, m, region)
    modifies R`donated, R`revokedOwed, R`allocations, rsvd
    ensures AllValid(R) && Progress(vms, Lists(R), See(rsvd), i + m, 0, region)
    ensures |kept| == m && refused == RefusedIds(rsvd, i, kept) && Fair(old(See(rsvd)), See(rsvd), i, kept)
    ensures NoneListed(old(Lists(R)), Lists(R), rsvd)
    ensures quiet ==> Views(R) == old(Views(R)) && OnlyCommits(old(See(rsvd)), See(rsvd), i, kept)
  {
    hide Progress, AllValid, See, Own, Fair, Stay, Lists, NoneListed, Views, OnlyCommits;
    refused, kept := [], [];
    ghost var start, lists := See(rsvd), Lists(R);
    SameLists(lists, rsvd);
    SeeSize(rsvd);
    FairAtFirst(start, i);
    NoCommits(start, i);
    for j := 0 to m
      invariant |kept| == j && refused == RefusedIds(rsvd, i, kept) && Fair(start, See(rsvd), i, kept)
      invariant AllValid(R) && Progress(vms, Lists(R), See(rsvd), i + j, m - j, region)
      invariant NoneListed(lists, Lists(R), rsvd)
      invariant quiet ==> Views(R) == old(Views(R)) && OnlyCommits(start, See(rsvd), i, kept)
    {
      ghost var l := Lists(R);
      refused, kept := CommitTurn(vms, R, rsvd, i, m, v, region, refused, kept, start, quiet);
      ListedOn(lists, l, Lists(R), rsvd);
    }
  }

  /** One turn of the commit loop, and what happens until the next. */
  method CommitTurn(vms: seq<Vm>, R: set<DonatableRegion>, rsvd: seq<EphAllocation>, i: nat, m: nat, v: nat,
                    region: DonatableRegion, refused: seq<nat>, kept: seq<bool>, ghost start: seq<Seen>,
                    ghost quiet: bool)
    returns (refused': seq<nat>, kept': seq<bool>)
    requires AllValid(R) && v < |vms| && region in vms[v].regions && region in R && |kept| < m && i + m <= |rsvd|
    requires Own(rsvd) && Progress(vms, Lists(R), See(rsvd), i + |kept|, m - |kept|, region)
    requires refused == RefusedIds(rsvd, i, kept) && Fair(start, See(rsvd), i, kept)
    requires quiet ==> OnlyCommits(start, See(rsvd), i, kept)
    modifies R`donated, R`revokedOwed, R`allocations, rsvd
    ensures |kept'| == |kept| + 1 && refused' == RefusedIds(rsvd, i, kept') && Fair(start, See(rsvd), i, kept')
    ensures AllValid(R) && Progress(vms, Lists(R), See(rsvd), i + |kept'|, m - |kept'|, region)
    ensures NoneListed(old(Lists(R)), Lists(R), rsvd)
    ensures quiet ==> Views(R) == old(Views(R)) && OnlyCommits(start, See(rsvd), i, kept')
  {
    hide Progress, AllValid, See, Own, Fair, Stay, Lists, NoneListed, Views, OnlyCommits;
    var j := |kept|;
    ghost var t, l := See(rsvd), Lists(R);
    FairSize(start, t, i, kept);
    SeeAt(rsvd, t, i + j);
    var won := CommitOne(vms, R, rsvd, i + j, m - j, v, region, quiet);
    ghost var u, m' := See(rsvd), Lists(R);
    SeeAt(rsvd, u, i + j);
    FairNext(start, t, u, i, kept, won);
    kept' := kept + [won];
    refused' := if won then refused else refused + [rsvd[i + j].id];
    assert kept'[..j] == kept;
    if quiet {
      MoreCommits(start, t, u, i, kept, [won]);
    }
    Disturb(vms, R, rsvd, i + j + 1, m - j - 1, region, quiet);
    FairOn(start, u, See(rsvd), i, kept');
    ListedOn(l, m', Lists(R), rsvd);
  }

  lemma FairSize(s: seq<Seen>, t: seq<Seen>, i: nat, kept: seq<bool>)
    requires Fair(s, t, i, kept)
    ensures |s| == |t|
  {
  }

  /**
   * `return_and_bookkeep_eph_memory`: one return command; if the donor accepts it, every id that
   * it covers leaves the region's books, and nobody lists it again.
   */
  method ReturnAndBookkeep(vms: seq<Vm>, R: set<DonatableRegion>, rsvd: seq<EphAllocation>, i: nat,
                           region: DonatableRegion, ids: seq<nat>, accepts: bool, ghost quiet: bool)
    returns (commandBytes: nat)
    requires AllValid(R) && region in R && i <= |rsvd| && Progress(vms, Lists(R), See(rsvd), i, 0, region)
    requires forall id :: id in ids ==> exists k :: 0 <= k < |rsvd| && rsvd[k].id == id
    modifies R`donated, R`revokedOwed, R`allocations, rsvd
    ensures AllValid(R) && Progress(vms, Lists(R), See(rsvd), i, 0, region) && Stay(old(See(rsvd)), See(rsvd))
    ensures commandBytes == G * |ids| && NoneListed(old(Lists(R)), Lists(R), rsvd)
    ensures accepts ==> forall id :: id in ids ==> id !in region.allocations
    ensures quiet ==> See(rsvd) == old(See(rsvd))
    ensures quiet ==>
      Views(R) == old(Views(R))[region := if accepts then Bookkept(old(region.View()), ids) else old(region.View())]
  {
    hide Progress, AllValid, See, Stay, Lists, NoneListed, Views, Bookkeep;
    ViewAt(R, region);
    ghost var start, lists := See(rsvd), Lists(R);
    StayHere(start);
    SameLists(lists, rsvd);
    commandBytes := |ids| * G;
    if accepts {
      for k := 0 to |ids|
        invariant AllValid(R) && Progress(vms, Lists(R), See(rsvd), i, 0, region) && Stay(start, See(rsvd))
        invariant NoneListed(lists, Lists(R), rsvd) && Unlisting(region, ids[..k])
        invariant quiet ==> See(rsvd) == start
        invariant quiet ==> Views(R) == old(Views(R))[region := Bookkept(old(region.View()), ids[..k])]
      {
        ghost var s, l := See(rsvd), Lists(R);
        ViewAt(R, region);
        assert ids[..k] + [ids[k]] == ids[..k + 1] && ids[..k + 1][..k] == ids[..k];
        assert forall id :: id in ids[..k] ==> id in ids;
        BookkeepTurn(vms, R, rsvd, i, region, ids[..k], ids[k], quiet);
        StayOn(start, s, See(rsvd));
        ListedOn(lists, l, Lists(R), rsvd);
      }
      assert ids[..|ids|] == ids;
    }
  }

  ghost predicate Unlisting(region: DonatableRegion, ids: seq<nat>)
    reads region
  {
    forall id :: id in ids ==> id !in region.allocations
  }

  /** One turn of the bookkeeping loop, with what other threads do before it. */
  method BookkeepTurn(vms: seq<Vm>, R: set<DonatableRegion>, rsvd: seq<EphAllocation>, i: nat, region: DonatableRegion,
                      ghost done: seq<nat>, id: nat, ghost quiet: bool)
    requires AllValid(R) && region in R && i <= |rsvd| && Progress(vms, Lists(R), See(rsvd), i, 0, region)
    requires Unlisting(region, done) && forall x :: x in done ==> exists k :: 0 <= k < |rsvd| && rsvd[k].id == x
    modifies R`donated, R`revokedOwed, R`allocations, rsvd
    ensures AllValid(R) && Progress(vms, Lists(R), See(rsvd), i, 0, region) && Stay(old(See(rsvd)), See(rsvd))
    ensures NoneListed(old(Lists(R)), Lists(R), rsvd) && Unlisting(region, done + [id])
    ensures quiet ==> See(rsvd) == old(See(rsvd))
    ensures quiet ==> Views(R) == old(Views(R))[region := Bookkeep(old(region.View()), id)]
  {
    hide Progress, AllValid, See, Stay, Lists, NoneListed, Views, Bookkeep;
    ghost var l := Lists(R);
    ListsOf(R, region);
    ViewAt(R, region);
    Disturb(vms, R, rsvd, i, 0, region, quiet);
    ghost var m := Lists(R);
    StaysUnlisted(l, m, rsvd, region, done, R);
    ViewAt(R, region);
    BookkeepIn(vms, R, rsvd, i, region, id);
    ListedOn(l, m, Lists(R), rsvd);
  }

  lemma StayHere(s: seq<Seen>)
    ensures Stay(s, s)
  {
  }

  /** Ids of the request that are not listed stay unlisted. */
  lemma StaysUnlisted(l: map<DonatableRegion, set<nat>>, m: map<DonatableRegion, set<nat>>, rsvd: seq<EphAllocation>,
                      region: DonatableRegion, ids: seq<nat>, R: set<DonatableRegion>)
    requires NoneListed(l, m, rsvd) && region in R && m == Lists(R) && region in l
    requires forall id :: id in ids ==> id !in l[region] && exists k :: 0 <= k < |rsvd| && rsvd[k].id == id
    ensures forall id :: id in ids ==> id !in region.allocations
  {
  }

  method BookkeepIn(vms: seq<Vm>, R: set<DonatableRegion>, rsvd: seq<EphAllocation>, i: nat, region: DonatableRegion,
                    id: nat)
    requires AllValid(R) && region in R && i <= |rsvd| && Progress(vms, Lists(R), See(rsvd), i, 0, region)
    modifies region`donated, region`allocations
    ensures AllValid(R) && Progress(vms, Lists(R), See(rsvd), i, 0, region)
    ensures NoneListed(old(Lists(R)), Lists(R), rsvd) && region.allocations.Keys == old(region.allocations.Keys) - {id}
    ensures region.donated == old(region.donated) - if id in old(region.allocations) then G else 0
    ensures Views(R) == old(Views(R))[region := Bookkeep(old(region.View()), id)]
  {
    hide Progress, AllValid, See, Lists, NoneListed, Views, Bookkeep;
    ghost var before := Lists(R);
    ListsOf(R, region);
    BookkeepListed(R, region, id);
    Unlisted(vms, before, Lists(R), See(rsvd), i, region, id);
    OneLess(before, Lists(R), rsvd, region, id);
  }

  /** The bookkeeping call itself, and what it does to the lists. */
  method BookkeepListed(R: set<DonatableRegion>, region: DonatableRegion, id: nat)
    requires AllValid(R) && region in R
    modifies region`donated, region`allocations
    ensures AllValid(R) && region in old(Lists(R)) && Lists(R) == old(Lists(R))[region := old(Lists(R))[region] - {id}]
    ensures region.allocations.Keys == old(region.allocations.Keys) - {id}
    ensures region.donated == old(region.donated) - if id in old(region.allocations) then G else 0
    ensures Views(R) == old(Views(R))[region := Bookkeep(old(region.View()), id)]
  {
    hide Bookkeep, Region.Ok;
    ghost var views := Views(R);
    BookkeepOne(region, id);
    ViewsWith(R, views, region);
    ListsAre(R);
  }

  method BookkeepOne(region: DonatableRegion, id: nat)
    requires region.Valid()
    modifies region`donated, region`allocations
    ensures region.Valid() && region.View() == Bookkeep(old(region.View()), id)
    ensures region.allocations.Keys == old(region.allocations.Keys) - {id}
    ensures region.donated == old(region.donated) - if id in old(region.allocations) then G else 0
  {
    hide Region.Ok;
    if id in region.allocations {
      BookkeepKeeps(region.View(), id);
    }
    var clean := region.BookkeepReturned(id);
  }

  lemma ViewsWith(R: set<DonatableRegion>, views: map<DonatableRegion, Region>, region: DonatableRegion)
    requires region in R && views.Keys == R && forall r :: r in R && r != region ==> r.View() == views[r]
    ensures Views(R) == views[region := region.View()]
  {
  }

  lemma ListsAre(R: set<DonatableRegion>)
    ensures forall r :: r in R ==> Lists(R)[r] == r.allocations.Keys
  {
  }

  lemma ListsOf(R: set<DonatableRegion>, region: DonatableRegion)
    requires region in R
    ensures region in Lists(R) && Lists(R)[region] == region.allocations.Keys
  {
  }

  lemma OneLess(l: map<DonatableRegion, set<nat>>, m: map<DonatableRegion, set<nat>>, rsvd: seq<EphAllocation>,
                region: DonatableRegion, id: nat)
    requires region in l && m == l[region := l[region] - {id}]
    ensures NoneListed(l, m, rsvd)
  {
  }

  lemma Unlisted(vms: seq<Vm>, l: map<DonatableRegion, set<nat>>, m: map<DonatableRegion, set<nat>>,
                 s: seq<Seen>, i: nat, region: DonatableRegion, id: nat)
    requires region in l && i <= |s| && Progress(vms, l, s, i, 0, region) && m == l[region := l[region] - {id}]
    ensures Progress(vms, m, s, i, 0, region)
  {
    hide Names;
    forall j | i <= j < |s| ensures s[j].id !in l[region] {
      assert Waiting(l, s[j], null);
    }
    Relisted(vms, l, m, s, i, 0, 0, region);
  }

  /** The first half: reserve, ask, settle. `owed` is the region's debt when the answer is settled. */
  method Request(vms: seq<Vm>, R: set<DonatableRegion>, rsvd: seq<EphAllocation>, i: nat, region: DonatableRegion,
                 granted: nat, ghost quiet: bool)
    returns (n: nat, m: nat, giveBack: nat, ghost owed: nat)
    requires AllValid(R) && region in R && HasRoom(region)
    requires i < |rsvd| && Own(rsvd) && Progress(vms, Lists(R), See(rsvd), i, 0, region)
    modifies R`donated, R`revokedOwed, R`allocations, rsvd
    ensures AllValid(R) && 0 < n && m <= n && i + n <= |rsvd| && Progress(vms, Lists(R), See(rsvd), i, m, region)
    ensures Stay(old(See(rsvd)), See(rsvd)) && G * n == old(ReserveBytes(region.View(), G * (|rsvd| - i)))
    ensures n == |rsvd| - i || old(region.size - region.donated) - G * n < G
    ensures G * m + giveBack == Min(granted, G * n) && G * m == Usable(owed, G * n, granted)
    ensures region.revokedOwed <= owed && (region.revokedOwed > 0 ==> m == 0)
    ensures (owed - region.revokedOwed) + G * m == AlignDown(Min(granted, G * n))
    ensures quiet ==> See(rsvd) == old(See(rsvd)) && owed == old(region.revokedOwed)
    ensures quiet ==> SettledTo(old(Views(R)), Views(R), region, Ids(rsvd[i..i + n]), granted, m, giveBack)
  {
    hide Progress, AllValid, See, Own, HasRoom, Stay, Lists, ReserveBytes, Usable, Views, Settle,
      Donor.Reserve, Count, AlignDown, SettledTo;
    ghost var views, view := Views(R), region.View();
    ViewAt(R, region);
    n := ReserveIn(vms, R, rsvd, i, region);
    ghost var reserved := Views(R);

    // The donor answers with any size, or the command fails, which counts as nothing granted.
    Disturb(vms, R, rsvd, i, n, region, quiet);
    ViewAt(R, region);
    owed := region.revokedOwed;
    m, giveBack := SettleIn(vms, R, rsvd, i, n, region, granted);
    if quiet {
      ReserveOwes(view, Ids(rsvd[i..i + n]));
      SettledViews(views, reserved, Views(R), region, Ids(rsvd[i..i + n]), granted, m, giveBack);
    }
  }

  /** The region has reserved `ids` and settled the grant; the other regions are as they were. */
  ghost predicate SettledTo(views: map<DonatableRegion, Region>, views': map<DonatableRegion, Region>,
                            region: DonatableRegion, ids: seq<nat>, granted: nat, m: nat, giveBack: nat)
  {
    region in views &&
    var settled := Settle(Donor.Reserve(views[region], ids), ids, granted);
    views' == views[region := settled.region] && m == Count(settled.usable) && giveBack == settled.giveBack
  }

  lemma ReserveOwes(r: Region, ids: seq<nat>)
    ensures Donor.Reserve(r, ids).owed == r.owed
  {
  }

  lemma SettledViews(views: map<DonatableRegion, Region>, reserved: map<DonatableRegion, Region>,
                     views': map<DonatableRegion, Region>, region: DonatableRegion, ids: seq<nat>, granted: nat, m: nat,
                     giveBack: nat)
    requires region in views && reserved == views[region := Donor.Reserve(views[region], ids)]
    requires var settled := Settle(reserved[region], ids, granted);
      views' == reserved[region := settled.region] && m == Count(settled.usable) && giveBack == settled.giveBack
    ensures SettledTo(views, views', region, ids, granted, m, giveBack)
  {
    hide Settle, Donor.Reserve, Count;
  }

  /** The second half: commit what the grant pays for, and return what was refused. */
  method CommitAndReturn(vms: seq<Vm>, R: set<DonatableRegion>, rsvd: seq<EphAllocation>, i: nat, m: nat, v: nat,
                         region: DonatableRegion, accepts: bool, ghost quiet: bool)
    returns (refused: seq<nat>, kept: seq<bool>, sent: nat)
    requires AllValid(R) && v < |vms| && region in vms[v].regions && region in R && i + m <= |rsvd|
    requires Own(rsvd) && Progress(vms, Lists(R), See(rsvd), i, m, region)
    modifies R`donated, R`revokedOwed, R`allocations, rsvd
    ensures AllValid(R) && Progress(vms, Lists(R), See(rsvd), i + m, 0, region)
    ensures |kept| == m && refused == RefusedIds(rsvd, i, kept) && Fair(old(See(rsvd)), See(rsvd), i, kept)
    ensures sent == G * |refused| && (accepts ==> RefusedUnlisted(R, rsvd, i, kept))
    ensures quiet ==> OnlyCommits(old(See(rsvd)), See(rsvd), i, kept)
    ensures quiet ==>
      (Views(R) ==
       old(Views(R))[region := if accepts then Bookkept(old(region.View()), refused) else old(region.View())])
  {
    hide Progress, AllValid, See, Own, Stay, Fair, Lists, RefusedIds, NoneListed, RefusedUnlisted, Views,
      OnlyCommits, Bookkept;
    ghost var s, l0 := See(rsvd), Lists(R);
    ViewAt(R, region);
    OnlyHere(vms, R, l0, s, rsvd, i, m, region);
    Disturb(vms, R, rsvd, i, m, region, quiet);
    ghost var t, l1 := See(rsvd), Lists(R);
    refused, kept := CommitBatch(vms, R, rsvd, i, m, v, region, quiet);
    ListedOn(l0, l1, Lists(R), rsvd);
    FairEarlier(s, t, See(rsvd), i, kept);
    RefusedAre(rsvd, i, kept);
    NoneBookkept(region.View());
    ViewAt(R, region);
    sent := 0;
    if refused != [] {
      ghost var u, l2 := See(rsvd), Lists(R);
      sent := ReturnAndBookkeep(vms, R, rsvd, i + m, region, refused, accepts, quiet);
      FairOn(s, u, See(rsvd), i, kept);
      ListedOn(l0, l2, Lists(R), rsvd);
    }
    if accepts {
      UnlistedEverywhere(R, l0, rsvd, i, m, kept, region, refused);
    }
  }

  lemma NoneBookkept(r: Region)
    ensures Bookkept(r, []) == r
  {
  }

  /** One donor is asked: reserve, QMP request, settle, send back the excess, commit, return the refused. */
  method AskDonor(vms: seq<Vm>, R: set<DonatableRegion>, rsvd: seq<EphAllocation>, i: nat, v: nat,
                  region: DonatableRegion, reply: Reply, ghost quiet: bool)
    returns (done: nat, stop: bool, log: seq<Command>, kept: seq<bool>, ghost owed: nat)
    requires AllValid(R) && v < |vms| && region in vms[v].regions && region in R && HasRoom(region)
    requires i < |rsvd| && Own(rsvd) && Progress(vms, Lists(R), See(rsvd), i, 0, region)
    modifies R`donated, R`revokedOwed, R`allocations, rsvd
    ensures AllValid(R) && i <= done <= |rsvd| && Progress(vms, Lists(R), See(rsvd), done, 0, region)
    ensures |kept| == done - i && Fair(old(See(rsvd)), See(rsvd), i, kept)
    ensures var asked := old(ReserveBytes(region.View(), G * (|rsvd| - i)));
      Negotiated(vms[v].path, asked, reply.Granted(), owed, log, kept)
    ensures Balanced(log, kept) && stop == (false in kept)
    ensures CommandsFor(vms[v].path, reply.Granted(), log, kept)
    ensures log[0].bytes == G * (|rsvd| - i) || old(region.size - region.donated) - log[0].bytes < G
    ensures reply.accepts ==> RefusedUnlisted(R, rsvd, i, kept)
    ensures quiet ==> owed == old(region.revokedOwed) && OnlyCommits(old(See(rsvd)), See(rsvd), i, kept)
    ensures quiet ==> (Search(Views(R), log, kept) ==
      Negotiate(vms[v].path, region, old(Views(R)), rsvd, Gone(old(See(rsvd))), i, reply))
  {
    hide Progress, AllValid, See, Own, HasRoom, Stay, Fair, Lists, Balanced, RefusedIds, ReserveBytes, Usable,
      Negotiated, Negotiation, RefusedUnlisted, Views, OnlyCommits, Bookkept, Negotiate, Gone, SettledTo,
      CommandsFor;
    ghost var start, views := See(rsvd), Views(R);
    RoomView(R, region);
    var path, n, m, giveBack := vms[v].path, 0, 0, 0;
    n, m, giveBack, owed := Request(vms, R, rsvd, i, region, reply.Granted(), quiet);
    log := [Demand(path, G * n, reply.Granted())];
    if reply.granted.None? {
      FailedGivesNothing(G * n, m, giveBack);
      NothingTried(R, rsvd, start, See(rsvd), i, region);
      OnlyDemand(path, G * n, 0);
      ViewAt(R, region);
      assert Views(R) == Views(R)[region := region.View()];
      NegotiationOf(path, G * n, n, 0, owed, giveBack, rsvd, i, [], log);
      CommandsAre(path, G * n, 0, owed, log, []);
      if quiet {
        QuietOutcome(path, region, views, Views(R), rsvd, start, See(rsvd), i, n, reply, Views(R), giveBack, log, []);
      }
      return i, false, log, [], owed;
    }
    if giveBack > 0 {
      log := log + [HandBack(path, giveBack)];
    }
    ghost var s, settled := See(rsvd), Views(R);
    ViewAt(R, region);
    var refused, sent;
    refused, kept, sent := CommitAndReturn(vms, R, rsvd, i, m, v, region, reply.accepts, quiet);
    FairEarlier(start, s, See(rsvd), i, kept);
    SomeRefused(rsvd, i, kept);
    done := i + m;
    stop := refused != [];
    if stop {
      log := log + [HandBack(path, sent)];
    }
    SentLog(path, G * n, reply.Granted(), giveBack, |refused|);
    NegotiationOf(path, G * n, n, reply.Granted(), owed, giveBack, rsvd, i, kept, log);
    CommandsAre(path, G * n, reply.Granted(), owed, log, kept);
    if quiet {
      QuietOutcome(path, region, views, settled, rsvd, start, See(rsvd), i, n, reply, Views(R), giveBack, log, kept);
    }
  }

  lemma RoomView(R: set<DonatableRegion>, region: DonatableRegion)
    requires region in R && HasRoom(region) && AllValid(R)
    ensures region in Views(R) && Room(Views(R)[region]) && Views(R)[region] == region.View()
  {
  }

  /** After a failed demand no allocation has been tried. */
  lemma NothingTried(R: set<DonatableRegion>, rsvd: seq<EphAllocation>, s: seq<Seen>, t: seq<Seen>, i: nat,
                     region: DonatableRegion)
    requires i <= |rsvd| == |s| && Stay(s, t)
    ensures Fair(s, t, i, []) && RefusedUnlisted(R, rsvd, i, []) && (s == t ==> OnlyCommits(s, t, i, []))
    ensures Trues([]) == 0 && RefusedIds(rsvd, i, []) == [] && Bookkept(region.View(), []) == region.View()
  {
  }

  /** The log of a negotiation, from the number of chunks asked for and tried. */
  lemma NegotiationOf(vm: nat, asked: nat, n: nat, granted: nat, owed: nat, giveBack: nat, rsvd: seq<EphAllocation>,
                      i: nat, kept: seq<bool>, log: seq<Command>)
    requires i + |kept| <= |rsvd| && asked == G * n && 0 < n
    requires G * |kept| + giveBack == Min(granted, asked) && G * |kept| == Usable(owed, asked, granted)
    requires log == Negotiation(vm, asked, granted, giveBack, |RefusedIds(rsvd, i, kept)|)
    ensures Negotiated(vm, asked, granted, owed, log, kept) && Balanced(log, kept)
  {
    hide Negotiation, Usable, Trues, RefusedIds, Balanced, Whole;
    Chunks(n);
    KeptOrRefused(rsvd, i, kept);
    NegotiationBalanced(vm, asked, granted, giveBack, |kept|, |RefusedIds(rsvd, i, kept)|, kept);
  }

  /** Without other threads one negotiation adds what the walk computes. */
  lemma QuietOutcome(vm: nat, region: DonatableRegion, views: map<DonatableRegion, Region>,
                     settled: map<DonatableRegion, Region>, rsvd: seq<EphAllocation>, s: seq<Seen>, t: seq<Seen>,
                     i: nat, n: nat, reply: Reply, views': map<DonatableRegion, Region>, giveBack: nat,
                     log: seq<Command>, kept: seq<bool>)
    requires i + n <= |rsvd| == |s| && region in views && Room(views[region]) && OnlyCommits(s, t, i, kept)
    requires G * n == ReserveBytes(views[region], G * (|rsvd| - i))
    requires SettledTo(views, settled, region, Ids(rsvd[i..i + n]), reply.Granted(), |kept|, giveBack)
    requires var refused := RefusedIds(rsvd, i, kept);
      && views' == settled[region := if reply.accepts then Bookkept(settled[region], refused) else settled[region]]
      && log == Negotiation(vm, G * n, reply.Granted(), giveBack, |refused|)
    ensures Negotiate(vm, region, views, rsvd, Gone(s), i, reply) == Search(views', log, kept)
  {
    hide Settle, Donor.Reserve, Bookkept, Negotiation, RefusedIds, ReserveBytes, Whole, Count;
    ReservableIs(views[region], rsvd, i, n);
  }

  lemma ReservableIs(view: Region, rsvd: seq<EphAllocation>, i: nat, n: nat)
    requires i + n <= |rsvd| && view.donated <= view.size && G * n == ReserveBytes(view, G * (|rsvd| - i))
    ensures Reservable(view, Ids(rsvd[i..])) == Ids(rsvd[i..i + n])
  {
    var ids := Reservable(view, Ids(rsvd[i..]));
    assert |ids| == n;
    assert rsvd[i..][..n] == rsvd[i..i + n];
    assert ids == Ids(rsvd[i..])[..n];
  }

  /** The allocations whose commit was refused are listed nowhere. */
  ghost predicate RefusedUnlisted(R: set<DonatableRegion>, rsvd: seq<EphAllocation>, i: nat, kept: seq<bool>)
    reads R
  {
    i + |kept| <= |rsvd| &&
    forall k, r :: 0 <= k < |kept| && !kept[k] && r in R ==> rsvd[i + k].id !in r.allocations
  }

  /** A batch in flight is listed in its own region only. */
  lemma OnlyHere(vms: seq<Vm>, R: set<DonatableRegion>, l: map<DonatableRegion, set<nat>>, s: seq<Seen>,
                 rsvd: seq<EphAllocation>, i: nat, m: nat, region: DonatableRegion)
    requires l == Lists(R) && s == See(rsvd) && Progress(vms, l, s, i, m, region) && i + m <= |rsvd|
    ensures forall j, r :: i <= j < i + m && r in l && r != region ==> rsvd[j].id !in l[r]
  {
    hide Names;
    forall j, r | i <= j < i + m && r in l && r != region ensures rsvd[j].id !in l[r] {
      SeeAt(rsvd, s, j);
      assert Waiting(l, s[j], region);
    }
  }

  lemma UnlistedEverywhere(R: set<DonatableRegion>, l: map<DonatableRegion, set<nat>>, rsvd: seq<EphAllocation>, i: nat,
                           m: nat, kept: seq<bool>, region: DonatableRegion, refused: seq<nat>)
    requires NoneListed(l, Lists(R), rsvd) && i + m <= |rsvd| && |kept| == m && region in R
    requires forall j, r :: i <= j < i + m && r in l && r != region ==> rsvd[j].id !in l[r]
    requires forall k :: 0 <= k < m && !kept[k] ==> rsvd[i + k].id in refused
    requires forall id :: id in refused ==> id !in region.allocations
    ensures RefusedUnlisted(R, rsvd, i, kept)
  {
    forall k, r | 0 <= k < m && !kept[k] && r in R ensures rsvd[i + k].id !in r.allocations {
      assert rsvd[i + k].id in refused;
      assert Lists(R)[r] == r.allocations.Keys && r in l;
    }
  }

  lemma SeeSize(rsvd: seq<EphAllocation>)
    ensures |See(rsvd)| == |rsvd|
  {
  }

  lemma FairEarlier(s: seq<Seen>, t: seq<Seen>, u: seq<Seen>, i: nat, kept: seq<bool>)
    requires Stay(s, t) && Fair(t, u, i, kept)
    ensures Fair(s, u, i, kept)
  {
  }

  /** No donor recorded, and listed nowhere. */
  ghost predicate Unbacked(R: set<DonatableRegion>, a: EphAllocation)
    reads R, a
  {
    a.donorInfo == None && forall r :: r in R ==> a.id !in r.allocations
  }

  /** A donor recorded, and listed at most in the region that the record names. */
  ghost predicate BackedBy(vms: seq<Vm>, R: set<DonatableRegion>, a: EphAllocation)
    reads R, a
  {
    a.donorInfo.Some? && forall r :: r in R && a.id in r.allocations ==> Names(vms, a.donorInfo.value, r)
  }

  /**
   * How far the search has come in the walk over the list: all VMs before `next` have had their
   * turn, `lastPath` is the last one asked, and the walk so far has this outcome.
   */
  ghost predicate Walked(vms: seq<Vm>, views: map<DonatableRegion, Region>, rsvd: seq<EphAllocation>, gone: seq<bool>,
                         replies: nat -> Reply, now: Search, next: nat, lastPath: nat)
  {
    && next <= |vms| && |rsvd| == |gone|
    && now == Walk(vms[..next], Search(views, [], []), rsvd, gone, replies)
    && (forall w :: 0 <= w < next ==> vms[w].path <= lastPath)
    && (forall w :: next <= w < |vms| ==> lastPath < vms[w].path)
  }

  lemma WalkStarts(vms: seq<Vm>, views: map<DonatableRegion, Region>, rsvd: seq<EphAllocation>, gone: seq<bool>,
                   replies: nat -> Reply)
    requires Ordered(vms) && |rsvd| == |gone|
    ensures Walked(vms, views, rsvd, gone, replies, Search(views, [], []), 0, 0)
  {
  }

  lemma NoRoomHere(vms: seq<Vm>, R: set<DonatableRegion>, w: nat)
    requires Regions(vms, R) && w < |vms| && forall k :: 0 <= k < |vms[w].regions| ==> !HasRoom(vms[w].regions[k])
    ensures FirstRoom(vms[w].regions, Views(R)).None?
  {
    FirstRoomIs(vms[w].regions, Views(R), |vms[w].regions|);
  }

  lemma RoomHere(vms: seq<Vm>, R: set<DonatableRegion>, v: nat, k: nat)
    requires Regions(vms, R) && v < |vms| && k < |vms[v].regions| && HasRoom(vms[v].regions[k])
    requires forall l :: 0 <= l < k ==> !HasRoom(vms[v].regions[l])
    ensures FirstRoom(vms[v].regions, Views(R)) == Some(vms[v].regions[k])
  {
    FirstRoomIs(vms[v].regions, Views(R), k);
  }

  /** The next VM with room has its turn; those before it are passed over. */
  lemma WalkTurns(vms: seq<Vm>, R: set<DonatableRegion>, views: map<DonatableRegion, Region>, rsvd: seq<EphAllocation>,
                  gone: seq<bool>, replies: nat -> Reply, now: Search, next: nat, lastPath: nat, v: nat,
                  region: DonatableRegion)
    requires Walked(vms, views, rsvd, gone, replies, now, next, lastPath) && now.views == Views(R) && Regions(vms, R)
    requires Ordered(vms) && v < |vms| && lastPath < vms[v].path && |now.kept| < |rsvd| && false !in now.kept
    requires FirstWithRoom(vms[v].regions, region)
    requires NoRoom(vms, lastPath, v)
    ensures region in now.views && Room(now.views[region])
    ensures var more := Negotiate(vms[v].path, region, now.views, rsvd, gone, |now.kept|, replies(vms[v].path));
      var next' := Search(more.views, now.log + more.log, now.kept + more.kept);
      Walked(vms, views, rsvd, gone, replies, next', v + 1, vms[v].path)
  {
    hide Negotiate, Walk;
    assert next <= v;
    var k :| 0 <= k < |vms[v].regions| && vms[v].regions[k] == region && HasRoom(region) &&
      NoneBefore(vms[v].regions, k);
    RoomHere(vms, R, v, k);
    forall w | next <= w < v ensures FirstRoom(vms[w].regions, Views(R)).None? {
      NoRoomHere(vms, R, w);
    }
    var start := Search(views, [], []);
    WalkPast(vms, next, v, start, rsvd, gone, replies);
    WalkNext(vms, v, start, rsvd, gone, replies);
  }

  /** The search is over, or nobody further has room: the rest of the walk changes nothing. */
  lemma WalkEnds(vms: seq<Vm>, R: set<DonatableRegion>, views: map<DonatableRegion, Region>, rsvd: seq<EphAllocation>,
                 gone: seq<bool>, replies: nat -> Reply, now: Search, next: nat, lastPath: nat)
    requires Walked(vms, views, rsvd, gone, replies, now, next, lastPath) && now.views == Views(R) && Regions(vms, R)
    requires |now.kept| >= |rsvd| || false in now.kept || NoRoom(vms, lastPath, |vms|)
    ensures now == Walk(vms, Search(views, [], []), rsvd, gone, replies)
  {
    hide Negotiate, Walk;
    if !(|now.kept| >= |rsvd| || false in now.kept) {
      forall w | next <= w < |vms| ensures FirstRoom(vms[w].regions, Views(R)).None? {
        NoRoomHere(vms, R, w);
      }
    }
    WalkPast(vms, next, |vms|, Search(views, [], []), rsvd, gone, replies);
    assert vms[..|vms|] == vms;
  }

  /** Commits do not change which allocations have been abandoned. */
  lemma SameGone(s: seq<Seen>, t: seq<Seen>, i: nat, kept: seq<bool>)
    requires OnlyCommits(s, t, i, kept)
    ensures Gone(t) == Gone(s)
  {
    forall k | 0 <= k < |s| ensures Gone(t)[k] == Gone(s)[k] {
      if i <= k < i + |kept| {
        assert kept[k - i] == !Gone(s)[k] && t[i + (k - i)].state == if kept[k - i] then Committed else Abandoned;
      }
    }
  }

  /**
   * The whole search, for any replies of the donors and any interference. It terminates on a
   * fixed VM list because the path it has reached only grows. Afterwards the allocations before
   * `processed` have been committed or refused, each exactly once, and are listed at most in the
   * region that their donor record names; the others have no donor and are listed nowhere. What
   * the donors gave and did not get back is one chunk for each commit that was kept; the log is
   * made of whole negotiations. The search falls short only after a refusal or when no VM behind
   * the last one asked has room. Without other threads everything it does is the walk's.
   */
  method AllocateEphMemory(vms: seq<Vm>, R: set<DonatableRegion>, rsvd: seq<EphAllocation>, replies: nat -> Reply,
                           ghost quiet: bool)
    returns (processed: nat, log: seq<Command>, kept: seq<bool>, ghost pieces: seq<Piece>)
    requires Ordered(vms) && Regions(vms, R) && AllValid(R) && Own(rsvd)
    requires forall a :: a in rsvd ==> Unbacked(R, a) && (a.state == PendingCommit || a.state == Abandoned)
    modifies R`donated, R`revokedOwed, R`allocations, rsvd
    ensures AllValid(R) && processed <= |rsvd|
    ensures forall a :: a in rsvd[..processed] ==> BackedBy(vms, R, a)
    ensures forall a :: a in rsvd[processed..] ==> Unbacked(R, a)
    ensures |kept| == processed && Fair(old(See(rsvd)), See(rsvd), 0, kept)
    ensures Balanced(log, kept) && Asked(log, vms, replies) && Pieced(pieces, log, kept, |rsvd|, replies)
    ensures processed < |rsvd| && false !in kept ==> NoRoom(vms, LastAsked(log), |vms|)
    ensures false in kept && replies(LastAsked(log)).accepts ==> RefusedUnlisted(R, rsvd, 0, kept)
    ensures quiet ==> OnlyCommits(old(See(rsvd)), See(rsvd), 0, kept)
    ensures quiet ==> (Search(Views(R), log, kept) ==
      Walk(vms, Search(old(Views(R)), [], []), rsvd, Gone(old(See(rsvd))), replies))
  {
    hide Progress, AllValid, See, Own, Names, Stay, Lists, Negotiated, RefusedUnlisted, Views, FirstWithRoom, Negotiate,
      Gone, Regions, NoRoom, Ordered, Stands, LastAsked, AsksMost, PieceOk, CommandsFor, ReserveBytes, Fair,
      OnlyCommits, Balanced, Asked, Pieced, HasRoom, Walk, BackedBy, Unbacked;
    ghost var start, views, next := See(rsvd), Views(R), 0;
    SeeSize(rsvd);
    var lastPath := 0;
    processed, log, kept, pieces := 0, [], [], [];
    StartsWaiting(vms, R, rsvd);
    StandsAtFirst(vms, views, rsvd, start, replies, quiet);
    while processed < |rsvd|
      invariant |kept| == processed <= |rsvd| && false !in kept && lastPath <= TopPath(vms)
      invariant AllValid(R) && Progress(vms, Lists(R), See(rsvd), processed, 0, null)
      invariant Stands(vms, views, rsvd, start, See(rsvd), replies, Search(Views(R), log, kept), pieces, next,
                       lastPath, quiet)
      decreases TopPath(vms) - lastPath
    {
      ghost var s, was := See(rsvd), Views(R);
      Disturb(vms, R, rsvd, processed, 0, null, quiet);
      StandsOn(vms, views, rsvd, start, s, See(rsvd), replies, was, Views(R), log, kept, pieces, next, lastPath, quiet);
      var v, region := FindRoom(vms, lastPath, R);
      if region == null {
        break;
      }
      NoBatch(vms, Lists(R), See(rsvd), processed, null, region);
      ghost var t, now, owed := See(rsvd), Search(Views(R), log, kept), 0;
      ghost var asked, free := AskFor(R, region, G * (|rsvd| - processed)), FreeIn(R, region);
      ghost var missing := |rsvd| - processed;
      AskedMost(R, region, missing);
      RoomView(R, region);
      StandsWalk(vms, R, views, rsvd, start, t, replies, now, pieces, next, lastPath, quiet, v, region);
      var stop, more, kept';
      processed, stop, more, kept', owed := AskDonor(vms, R, rsvd, processed, v, region, replies(vms[v].path), quiet);
      NoBatch(vms, Lists(R), See(rsvd), processed, region, null);
      ghost var piece := Piece(vms[v].path, asked, free, owed, more, kept');
      PieceIs(piece, |now.kept|, |rsvd|, replies);
      StandsNext(vms, views, rsvd, start, t, See(rsvd), replies, now, pieces, next, lastPath, quiet, v,
                 region, Views(R), piece);
      PathsGrow(vms, v);
      RefusedLast(R, rsvd, kept, kept', replies(vms[v].path).accepts);
      log, kept, pieces, next := log + more, kept + kept', pieces + [piece], v + 1;
      lastPath := vms[v].path;
      if stop {
        break;
      }
    }
    EndState(vms, R, rsvd, processed);
    StandsLast(vms, R, views, rsvd, start, See(rsvd), replies, Search(Views(R), log, kept), pieces, next,
               lastPath, quiet);
  }

  /** Where the search stands: what is known of its log and commits, and how far it is in the walk. */
  ghost predicate Stands(vms: seq<Vm>, views: map<DonatableRegion, Region>, rsvd: seq<EphAllocation>, s: seq<Seen>,
                         t: seq<Seen>, replies: nat -> Reply, now: Search, pieces: seq<Piece>, next: nat, lastPath: nat,
                         quiet: bool)
  {
    && |s| == |rsvd| && lastPath == LastAsked(now.log) && Fair(s, t, 0, now.kept)
    && Balanced(now.log, now.kept) && Asked(now.log, vms, replies) && Pieced(pieces, now.log, now.kept, |rsvd|, replies)
    && (quiet ==> OnlyCommits(s, t, 0, now.kept))
    && (quiet ==> Walked(vms, views, rsvd, Gone(s), replies, now, next, lastPath))
  }

  lemma StandsAtFirst(vms: seq<Vm>, views: map<DonatableRegion, Region>, rsvd: seq<EphAllocation>, s: seq<Seen>,
                      replies: nat -> Reply, quiet: bool)
    requires Ordered(vms) && |s| == |rsvd|
    ensures Stands(vms, views, rsvd, s, s, replies, Search(views, [], []), [], 0, 0, quiet)
  {
    hide Ordered, Fair, Balanced, Asked, Pieced, OnlyCommits, Walked, Gone;
    FairAtFirst(s, 0);
    NothingGiven();
    NothingAsked(vms, replies);
    NoPieces(|rsvd|, replies);
    NoCommits(s, 0);
    WalkStarts(vms, views, rsvd, Gone(s), replies);
  }

  lemma StandsOn(vms: seq<Vm>, views: map<DonatableRegion, Region>, rsvd: seq<EphAllocation>, s: seq<Seen>,
                 t: seq<Seen>, u: seq<Seen>, replies: nat -> Reply, was: map<DonatableRegion, Region>,
                 now: map<DonatableRegion, Region>, log: seq<Command>, kept: seq<bool>, pieces: seq<Piece>,
                 next: nat, lastPath: nat, quiet: bool)
    requires Stands(vms, views, rsvd, s, t, replies, Search(was, log, kept), pieces, next, lastPath, quiet)
    requires Stay(t, u) && (quiet ==> t == u && was == now)
    ensures Stands(vms, views, rsvd, s, u, replies, Search(now, log, kept), pieces, next, lastPath, quiet)
  {
    hide Fair, Balanced, Asked, Pieced, OnlyCommits, Walked, Gone, Stay, LastAsked;
    FairOn(s, t, u, 0, kept);
  }

  /** Without other threads the VM found has the next turn of the walk. */
  lemma StandsWalk(vms: seq<Vm>, R: set<DonatableRegion>, views: map<DonatableRegion, Region>, rsvd: seq<EphAllocation>,
                   s: seq<Seen>, t: seq<Seen>, replies: nat -> Reply, now: Search, pieces: seq<Piece>, next: nat,
                   lastPath: nat, quiet: bool, v: nat, region: DonatableRegion)
    requires Stands(vms, views, rsvd, s, t, replies, now, pieces, next, lastPath, quiet) && now.views == Views(R)
    requires Regions(vms, R) && Ordered(vms) && v < |vms| && lastPath < vms[v].path && |now.kept| < |rsvd|
    requires false !in now.kept && FirstWithRoom(vms[v].regions, region) && NoRoom(vms, lastPath, v)
    requires region in now.views && Room(now.views[region])
    ensures lastPath == LastAsked(now.log)
    ensures quiet ==> Gone(t) == Gone(s)
    ensures quiet ==> WalkedTo(vms, views, rsvd, Gone(s), replies, now, v, region)
  {
    hide Fair, Balanced, Asked, Pieced, OnlyCommits, Walked, Gone, LastAsked, Regions, Ordered, NoRoom,
      FirstWithRoom, Views, Negotiate;
    if quiet {
      SameGone(s, t, 0, now.kept);
      WalkTurns(vms, R, views, rsvd, Gone(s), replies, now, next, lastPath, v, region);
    }
  }

  /** With the turn of the `v`-th VM added, the walk stands behind it. */
  ghost predicate WalkedTo(vms: seq<Vm>, views: map<DonatableRegion, Region>, rsvd: seq<EphAllocation>, gone: seq<bool>,
                           replies: nat -> Reply, now: Search, v: nat, region: DonatableRegion)
  {
    v < |vms| && region in now.views && Room(now.views[region]) && |now.kept| <= |rsvd| == |gone| &&
    var more := Negotiate(vms[v].path, region, now.views, rsvd, gone, |now.kept|, replies(vms[v].path));
    var next := Search(more.views, now.log + more.log, now.kept + more.kept);
    Walked(vms, views, rsvd, gone, replies, next, v + 1, vms[v].path)
  }

  lemma StandsNext(vms: seq<Vm>, views: map<DonatableRegion, Region>, rsvd: seq<EphAllocation>, s: seq<Seen>,
                   t: seq<Seen>,
                   u: seq<Seen>, replies: nat -> Reply, now: Search, pieces: seq<Piece>, next: nat, lastPath: nat,
                   quiet: bool, v: nat, region: DonatableRegion, views': map<DonatableRegion, Region>, piece: Piece)
    requires Stands(vms, views, rsvd, s, t, replies, now, pieces, next, lastPath, quiet)
    requires v < |vms| && lastPath < vms[v].path == piece.vm && |now.kept| <= |rsvd|
    requires Fair(t, u, |now.kept|, piece.kept) && Balanced(piece.log, piece.kept)
    requires PieceOk(piece, |now.kept|, |rsvd|, replies)
    requires quiet ==> Gone(t) == Gone(s) && WalkedTo(vms, views, rsvd, Gone(s), replies, now, v, region)
    requires quiet ==> OnlyCommits(t, u, |now.kept|, piece.kept) && |now.kept| <= |rsvd| == |Gone(t)|
    requires quiet ==> region in now.views && Room(now.views[region])
    requires quiet ==> (Search(views', piece.log, piece.kept) ==
      Negotiate(piece.vm, region, now.views, rsvd, Gone(t), |now.kept|, replies(piece.vm)))
    ensures Stands(vms, views, rsvd, s, u, replies, Search(views', now.log + piece.log, now.kept + piece.kept),
                   pieces + [piece], v + 1, vms[v].path, quiet)
  {
    hide Fair, Balanced, Asked, Pieced, OnlyCommits, Walked, Gone, LastAsked, Negotiated, Negotiate, PieceOk;
    TurnAdds(vms, v, s, t, u, replies, now.log, now.kept, pieces, piece);
    if quiet {
      MoreCommits(s, t, u, 0, now.kept, piece.kept);
    }
  }

  lemma StandsLast(vms: seq<Vm>, R: set<DonatableRegion>, views: map<DonatableRegion, Region>, rsvd: seq<EphAllocation>,
                   s: seq<Seen>, t: seq<Seen>, replies: nat -> Reply, now: Search, pieces: seq<Piece>, next: nat,
                   lastPath: nat, quiet: bool)
    requires Stands(vms, views, rsvd, s, t, replies, now, pieces, next, lastPath, quiet) && now.views == Views(R)
    requires Regions(vms, R)
    requires |now.kept| >= |rsvd| || false in now.kept || NoRoom(vms, lastPath, |vms|)
    ensures lastPath == LastAsked(now.log) && Fair(s, t, 0, now.kept) && Balanced(now.log, now.kept)
    ensures Asked(now.log, vms, replies) && Pieced(pieces, now.log, now.kept, |rsvd|, replies)
    ensures quiet ==> OnlyCommits(s, t, 0, now.kept)
    ensures quiet ==> now == Walk(vms, Search(views, [], []), rsvd, Gone(s), replies)
  {
    hide Fair, Balanced, Asked, Pieced, OnlyCommits, Walked, Gone, LastAsked, Regions, NoRoom, Views, Walk;
    if quiet {
      WalkEnds(vms, R, views, rsvd, Gone(s), replies, now, next, lastPath);
    }
  }

  /** What one negotiation adds to the log, the commits and the pieces so far. */
  lemma TurnAdds(vms: seq<Vm>, v: nat, s: seq<Seen>, t: seq<Seen>, u: seq<Seen>, replies: nat -> Reply,
                 log: seq<Command>, kept: seq<bool>, pieces: seq<Piece>, piece: Piece)
    requires v < |vms| && LastAsked(log) < vms[v].path == piece.vm
    requires Fair(s, t, 0, kept) && Balanced(log, kept) && Asked(log, vms, replies)
    requires Pieced(pieces, log, kept, |s|, replies)
    requires Fair(t, u, |kept|, piece.kept) && Balanced(piece.log, piece.kept)
    requires PieceOk(piece, |kept|, |s|, replies)
    ensures Fair(s, u, 0, kept + piece.kept) && Balanced(log + piece.log, kept + piece.kept)
    ensures Asked(log + piece.log, vms, replies) && LastAsked(log + piece.log) == piece.vm
    ensures Pieced(pieces + [piece], log + piece.log, kept + piece.kept, |s|, replies)
  {
    hide Fair, Balanced, Asked, Pieced, Negotiated, LastAsked, PieceOk;
    PieceMeans(piece, |kept|, |s|, replies);
    FairMore(s, t, u, kept, piece.kept);
    BalancedMore(log, kept, piece.log, piece.kept);
    AskedMore(log, vms, replies, v, piece.asked, piece.owed, piece.log, piece.kept);
    OneMorePiece(pieces, log, kept, |s|, replies, piece);
  }

  ghost function TopPath(vms: seq<Vm>): nat {
    if vms == [] then 0 else vms[|vms| - 1].path
  }

  lemma PathsGrow(vms: seq<Vm>, v: nat)
    requires Ordered(vms) && v < |vms|
    ensures vms[v].path <= TopPath(vms)
  {
    assert v == |vms| - 1 || vms[v].path < vms[|vms| - 1].path;
  }

  ghost function FreeIn(R: set<DonatableRegion>, region: DonatableRegion): nat
    reads R, region
    requires AllValid(R) && region in R
  {
    region.size - region.donated
  }

  lemma AskedMost(R: set<DonatableRegion>, region: DonatableRegion, n: nat)
    requires AllValid(R) && region in R
    ensures AsksMost(AskFor(R, region, G * n), G * n, FreeIn(R, region))
  {
    ReserveTakesMost(region.View(), G * n);
    MissingOrFree(AskFor(R, region, G * n), n, FreeIn(R, region));
  }

  lemma MissingOrFree(asked: nat, n: nat, free: nat)
    requires Whole(asked) && asked <= G * n && asked <= free && (G * n - asked < G || free - asked < G)
    ensures AsksMost(asked, G * n, free)
  {
    Chunks(n);
    WholeArith(asked, G * n);
  }

  /** A region has room exactly if a chunk can be reserved from it. */
  lemma HasRoomIsAChunk(region: DonatableRegion)
    requires region.donated <= region.size
    ensures HasRoom(region) <==> ReserveBytes(region.View(), G) == G
  {
    RoomIsAChunk(region.View());
  }

  ghost function AskFor(R: set<DonatableRegion>, region: DonatableRegion, want: nat): nat
    reads R, region
    requires AllValid(R) && region in R
  {
    ReserveBytes(region.View(), want)
  }

  /** Only the last batch can hold refusals. */
  lemma RefusedLast(R: set<DonatableRegion>, rsvd: seq<EphAllocation>, kept: seq<bool>, kept': seq<bool>, accepts: bool)
    requires false !in kept && |kept| + |kept'| <= |rsvd| && (accepts ==> RefusedUnlisted(R, rsvd, |kept|, kept'))
    ensures accepts ==> RefusedUnlisted(R, rsvd, 0, kept + kept')
  {
    assert forall k :: 0 <= k < |kept| ==> kept[k];
    forall k, r | accepts && 0 <= k < |kept + kept'| && !(kept + kept')[k] && r in R
      ensures rsvd[k].id !in r.allocations
    {
      assert k >= |kept| && !kept'[k - |kept|];
      assert rsvd[|kept| + (k - |kept|)].id !in r.allocations;
    }
  }

  lemma NoBatch(vms: seq<Vm>, l: map<DonatableRegion, set<nat>>, s: seq<Seen>, i: int, q: DonatableRegion?,
                p: DonatableRegion?)
    requires Progress(vms, l, s, i, 0, q)
    ensures Progress(vms, l, s, i, 0, p)
  {
  }

  lemma StartsWaiting(vms: seq<Vm>, R: set<DonatableRegion>, rsvd: seq<EphAllocation>)
    requires forall a :: a in rsvd ==> Unbacked(R, a) && (a.state == PendingCommit || a.state == Abandoned)
    ensures Progress(vms, Lists(R), See(rsvd), 0, 0, null)
  {
    forall k | 0 <= k < |rsvd| ensures Waiting(Lists(R), See(rsvd)[k], null) {
    }
  }

  lemma EndState(vms: seq<Vm>, R: set<DonatableRegion>, rsvd: seq<EphAllocation>, i: nat)
    requires Progress(vms, Lists(R), See(rsvd), i, 0, null)
    ensures i <= |rsvd|
    ensures forall a :: a in rsvd[..i] ==> BackedBy(vms, R, a)
    ensures forall a :: a in rsvd[i..] ==> Unbacked(R, a)
  {
    hide Names;
    forall k | 0 <= k < |rsvd|
      ensures if k < i then Processed(vms, Lists(R), See(rsvd)[k]) else Waiting(Lists(R), See(rsvd)[k], null)
    {
    }
    assert forall r :: r in R ==> Lists(R)[r] == r.allocations.Keys;
    forall k | 0 <= k < |rsvd|
      ensures if k < i then BackedBy(vms, R, rsvd[k]) else Unbacked(R, rsvd[k])
    {
      SeeAt(rsvd, See(rsvd), k);
    }
  }
}
