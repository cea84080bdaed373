/**
 * The allocator of a consumer VM's dynamic-capacity device: areas of one chunk each, keyed by
 * offset, handed out by first fit and otherwise from the largest gap.
 */
module ConsumerSlots {
  import opened Granularity
  import opened Collections
  import opened Allocation

  // ---------------------------------------------------------------- free space

  /** `len` bytes at `o` lie in the device and touch no area. */
  ghost predicate Free(size: nat, areas: set<nat>, o: nat, len: nat) {
    o + len <= size && forall k :: k in areas ==> k + G <= o || o + len <= k
  }

  /** Areas start on chunk boundaries and end inside the device; so no two of them overlap. */
  ghost predicate AreasOk(size: nat, areas: set<nat>) {
    forall k :: k in areas ==> Whole(k) && k + G <= size
  }

  /** The chunk positions of the device. */
  function Slots(n: nat): (s: set<nat>)
    ensures |s| == n
    ensures forall x: nat :: x in s <==> Whole(x) && x < G * n
  {
    SlotStep(n);
    if n == 0 then {} else Slots(n - 1) + {G * (n - 1)}
  }

  lemma SlotStep(n: nat)
    ensures n > 0 ==> forall x: nat ::
      (Whole(x) && x < G * n) <==> (Whole(x) && x < G * (n - 1)) || x == G * (n - 1)
  {
    if n > 0 {
      Chunks(n - 1);
      forall x: nat | Whole(x) && x < G * n && !(x < G * (n - 1)) ensures x == G * (n - 1) {
        CountChunks(x);
      }
    }
  }

  /** A device never holds more areas than it has chunk positions. */
  lemma AreasFit(size: nat, areas: set<nat>)
    requires AreasOk(size, areas)
    ensures areas <= Slots(Count(size)) && |areas| <= Count(size)
  {
    forall k | k in areas ensures k in Slots(Count(size)) {
      CountChunks(size);
      CountChunks(k);
    }
    SubsetSize(areas, Slots(Count(size)));
  }

  /** If no chunk is free, every chunk position is taken. */
  lemma FullDevice(size: nat, areas: set<nat>)
    requires AreasOk(size, areas) && forall o: nat :: !Free(size, areas, o, G)
    ensures |areas| == Count(size)
  {
    AreasFit(size, areas);
    forall x | x in Slots(Count(size)) ensures x in areas {
      SlotTaken(size, areas, x);
    }
    assert areas == Slots(Count(size));
  }

  lemma SlotTaken(size: nat, areas: set<nat>, x: nat)
    requires AreasOk(size, areas) && !Free(size, areas, x, G) && Whole(x) && x < G * Count(size)
    ensures x in areas
  {
    CountChunks(size);
    WholeArith(x, G * Count(size));
    Chunks(Count(size));
    var k :| k in areas && !(k + G <= x || x + G <= k);
    WholeArith(x, k);
    WholeArith(k, x);
  }

  lemma WholeNext(x: nat)
    requires Whole(x)
    ensures Whole(x + G)
  {
  }

  // ---------------------------------------------------------------- the scan

  /** `(off, gap)` is the first of the largest gaps that start before `end`. */
  ghost predicate Best(size: nat, areas: set<nat>, end: nat, off: nat, gap: nat) {
    && Free(size, areas, off, gap) && Whole(off) && off <= end
    && (forall o: nat, len: nat :: Free(size, areas, o, len) && o < end && 0 < len ==> len <= gap)
    && (forall o: nat, len: nat :: Free(size, areas, o, len) && o < off && 0 < len ==> len < gap)
  }

  /** The scan stands at `end`: what comes before has been seen, and the next area starts at `next`. */
  ghost predicate At(size: nat, areas: set<nat>, end: nat, next: nat) {
    end <= next <= size && Whole(end) && (forall k :: k in areas ==> k + G <= end || next <= k) &&
    (next < size ==> next in areas)
  }

  lemma BestStep(size: nat, areas: set<nat>, end: nat, next: nat, off: nat, gap: nat)
    requires Best(size, areas, end, off, gap) && At(size, areas, end, next) && next in areas
    ensures if next - end > gap then Best(size, areas, next + G, end, next - end)
            else Best(size, areas, next + G, off, gap)
  {
    forall o: nat, len: nat | Free(size, areas, o, len) && o < next + G && 0 < len && end <= o
      ensures len <= next - end
    {
    }
  }

  /** A gap that is large enough when no earlier one was is the lowest fit. */
  lemma FirstFit(size: nat, areas: set<nat>, end: nat, next: nat, off: nat, gap: nat, want: nat)
    requires Best(size, areas, end, off, gap) && At(size, areas, end, next) && gap < want <= next - end
    ensures Free(size, areas, end, next - end) && Free(size, areas, end, want)
    ensures forall o: nat :: Free(size, areas, o, want) ==> end <= o
  {
  }

  lemma BestEnd(size: nat, areas: set<nat>, end: nat, off: nat, gap: nat)
    requires Best(size, areas, end, off, gap) && At(size, areas, end, size)
    ensures var (o', g') := if size - end > gap then (end, size - end) else (off, gap);
      Free(size, areas, o', g') && Whole(o') &&
      (forall o: nat, len: nat :: Free(size, areas, o, len) ==> len <= g') &&
      (forall o: nat, len: nat :: Free(size, areas, o, len) && o < o' && 0 < len ==> len < g')
  {
  }

  lemma AtKey(size: nat, areas: set<nat>, keys: seq<nat>, i: nat)
    requires AreasOk(size, areas) && StrictlyAscending(keys) && Elems(keys) == areas && i <= |keys|
    ensures At(size, areas, if i == 0 then 0 else keys[i - 1] + G, if i == |keys| then size else keys[i])
    ensures i < |keys| ==> keys[i] in areas
  {
    forall j | 0 <= j < |keys| ensures keys[j] in areas && Whole(keys[j]) && keys[j] + G <= size {
      assert keys[j] in Elems(keys);
    }
    if i > 0 {
      WholeNext(keys[i - 1]);
      if i < |keys| {
        WholeArith(keys[i - 1], keys[i]);
      }
    }
    forall k | k in areas ensures k + G <= (if i == 0 then 0 else keys[i - 1] + G) || (i < |keys| && keys[i] <= k) {
      var j :| 0 <= j < |keys| && keys[j] == k;
    }
  }

  /**
   * The scan of `reserve_memory_contig` over the areas in order. It returns the lowest gap of at
   * least `want` bytes if there is one, and otherwise the first of the largest gaps.
   */
  method FindGap(size: nat, areas: set<nat>, want: nat) returns (offset: nat, gap: nat)
    requires AreasOk(size, areas) && 0 < want
    ensures Free(size, areas, offset, gap) && Whole(offset)
    ensures want <= gap ==> forall o: nat :: Free(size, areas, o, want) ==> offset <= o
    ensures gap < want ==> forall o: nat, len: nat :: Free(size, areas, o, len) ==> len <= gap
    ensures gap < want ==> forall o: nat, len: nat :: Free(size, areas, o, len) && o < offset && 0 < len ==> len < gap
  {
    hide Whole, Best, At, Free, AreasOk, Ascending;
    var keys := Ascending(areas);
    var largestGap: nat, largestGapOffset: nat, lastRegionEnd: nat := 0, 0, 0;
    var firstRegion, brokeEarly := true, false;
    BestStart(size, areas);
    var i := 0;
    while i < |keys|
      invariant 0 <= i <= |keys| && firstRegion == (i == 0)
      invariant lastRegionEnd == if i == 0 then 0 else keys[i - 1] + G
      invariant largestGap < want && Best(size, areas, lastRegionEnd, largestGapOffset, largestGap)
      invariant firstRegion ==> largestGap == 0
    {
      var regionOffset := keys[i];
      AtKey(size, areas, keys, i);
      AtFacts(size, areas, lastRegionEnd, regionOffset);
      BestStep(size, areas, lastRegionEnd, regionOffset, largestGapOffset, largestGap);
      if want <= regionOffset - lastRegionEnd {
        FirstFit(size, areas, lastRegionEnd, regionOffset, largestGapOffset, largestGap, want);
      }
      if firstRegion {
        if regionOffset > 0 {
          largestGap, largestGapOffset := regionOffset, 0;
        }
        firstRegion := false;
      } else {
        var gapSize := regionOffset - lastRegionEnd;
        if gapSize > largestGap {
          largestGap, largestGapOffset := gapSize, lastRegionEnd;
        }
      }
      if largestGap >= want {
        brokeEarly := true;
        break;
      }
      lastRegionEnd := regionOffset + G;
      i := i + 1;
    }
    if !brokeEarly {
      AtKey(size, areas, keys, i);
      AtFacts(size, areas, lastRegionEnd, size);
      BestEnd(size, areas, lastRegionEnd, largestGapOffset, largestGap);
      if want <= size - lastRegionEnd {
        FirstFit(size, areas, lastRegionEnd, size, largestGapOffset, largestGap, want);
      }
    }
    var finalGap := size - lastRegionEnd;
    if finalGap > largestGap && !brokeEarly {
      largestGap, largestGapOffset := finalGap, lastRegionEnd;
    }
    offset, gap := largestGapOffset, largestGap;
  }

  lemma BestStart(size: nat, areas: set<nat>)
    requires AreasOk(size, areas)
    ensures Best(size, areas, 0, 0, 0)
  {
  }

  lemma AtFacts(size: nat, areas: set<nat>, end: nat, next: nat)
    requires At(size, areas, end, next)
    ensures end <= next <= size && Whole(end)
  {
  }

  // ---------------------------------------------------------------- reserving

  /** The offset of the `i`-th chunk of a run that begins at `start`. */
  function Slot(start: nat, i: nat): nat {
    start + G * i
  }

  /** The offsets of `n` consecutive chunks from `start`. */
  function Chunk(start: nat, n: nat): (s: set<nat>)
    ensures forall x :: x in s ==> start <= x && x + G <= start + G * n
    ensures |s| == n
  {
    if n == 0 then {} else Chunk(start, n - 1) + {Slot(start, n - 1)}
  }

  lemma {:induction false} WholeChunks(start: nat, n: nat)
    requires Whole(start)
    ensures forall x :: x in Chunk(start, n) ==> Whole(x)
  {
    if n > 0 {
      WholeChunks(start, n - 1);
      Chunks(n - 1);
      WholeArith(start, G * (n - 1));
    }
  }

  /** A run of chunks placed in free space keeps the areas in order and overwrites none. */
  lemma RunFits(size: nat, areas: set<nat>, start: nat, n: nat)
    requires AreasOk(size, areas) && Whole(start) && Free(size, areas, start, G * n)
    ensures Chunk(start, n) !! areas && AreasOk(size, areas + Chunk(start, n))
  {
    hide Whole;
    WholeChunks(start, n);
    forall x | x in Chunk(start, n) ensures x !in areas && x + G <= size {
    }
  }

  lemma FreeFits(size: nat, areas: set<nat>, o: nat, len: nat, short: nat)
    requires Free(size, areas, o, len) && short <= len
    ensures Free(size, areas, o, short)
  {
  }

  /** The process-wide source of allocation ids. */
  class IdCounter {
    var next: nat

    constructor ()
      ensures next == 1
    {
      next := 1;
    }
  }

  class ConsumerState {
    const vm: nat
    const size: nat
    var areas: map<nat, EphAllocation>

    constructor (vm: nat, size: nat)
      ensures this.vm == vm && this.size == size && areas == map[] && Valid()
    {
      this.vm, this.size, this.areas := vm, size, map[];
    }

    ghost predicate Valid()
      reads this
    {
      AreasOk(size, areas.Keys) && Filed(areas)
    }

    /** One turn of the insertion loop. */
    method PlaceNext(ids: IdCounter, allocs: seq<EphAllocation>, ghost start: nat, ghost firstId: nat, offset: nat)
      returns (more: seq<EphAllocation>)
      requires offset == Slot(start, |allocs|) && offset !in areas && ids.next == firstId + |allocs|
      requires NewRun(allocs, areas, vm, start, firstId)
      modifies this`areas, ids
      ensures |more| == |allocs| + 1 && allocs <= more && ids.next == firstId + |more|
      ensures more[|allocs|].consumerOffset == offset && areas == old(areas)[offset := more[|allocs|]]
      ensures fresh(more[|allocs|])
      ensures NewRun(more, areas, vm, start, firstId)
    {
      hide Slot;
      var alloc := new EphAllocation(ids.next, offset, vm);
      ids.next := ids.next + 1;
      areas := areas[offset := alloc];
      RunGrows(allocs, alloc, old(areas), areas, vm, start, firstId);
      more := allocs + [alloc];
    }

    /** The insertion loop: new allocations at `n` consecutive chunks. */
    method PlaceRun(ids: IdCounter, start: nat, n: nat) returns (allocs: seq<EphAllocation>)
      requires Valid() && Whole(start) && Free(size, areas.Keys, start, G * n)
      modifies this`areas, ids
      ensures Valid() && ids.next == old(ids.next) + n && |allocs| == n
      ensures forall k :: k in areas && k !in old(areas) ==> fresh(areas[k])
      ensures Extended(old(areas), areas, start, n) && old(areas).Keys !! Chunk(start, n)
      ensures NewRun(allocs, areas, vm, start, old(ids.next))
    {
      hide Whole, Free, Slot, Chunk, NewRun, Extended, Filed, AreasOk;
      ghost var was := areas;
      RunFits(size, areas.Keys, start, n);
      allocs := [];
      RunEmpty(allocs, areas, vm, start, ids.next);
      for i := 0 to n
        invariant ids.next == old(ids.next) + i && |allocs| == i
        invariant Extended(was, areas, start, i) && Filed(areas)
        invariant forall k :: k in areas && k !in old(areas) ==> fresh(areas[k])
        invariant NewRun(allocs, areas, vm, start, old(ids.next))
      {
        NextOffset(was, areas, start, i, n);
        ghost var before := areas;
        allocs := PlaceNext(ids, allocs, start, old(ids.next), Slot(start, i));
        ExtendedMore(was, before, start, i, allocs[i]);
      }
      ExtendedOk(size, was, areas, start, n);
    }

    /** `reserve_memory_contig`, one locked section. */
    method ReserveMemoryContig(ids: IdCounter, size: nat) returns (allocs: seq<EphAllocation>, ghost start: nat)
      requires Valid()
      modifies this`areas, ids
      ensures Valid() && ids.next == old(ids.next) + |allocs|
      ensures Wanted(this.size, size) == 0 ==> allocs == []
      ensures Wanted(this.size, size) > 0 ==>
        Round(this.size, old(areas).Keys, Wanted(this.size, size), start, |allocs|)
      ensures RoundMost(this.size, old(areas).Keys, size, start, |allocs|)
      ensures G * |allocs| <= size && G * |allocs| <= this.size
      ensures forall k: nat, o: nat ::
        Whole(k) && k <= size && Free(this.size, old(areas).Keys, o, k) ==> k <= G * |allocs|
      ensures Extended(old(areas), areas, start, |allocs|) && old(areas).Keys !! Chunk(start, |allocs|)
      ensures NewRun(allocs, areas, vm, start, old(ids.next))
      ensures forall k :: k in areas && k !in old(areas) ==> fresh(areas[k])
    {
      hide Whole, Count, Free, AreasOk, Filed, Extended, NewRun, Chunk, Round, RoundMost, AlignDown;
      ghost var was := areas.Keys;
      var want := AlignDown(if size > this.size then this.size else size);
      start := 0;
      if want == 0 {
        RunEmpty([], areas, vm, start, ids.next);
        ChunkEmpty(start);
        RoundIsMost(this.size, was, size, start, 0);
        return [], start;
      }
      // With no area at all, the source skips the scan; the answer is the scan's.
      if areas == map[] {
        EmptyDevice(this.size, areas.Keys, size);
        allocs := PlaceRun(ids, 0, Count(want));
        RoundIsMost(this.size, was, size, start, |allocs|);
        return;
      }
      var offset, gap := FindGap(this.size, areas.Keys, want);
      RoundOf(this.size, areas.Keys, size, offset, gap);
      start := offset;
      gap := AlignDown(gap);
      if gap == 0 {
        RunEmpty([], areas, vm, start, ids.next);
        ChunkEmpty(start);
        RoundIsMost(this.size, was, size, start, 0);
        return [], start;
      }
      var bytes := if gap < want then gap else want;
      allocs := PlaceRun(ids, offset, Count(bytes));
      RoundIsMost(this.size, was, size, start, |allocs|);
    }

    /** One turn of the loop of `reserve_memory`: the allocations so far, and the bytes still wanted. */
    method NextRound(ids: IdCounter, allocs: seq<EphAllocation>, remaining: nat, ghost size: nat, ghost used: nat,
                     ghost firstId: nat, ghost was: set<nat>)
      returns (more: seq<EphAllocation>, left: nat)
      requires Valid() && ids.next == firstId + |allocs| && NewAreas(allocs, areas, vm, firstId)
      requires Unmet(size, remaining, |allocs|) && remaining > 0 && |areas| == used + |allocs|
      requires Grown(was, areas.Keys, allocs)
      modifies this`areas, ids
      ensures Valid() && ids.next == firstId + |more| && NewAreas(more, areas, vm, firstId)
      ensures Unmet(size, left, |more|) && |areas| == used + |more| && Grown(was, areas.Keys, more)
      ensures forall k :: k in old(areas) ==> k in areas && areas[k] == old(areas[k])
      ensures left <= remaining && (forall k :: k in areas && k !in old(areas) ==> fresh(areas[k]))
      ensures left == remaining ==> |more| == Min(Count(size), SaturatingSub(Count(this.size), used))
    {
      hide Whole, Count, Free, AreasOk, Filed, Extended, NewRun, Chunk, Round, NewAreas, Wanted, Unmet,
        SaturatingSub, Min, Grown;
      ghost var before := areas;
      var rsvd;
      ghost var start;
      rsvd, start := ReserveMemoryContig(ids, remaining);
      RoundFits(this.size, before.Keys, size, remaining, start, rsvd, |allocs|);
      ExtendedSize(before, areas, start, |rsvd|);
      NewAreasMore(allocs, before, rsvd, areas, vm, start, firstId);
      GrownMore(was, before, areas, allocs, rsvd, vm, start, firstId);
      more := allocs + rsvd;
      left := remaining - |rsvd| * G;
      if |rsvd| == 0 {
        NothingLeft(this.size, before.Keys, size, remaining, start, |allocs|, used);
      }
    }

    /**
     * `reserve_memory` with no other request of this consumer in between: it reserves as many
     * chunks as were asked for and as were free, although each round sees only one gap.
     */
    method ReserveMemory(ids: IdCounter, size: nat) returns (allocs: seq<EphAllocation>)
      requires Valid()
      modifies this`areas, ids
      ensures Valid() && |allocs| == Min(Count(size), SaturatingSub(Count(this.size), |old(areas)|))
      ensures |areas| == |old(areas)| + |allocs|
      ensures forall k :: k in old(areas) ==> k in areas && areas[k] == old(areas[k])
      ensures NewAreas(allocs, areas, vm, old(ids.next)) && Grown(old(areas.Keys), areas.Keys, allocs)
      ensures forall k :: k in areas && k !in old(areas) ==> fresh(areas[k])
    {
      hide Whole, Count, AreasOk, Filed, NewAreas, Unmet, SaturatingSub, Min, Grown;
      ghost var was, firstId := areas, ids.next;
      allocs := [];
      var remaining: nat := size;
      NewAreasNone(allocs, areas, vm, firstId);
      NothingMetYet(size);
      NothingGrown(was.Keys);
      while remaining > 0
        invariant Valid() && ids.next == firstId + |allocs| && NewAreas(allocs, areas, vm, firstId)
        invariant Unmet(size, remaining, |allocs|) && |areas| == |was| + |allocs| && Grown(was.Keys, areas.Keys, allocs)
        invariant forall k :: k in was ==> k in areas && areas[k] == was[k]
        invariant forall k :: k in areas && k !in old(areas) ==> fresh(areas[k])
        decreases remaining
      {
        var before := remaining;
        allocs, remaining := NextRound(ids, allocs, remaining, size, |was|, firstId, was.Keys);
        if remaining == before {
          // The round found nothing.
          return;
        }
      }
      AllMet(this.size, areas.Keys, size, |allocs|, |was|);
    }
  }

  /** Every area is filed under the offset of its allocation. */
  ghost predicate Filed(areas: map<nat, EphAllocation>) {
    forall k :: k in areas ==> areas[k].consumerOffset == k
  }

  /** `now` is `was` with `n` chunks from `start` added and nothing overwritten. */
  ghost predicate Extended(was: map<nat, EphAllocation>, now: map<nat, EphAllocation>, start: nat, n: nat) {
    now.Keys == was.Keys + Chunk(start, n) && forall k :: k in was ==> now[k] == was[k]
  }

  lemma NextOffset(was: map<nat, EphAllocation>, now: map<nat, EphAllocation>, start: nat, i: nat, n: nat)
    requires i < n && was.Keys !! Chunk(start, n) && Extended(was, now, start, i)
    ensures Slot(start, i) !in now
  {
    hide Slot, Chunk;
    NextInRun(start, i, n);
  }

  lemma ExtendedMore(was: map<nat, EphAllocation>, now: map<nat, EphAllocation>, start: nat, i: nat, a: EphAllocation)
    requires Extended(was, now, start, i) && Slot(start, i) !in now && Filed(now) && a.consumerOffset == Slot(start, i)
    ensures Extended(was, now[Slot(start, i) := a], start, i + 1) && Filed(now[Slot(start, i) := a])
  {
    hide Slot, Chunk, Filed;
    NextInRun(start, i, i + 1);
    OneMoreKey(was, now, Chunk(start, i), Slot(start, i), a);
    FiledMore(now, Slot(start, i), a);
  }

  lemma OneMoreKey(was: map<nat, EphAllocation>, now: map<nat, EphAllocation>, run: set<nat>, o: nat, a: EphAllocation)
    requires now.Keys == was.Keys + run && o !in now && forall k :: k in was ==> now[k] == was[k]
    ensures now[o := a].Keys == was.Keys + (run + {o})
    ensures forall k :: k in was ==> now[o := a][k] == was[k]
  {
    assert now[o := a].Keys == now.Keys + {o};
    assert forall k :: k in was ==> k in was.Keys && k in now.Keys && k != o;
  }

  lemma FiledMore(now: map<nat, EphAllocation>, o: nat, a: EphAllocation)
    requires Filed(now) && a.consumerOffset == o
    ensures Filed(now[o := a])
  {
  }

  lemma ExtendedOk(size: nat, was: map<nat, EphAllocation>, now: map<nat, EphAllocation>, start: nat, n: nat)
    requires Extended(was, now, start, n) && AreasOk(size, was.Keys + Chunk(start, n))
    ensures AreasOk(size, now.Keys)
  {
  }

  ghost predicate NewAt(a: EphAllocation, vm: nat, offset: nat, id: nat)
    reads a
  {
    a.id == id && a.consumerOffset == offset && a.consumerVm == vm &&
    a.state == PendingCommit && a.donorInfo == None && !a.dcdSet && !a.releaseRequested
  }

  /** Untouched allocations with ascending ids, filed at consecutive chunks. */
  ghost predicate NewRun(allocs: seq<EphAllocation>, areas: map<nat, EphAllocation>, vm: nat, start: nat, firstId: nat)
    reads allocs
  {
    forall j :: 0 <= j < |allocs| ==>
      NewAt(allocs[j], vm, Slot(start, j), firstId + j) && Slot(start, j) in areas && areas[Slot(start, j)] == allocs[j]
  }

  lemma RunGrows(allocs: seq<EphAllocation>, alloc: EphAllocation, was: map<nat, EphAllocation>,
                 areas: map<nat, EphAllocation>, vm: nat, start: nat, firstId: nat)
    requires NewRun(allocs, was, vm, start, firstId) && NewAt(alloc, vm, Slot(start, |allocs|), firstId + |allocs|)
    requires Slot(start, |allocs|) !in was && areas == was[Slot(start, |allocs|) := alloc]
    ensures NewRun(allocs + [alloc], areas, vm, start, firstId) && alloc.consumerOffset == Slot(start, |allocs|)
  {
    hide Slot;
  }

  lemma RunEmpty(allocs: seq<EphAllocation>, areas: map<nat, EphAllocation>, vm: nat, start: nat, firstId: nat)
    requires allocs == []
    ensures Extended(areas, areas, start, 0) && NewRun(allocs, areas, vm, start, firstId)
  {
  }

  lemma NextInRun(start: nat, i: nat, n: nat)
    requires i < n
    ensures Slot(start, i) in Chunk(start, n) && Slot(start, i) !in Chunk(start, i)
    ensures Chunk(start, i + 1) == Chunk(start, i) + {Slot(start, i)}
  {
    InRun(start, i, n);
  }

  lemma {:induction false} InRun(start: nat, i: nat, n: nat)
    requires i < n
    ensures Slot(start, i) in Chunk(start, n)
  {
    if i < n - 1 {
      InRun(start, i, n - 1);
    }
  }

  // ---------------------------------------------------------------- one round

  /**
   * What one round gives for a clamped, aligned request of `want` bytes: the lowest place where
   * `want` bytes fit, and all of them; or, if they fit nowhere, all the chunks of the gap that
   * comes first among the largest.
   */
  ghost predicate Round(size: nat, areas: set<nat>, want: nat, start: nat, n: nat) {
    && Whole(start) && Free(size, areas, start, G * n)
    && ((exists o: nat :: Free(size, areas, o, want)) ==>
          n == Count(want) && forall o: nat :: Free(size, areas, o, want) ==> start <= o)
    && ((forall o: nat :: !Free(size, areas, o, want)) ==>
          exists gap: nat :: FirstLargest(size, areas, start, gap) && n == Count(gap))
  }

  ghost predicate FirstLargest(size: nat, areas: set<nat>, start: nat, gap: nat) {
    && Free(size, areas, start, gap)
    && (forall o: nat, len: nat :: Free(size, areas, o, len) ==> len <= gap)
    && (forall o: nat, len: nat :: Free(size, areas, o, len) && o < start && 0 < len ==> len < gap)
  }

  /**
   * One round, in terms of the request itself: no whole number of chunks that is asked for and
   * fits anywhere exceeds what is given. If nothing larger could have been asked for, the run is
   * at the lowest place where it fits; otherwise it fills the gap that comes first among the
   * largest.
   */
  ghost predicate RoundMost(deviceSize: nat, areas: set<nat>, size: nat, start: nat, n: nat) {
    && G * n <= size && G * n <= deviceSize
    && (forall k: nat, o: nat :: Whole(k) && k <= size && Free(deviceSize, areas, o, k) ==> k <= G * n)
    && (0 < n && (size - G * n < G || deviceSize - G * n < G) ==>
          forall o: nat :: Free(deviceSize, areas, o, G * n) ==> start <= o)
    && (G <= size - G * n && G <= deviceSize - G * n ==>
          exists gap: nat :: FirstLargest(deviceSize, areas, start, gap) && gap < G * n + G)
  }

  lemma RoundIsMost(deviceSize: nat, areas: set<nat>, size: nat, start: nat, n: nat)
    requires Wanted(deviceSize, size) == 0 ==> n == 0
    requires Wanted(deviceSize, size) > 0 ==> Round(deviceSize, areas, Wanted(deviceSize, size), start, n)
    ensures RoundMost(deviceSize, areas, size, start, n)
    ensures G * n <= size && G * n <= deviceSize
    ensures forall k: nat, o: nat :: Whole(k) && k <= size && Free(deviceSize, areas, o, k) ==> k <= G * n
  {
    var want := Wanted(deviceSize, size);
    WantedMost(deviceSize, size);
    if want > 0 {
      if o: nat :| Free(deviceSize, areas, o, want) {
        CountChunks(want);
        RoundFitted(deviceSize, areas, size, start, n, want);
      } else {
        var gap: nat :| FirstLargest(deviceSize, areas, start, gap) && n == Count(gap);
        RoundFilled(deviceSize, areas, size, start, n, want, gap);
      }
    }
  }

  /** The clamped request is the largest whole number of chunks that is asked for and that the device has. */
  lemma WantedMost(deviceSize: nat, size: nat)
    ensures var want := Wanted(deviceSize, size);
      && Whole(want) && want <= size && want <= deviceSize && (size - want < G || deviceSize - want < G)
    ensures forall k: nat :: Whole(k) && k <= size && k <= deviceSize ==> k <= Wanted(deviceSize, size)
  {
    var x := if size > deviceSize then deviceSize else size;
    CountChunks(x);
    forall k: nat | Whole(k) && k <= size && k <= deviceSize ensures k <= Wanted(deviceSize, size) {
      LargestWhole(k, x);
    }
  }

  lemma RoundFitted(deviceSize: nat, areas: set<nat>, size: nat, start: nat, n: nat, want: nat)
    requires want == G * n && want <= size && want <= deviceSize && (size - want < G || deviceSize - want < G)
    requires forall k: nat :: Whole(k) && k <= size && k <= deviceSize ==> k <= want
    requires forall o: nat :: Free(deviceSize, areas, o, want) ==> start <= o
    ensures RoundMost(deviceSize, areas, size, start, n)
  {
    hide Whole;
  }

  lemma RoundFilled(deviceSize: nat, areas: set<nat>, size: nat, start: nat, n: nat, want: nat, gap: nat)
    requires Whole(want) && want <= size && want <= deviceSize && FirstLargest(deviceSize, areas, start, gap)
    requires n == Count(gap) && forall o: nat :: !Free(deviceSize, areas, o, want)
    ensures RoundMost(deviceSize, areas, size, start, n)
  {
    CountChunks(gap);
    Chunks(n);
    if gap >= want {
      FreeFits(deviceSize, areas, start, gap, want);
    }
    assert gap < want;
    WholeArith(G * n, want);
    forall k: nat, o: nat | Whole(k) && k <= size && Free(deviceSize, areas, o, k) ensures k <= G * n {
      LargestWhole(k, gap);
    }
  }

  /** `reserve_memory_contig`'s clamp to the device size and to whole chunks. */
  function Wanted(deviceSize: nat, size: nat): nat {
    AlignDown(if size > deviceSize then deviceSize else size)
  }

  lemma ChunkEmpty(start: nat)
    ensures Chunk(start, 0) == {}
  {
  }

  lemma EmptyDevice(deviceSize: nat, areas: set<nat>, size: nat)
    requires areas == {} && Wanted(deviceSize, size) > 0
    ensures Whole(0) && Free(deviceSize, areas, 0, G * Count(Wanted(deviceSize, size)))
    ensures Round(deviceSize, areas, Wanted(deviceSize, size), 0, Count(Wanted(deviceSize, size)))
  {
    Chunks(0);
    CountChunks(if size > deviceSize then deviceSize else size);
    CountChunks(Wanted(deviceSize, size));
    assert Free(deviceSize, areas, 0, Wanted(deviceSize, size));
  }

  lemma RoundOf(deviceSize: nat, areas: set<nat>, size: nat, offset: nat, gap: nat)
    requires Wanted(deviceSize, size) > 0 && Free(deviceSize, areas, offset, gap) && Whole(offset)
    requires var want := Wanted(deviceSize, size);
      && (want <= gap ==> forall o: nat :: Free(deviceSize, areas, o, want) ==> offset <= o)
      && (gap < want ==> FirstLargest(deviceSize, areas, offset, gap))
    ensures var want := Wanted(deviceSize, size);
      var n := Count(if AlignDown(gap) < want then AlignDown(gap) else want);
      && Round(deviceSize, areas, want, offset, n) && Free(deviceSize, areas, offset, G * n)
      && (AlignDown(gap) == 0 ==> n == 0)
  {
    var want := Wanted(deviceSize, size);
    WantedWhole(deviceSize, size);
    GapChunks(gap, want);
    hide Whole, Count, AlignDown, Wanted;
    var n := Count(if AlignDown(gap) < want then AlignDown(gap) else want);
    FreeFits(deviceSize, areas, offset, gap, G * n);
    if want <= gap {
      FreeFits(deviceSize, areas, offset, gap, want);
    }
  }

  lemma WantedWhole(deviceSize: nat, size: nat)
    ensures Whole(Wanted(deviceSize, size)) && Wanted(deviceSize, size) <= size
    ensures Wanted(deviceSize, size) <= deviceSize
  {
    CountChunks(if size > deviceSize then deviceSize else size);
  }

  lemma GapChunks(gap: nat, want: nat)
    requires Whole(want) && want > 0
    ensures var n := Count(if AlignDown(gap) < want then AlignDown(gap) else want);
      && G * n <= gap && (AlignDown(gap) < want <==> gap < want)
      && (want <= gap ==> n == Count(want)) && (gap < want ==> n == Count(gap)) && (AlignDown(gap) == 0 ==> n == 0)
  {
    CountChunks(gap);
    CountChunks(want);
  }

  // ---------------------------------------------------------------- all rounds together

  /** Untouched allocations with ids of their own, each filed at its offset. */
  ghost predicate NewAreas(allocs: seq<EphAllocation>, areas: map<nat, EphAllocation>, vm: nat, firstId: nat)
    reads allocs
  {
    forall j :: 0 <= j < |allocs| ==>
      NewAt(allocs[j], vm, allocs[j].consumerOffset, firstId + j) &&
      allocs[j].consumerOffset in areas && areas[allocs[j].consumerOffset] == allocs[j]
  }

  lemma NewAreasNone(allocs: seq<EphAllocation>, areas: map<nat, EphAllocation>, vm: nat, firstId: nat)
    requires allocs == []
    ensures NewAreas(allocs, areas, vm, firstId)
  {
  }

  lemma NewAreasMore(allocs: seq<EphAllocation>, was: map<nat, EphAllocation>, rsvd: seq<EphAllocation>,
                     areas: map<nat, EphAllocation>, vm: nat, start: nat, firstId: nat)
    requires NewAreas(allocs, was, vm, firstId) && NewRun(rsvd, areas, vm, start, firstId + |allocs|)
    requires Extended(was, areas, start, |rsvd|)
    ensures NewAreas(allocs + rsvd, areas, vm, firstId)
    ensures forall k :: k in was ==> k in areas && areas[k] == was[k]
  {
    hide Slot, Chunk;
    forall j | 0 <= j < |rsvd|
      ensures NewAt(rsvd[j], vm, rsvd[j].consumerOffset, firstId + |allocs| + j) &&
              rsvd[j].consumerOffset in areas && areas[rsvd[j].consumerOffset] == rsvd[j]
    {
      assert NewAt(rsvd[j], vm, Slot(start, j), firstId + |allocs| + j);
    }
  }

  function OffsetsOf(allocs: seq<EphAllocation>): set<nat> {
    set a | a in allocs :: a.consumerOffset
  }

  /** The areas are those of before and the new ones, none of which was there. */
  ghost predicate Grown(was: set<nat>, now: set<nat>, allocs: seq<EphAllocation>) {
    now == was + OffsetsOf(allocs) && was !! OffsetsOf(allocs)
  }

  lemma NothingGrown(was: set<nat>)
    ensures Grown(was, was, [])
  {
  }

  lemma GrownMore(was: set<nat>, before: map<nat, EphAllocation>, areas: map<nat, EphAllocation>,
                  allocs: seq<EphAllocation>, rsvd: seq<EphAllocation>, vm: nat, start: nat, firstId: nat)
    requires Grown(was, before.Keys, allocs) && NewRun(rsvd, areas, vm, start, firstId + |allocs|)
    requires Extended(before, areas, start, |rsvd|) && before.Keys !! Chunk(start, |rsvd|)
    ensures Grown(was, areas.Keys, allocs + rsvd)
  {
    hide Chunk, Slot, NewRun, OffsetsOf;
    RunOffsets(rsvd, areas, vm, start, firstId + |allocs|);
    OffsetsSum(allocs, rsvd);
  }

  lemma OffsetsSum(a: seq<EphAllocation>, b: seq<EphAllocation>)
    ensures OffsetsOf(a + b) == OffsetsOf(a) + OffsetsOf(b)
  {
  }

  lemma RunOffsets(rsvd: seq<EphAllocation>, areas: map<nat, EphAllocation>, vm: nat, start: nat, firstId: nat)
    requires NewRun(rsvd, areas, vm, start, firstId)
    ensures OffsetsOf(rsvd) == Chunk(start, |rsvd|)
  {
    hide Chunk, Slot;
    forall j | 0 <= j < |rsvd| ensures rsvd[j].consumerOffset == Slot(start, j) {
      assert NewAt(rsvd[j], vm, Slot(start, j), firstId + j);
    }
    SlotOffsets(rsvd, start);
  }

  lemma {:induction false} SlotOffsets(rsvd: seq<EphAllocation>, start: nat)
    requires forall j :: 0 <= j < |rsvd| ==> rsvd[j].consumerOffset == Slot(start, j)
    ensures OffsetsOf(rsvd) == Chunk(start, |rsvd|)
  {
    hide Slot, OffsetsOf;
    OneOffset(rsvd);
    if rsvd != [] {
      var n := |rsvd| - 1;
      SlotOffsets(rsvd[..n], start);
      OffsetsSum(rsvd[..n], [rsvd[n]]);
      OneOffset([rsvd[n]]);
      assert rsvd == rsvd[..n] + [rsvd[n]];
    }
  }

  lemma OneOffset(a: seq<EphAllocation>)
    ensures |a| == 0 ==> OffsetsOf(a) == {}
    ensures |a| == 1 ==> OffsetsOf(a) == {a[0].consumerOffset}
  {
  }

  lemma ExtendedSize(was: map<nat, EphAllocation>, now: map<nat, EphAllocation>, start: nat, n: nat)
    requires Extended(was, now, start, n) && was.Keys !! Chunk(start, n)
    ensures |now| == |was| + n
  {
    hide Chunk;
    assert |now.Keys| == |was.Keys| + |Chunk(start, n)|;
  }

  /** After `given` chunks, `remaining` bytes of the request are unmet. */
  ghost predicate Unmet(size: nat, remaining: nat, given: nat) {
    remaining == size - G * given
  }

  lemma NothingMetYet(size: nat)
    ensures Unmet(size, size, 0)
  {
  }

  lemma AllMet(deviceSize: nat, areas: set<nat>, size: nat, given: nat, used: nat)
    requires AreasOk(deviceSize, areas) && |areas| == used + given && Unmet(size, 0, given)
    ensures given == Min(Count(size), SaturatingSub(Count(deviceSize), used))
  {
    AreasFit(deviceSize, areas);
    Chunks(given);
  }

  /** `remaining_size` never underflows: a round gives no more than it was asked for. */
  lemma RoundFits(deviceSize: nat, areas: set<nat>, size: nat, remaining: nat, start: nat, rsvd: seq<EphAllocation>,
                  given: nat)
    requires Wanted(deviceSize, remaining) == 0 ==> rsvd == []
    requires Wanted(deviceSize, remaining) > 0 ==>
      Round(deviceSize, areas, Wanted(deviceSize, remaining), start, |rsvd|)
    requires Unmet(size, remaining, given)
    ensures G * |rsvd| <= remaining && Unmet(size, remaining - G * |rsvd|, given + |rsvd|)
  {
    RoundSize(deviceSize, areas, remaining, start, |rsvd|);
  }

  lemma RoundSize(deviceSize: nat, areas: set<nat>, remaining: nat, start: nat, n: nat)
    requires Wanted(deviceSize, remaining) == 0 ==> n == 0
    requires Wanted(deviceSize, remaining) > 0 ==> Round(deviceSize, areas, Wanted(deviceSize, remaining), start, n)
    ensures G * n <= remaining
  {
    var want := Wanted(deviceSize, remaining);
    if want > 0 {
      WantedWhole(deviceSize, remaining);
      CountChunks(want);
      if forall o: nat :: !Free(deviceSize, areas, o, want) {
        var gap: nat :| FirstLargest(deviceSize, areas, start, gap) && n == Count(gap);
        CountChunks(gap);
        assert !Free(deviceSize, areas, start, want);
      }
    }
  }

  lemma RoundBudget(size: nat, remaining: nat, given: nat)
    requires remaining == size - G * given
    ensures given <= Count(size) && (remaining == 0 ==> given == Count(size))
  {
    CountChunks(size);
  }

  /** A round that gives nothing leaves nothing to give, or nothing to ask for. */
  lemma NothingLeft(deviceSize: nat, areas: set<nat>, size: nat, remaining: nat, start: nat, given: nat, used: nat)
    requires AreasOk(deviceSize, areas) && |areas| == used + given && Unmet(size, remaining, given) && remaining > 0
    requires Wanted(deviceSize, remaining) > 0 ==> Round(deviceSize, areas, Wanted(deviceSize, remaining), start, 0)
    ensures given == Min(Count(size), SaturatingSub(Count(deviceSize), used))
  {
    var want := Wanted(deviceSize, remaining);
    AreasFit(deviceSize, areas);
    RoundBudget(size, remaining, given);
    if want == 0 {
      NothingWanted(deviceSize, size, remaining, given);
    } else {
      NoChunkFree(deviceSize, areas, remaining, start);
      FullDevice(deviceSize, areas);
    }
  }

  lemma NothingWanted(deviceSize: nat, size: nat, remaining: nat, given: nat)
    requires Wanted(deviceSize, remaining) == 0 && remaining == size - G * given
    ensures Count(deviceSize) == 0 || given == Count(size)
  {
  }

  lemma NoChunkFree(deviceSize: nat, areas: set<nat>, remaining: nat, start: nat)
    requires Wanted(deviceSize, remaining) > 0
    requires Round(deviceSize, areas, Wanted(deviceSize, remaining), start, 0)
    ensures forall o: nat :: !Free(deviceSize, areas, o, G)
  {
    var want := Wanted(deviceSize, remaining);
    WantedWhole(deviceSize, remaining);
    CountChunks(want);
    var gap: nat :| FirstLargest(deviceSize, areas, start, gap) && 0 == Count(gap);
    CountChunks(gap);
  }
}
