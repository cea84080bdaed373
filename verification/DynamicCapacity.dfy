/**
 * Dynamic-capacity events of a consumer VM: which areas an extent covers, how an added extent is
 * split into known areas and gaps, and who tells the device to give capacity back.
 */
module DynamicCapacity {
  import opened Granularity
  import opened Collections
  import opened Allocation
  import opened ConsumerSlots

  datatype Extent = Extent(offset: nat, len: nat) {
    function End(): nat { offset + len }

    predicate Has(x: nat) { offset <= x < End() }

    /** The chunk at `o` lies inside the extent. */
    predicate Covers(o: nat) { offset <= o && o + G <= End() }
  }

  /** What the lock sections read and write of one area: the two write-once flags. */
  datatype Flags = Flags(added: bool, released: bool)

  // ---------------------------------------------------------------- splitting an extent

  ghost function Covered(areas: set<nat>, e: Extent): set<nat> {
    set k | k in areas && e.Covers(k)
  }

  /** Walks the covered areas in order and collects what lies between them. */
  function Gaps(keys: seq<nat>, cursor: nat, end: nat): seq<Extent> {
    if keys == [] then
      (if cursor < end then [Extent(cursor, end - cursor)] else [])
    else
      (if cursor < keys[0] then [Extent(cursor, keys[0] - cursor)] else []) + Gaps(keys[1..], keys[0] + G, end)
  }

  /** Areas in order, chunk-aligned, between `cursor` and `end`. */
  ghost predicate Spaced(keys: seq<nat>, cursor: nat, end: nat) {
    if keys == [] then cursor <= end else cursor <= keys[0] && Spaced(keys[1..], keys[0] + G, end)
  }

  predicate InArea(keys: seq<nat>, x: nat) {
    exists k :: k in keys && k <= x < k + G
  }

  predicate InGap(gaps: seq<Extent>, x: nat) {
    exists g :: g in gaps && g.Has(x)
  }

  /** The covered areas and the gaps tile the extent: every byte is in exactly one of the two. */
  lemma {:induction false} GapsTile(keys: seq<nat>, cursor: nat, end: nat, x: nat)
    requires Spaced(keys, cursor, end)
    ensures InGap(Gaps(keys, cursor, end), x) <==> cursor <= x < end && !InArea(keys, x)
    ensures InArea(keys, x) ==> cursor <= x < end
  {
    var gaps := Gaps(keys, cursor, end);
    if keys == [] {
      assert cursor < end ==> Extent(cursor, end - cursor) in gaps;
    } else {
      var rest := Gaps(keys[1..], keys[0] + G, end);
      var head: seq<Extent> := if cursor < keys[0] then [Extent(cursor, keys[0] - cursor)] else [];
      GapsTile(keys[1..], keys[0] + G, end, x);
      SpacedEnd(keys[1..], keys[0] + G, end);
      assert gaps == head + rest;
      assert InGap(gaps, x) <==> InGap(head, x) || InGap(rest, x);
      assert InGap(head, x) <==> cursor <= x < keys[0] by {
        assert cursor < keys[0] ==> head[0] in head;
      }
      InAreaSplit(keys, x);
    }
  }

  lemma InAreaSplit(keys: seq<nat>, x: nat)
    requires keys != []
    ensures InArea(keys, x) <==> (keys[0] <= x < keys[0] + G || InArea(keys[1..], x))
  {
    assert keys == [keys[0]] + keys[1..];
    if InArea(keys[1..], x) {
      var k :| k in keys[1..] && k <= x < k + G;
      assert k in keys;
    }
    assert keys[0] in keys;
  }

  lemma {:induction false} SpacedEnd(keys: seq<nat>, cursor: nat, end: nat)
    requires Spaced(keys, cursor, end)
    ensures cursor <= end
  {
    if keys != [] {
      SpacedEnd(keys[1..], keys[0] + G, end);
    }
  }

  /** No gap is empty, and all lie between `from` and `to`. */
  ghost predicate Within(gaps: seq<Extent>, from: nat, to: nat) {
    forall i :: 0 <= i < |gaps| ==> 0 < gaps[i].len && from <= gaps[i].offset && gaps[i].End() <= to
  }

  /** Each gap lies before the next, with at least one area in between. */
  ghost predicate Separated(gaps: seq<Extent>) {
    forall i, j :: 0 <= i < j < |gaps| ==> gaps[i].End() + G <= gaps[j].offset
  }

  lemma {:induction false} GapsInOrder(keys: seq<nat>, cursor: nat, end: nat)
    requires Spaced(keys, cursor, end)
    ensures Within(Gaps(keys, cursor, end), cursor, end) && Separated(Gaps(keys, cursor, end))
  {
    hide Within, Separated;
    if keys == [] {
      LastGap(cursor, end);
    } else {
      SpacedEnd(keys[1..], keys[0] + G, end);
      GapsInOrder(keys[1..], keys[0] + G, end);
      var rest := Gaps(keys[1..], keys[0] + G, end);
      if cursor < keys[0] {
        HeadGap(Extent(cursor, keys[0] - cursor), rest, end);
      } else {
        assert Gaps(keys, cursor, end) == rest;
        NoHead(rest, cursor, end);
      }
    }
  }

  lemma LastGap(cursor: nat, end: nat)
    requires cursor <= end
    ensures Within(Gaps([], cursor, end), cursor, end) && Separated(Gaps([], cursor, end))
  {
  }

  lemma NoHead(rest: seq<Extent>, cursor: nat, end: nat)
    requires Within(rest, cursor + G, end)
    ensures Within(rest, cursor, end)
  {
  }

  lemma HeadGap(g: Extent, rest: seq<Extent>, end: nat)
    requires 0 < g.len && Within(rest, g.End() + G, end) && Separated(rest) && g.End() <= end
    ensures Within([g] + rest, g.offset, end) && Separated([g] + rest)
  {
    forall i | 0 < i < |[g] + rest| ensures ([g] + rest)[i] == rest[i - 1] {
    }
  }

  /** Each gap begins where the extent or an area lets it begin, and ends likewise. */
  lemma {:induction false} GapsAreMaximal(keys: seq<nat>, cursor: nat, end: nat, g: Extent)
    requires Spaced(keys, cursor, end) && g in Gaps(keys, cursor, end)
    ensures g.offset == cursor || (exists k :: k in keys && k + G == g.offset)
    ensures g.End() == end || g.End() in keys
  {
    if keys != [] {
      assert keys == [keys[0]] + keys[1..];
      if g in Gaps(keys[1..], keys[0] + G, end) {
        GapsAreMaximal(keys[1..], keys[0] + G, end, g);
        assert keys[0] in keys;
        if k :| k in keys[1..] && k + G == g.offset {
          assert k in keys;
        }
      }
    }
  }

  // ---------------------------------------------------------------- the covered areas

  /** The areas that the extent covers, in order. */
  function CoveredKeys(keys: seq<nat>, e: Extent): seq<nat> {
    if keys == [] then []
    else (if e.Covers(keys[0]) then [keys[0]] else []) + CoveredKeys(keys[1..], e)
  }

  /** Ascending chunk boundaries. */
  ghost predicate ChunkKeys(keys: seq<nat>) {
    StrictlyAscending(keys) && forall k :: k in keys ==> Whole(k)
  }

  lemma {:induction false} CoveredKeysAre(keys: seq<nat>, e: Extent)
    ensures forall k :: k in CoveredKeys(keys, e) <==> k in keys && e.Covers(k)
  {
    if keys != [] {
      CoveredKeysAre(keys[1..], e);
      assert keys == [keys[0]] + keys[1..];
    }
  }

  lemma {:induction false} CoveredKeysSpaced(keys: seq<nat>, e: Extent, cursor: nat)
    requires ChunkKeys(keys) && e.offset <= cursor <= e.End()
    requires forall k :: k in keys && e.Covers(k) ==> cursor <= k
    ensures Spaced(CoveredKeys(keys, e), cursor, e.End())
  {
    if keys != [] {
      var rest := keys[1..];
      assert keys == [keys[0]] + rest;
      if e.Covers(keys[0]) {
        forall k | k in rest ensures keys[0] + G <= k {
          WholeArith(keys[0], k);
        }
        CoveredKeysSpaced(rest, e, keys[0] + G);
        var c := CoveredKeys(keys, e);
        assert c == [keys[0]] + CoveredKeys(rest, e);
        assert c[1..] == CoveredKeys(rest, e);
      } else {
        CoveredKeysSpaced(rest, e, cursor);
        assert CoveredKeys(keys, e) == CoveredKeys(rest, e);
      }
    }
  }

  /** The gaps reported for one added extent. */
  function ExtentGaps(areas: set<nat>, e: Extent): seq<Extent> {
    Gaps(CoveredKeys(Ascending(areas), e), e.offset, e.End())
  }

  lemma KeysAreChunks(size: nat, areas: set<nat>)
    requires AreasOk(size, areas)
    ensures ChunkKeys(Ascending(areas)) && Elems(Ascending(areas)) == areas
  {
    hide Ascending, Whole;
    assert forall k :: k in Ascending(areas) ==> k in Elems(Ascending(areas));
  }

  /**
   * Tiling. The covered areas and the reported gaps are disjoint and make up the extent; the gaps
   * are nonempty, in order, and reach as far as the extent and the covered areas allow.
   */
  lemma AddedExtentIsTiled(size: nat, areas: set<nat>, e: Extent)
    requires AreasOk(size, areas)
    ensures var gaps := ExtentGaps(areas, e);
      && (forall x: nat :: InGap(gaps, x) <==> e.Has(x) && !exists k :: k in Covered(areas, e) && k <= x < k + G)
      && (forall k, x: nat :: k in Covered(areas, e) && k <= x < k + G ==> e.Has(x))
      && Within(gaps, e.offset, e.End()) && Separated(gaps)
      && (forall g :: g in gaps ==> g.offset == e.offset || exists k :: k in Covered(areas, e) && k + G == g.offset)
      && (forall g :: g in gaps ==> g.End() == e.End() || g.End() in Covered(areas, e))
  {
    hide Ascending, Gaps, InGap, Whole;
    var keys := Ascending(areas);
    var c := CoveredKeys(keys, e);
    KeysAreChunks(size, areas);
    CoveredKeysAre(keys, e);
    assert forall k :: k in c <==> k in Covered(areas, e) by {
      assert forall k :: k in keys <==> k in Elems(keys);
    }
    CoveredKeysSpaced(keys, e, e.offset);
    GapsInOrder(c, e.offset, e.End());
    forall x: nat
      ensures InGap(ExtentGaps(areas, e), x) <==> e.Has(x) && !exists k :: k in Covered(areas, e) && k <= x < k + G
    {
      GapsTile(c, e.offset, e.End(), x);
      assert InArea(c, x) <==> exists k :: k in Covered(areas, e) && k <= x < k + G;
    }
    forall g | g in ExtentGaps(areas, e)
      ensures (g.offset == e.offset || exists k :: k in Covered(areas, e) && k + G == g.offset) &&
              (g.End() == e.End() || g.End() in Covered(areas, e))
    {
      GapsAreMaximal(c, e.offset, e.End(), g);
    }
  }

  /**
   * When the extent is chunk-aligned, a byte of it lies in a gap exactly if no area at all,
   * covered or not, holds it: the gaps are the unallocated runs.
   */
  lemma AlignedGapsAreUnallocated(size: nat, areas: set<nat>, e: Extent, x: nat)
    requires AreasOk(size, areas) && Whole(e.offset) && Whole(e.len)
    ensures InGap(ExtentGaps(areas, e), x) <==> e.Has(x) && forall k :: k in areas ==> !(k <= x < k + G)
  {
    hide ExtentGaps, InGap, Whole;
    AddedExtentIsTiled(size, areas, e);
    forall k | k in areas && k <= x < k + G && e.Has(x) ensures k in Covered(areas, e) {
      AlignedCover(e, k, x);
    }
  }

  lemma AlignedCover(e: Extent, k: nat, x: nat)
    requires Whole(e.offset) && Whole(e.len) && Whole(k) && k <= x < k + G && e.Has(x)
    ensures e.Covers(k)
  {
    hide Whole;
    WholeArith(e.offset, e.len);
    WholeArith(e.offset, k);
    WholeArith(k, e.offset);
    WholeArith(k, e.End());
  }

  // ---------------------------------------------------------------- the locked sections, on the flags

  /** `signal_add_dc` for one extent: the covered areas are marked as added. */
  function MarkAdded(m: map<nat, Flags>, e: Extent): map<nat, Flags> {
    map k | k in m :: if e.Covers(k) then m[k].(added := true) else m[k]
  }

  /**
   * `release_reserved_memory` for one offset. Only the first caller proceeds; an area not yet
   * added is dropped at once, an added one needs a release command (the flag in the result).
   */
  function ReleaseOne(m: map<nat, Flags>, o: nat): (map<nat, Flags>, bool) {
    if o !in m || m[o].released then (m, false)
    else if !m[o].added then (m - {o}, false)
    else (m[o := m[o].(released := true)], true)
  }

  /** The same for a list of offsets: the areas afterwards and the offsets to command. */
  function ReleaseMany(m: map<nat, Flags>, offsets: seq<nat>): (map<nat, Flags>, seq<nat>) {
    if offsets == [] then (m, [])
    else
      var n := |offsets| - 1;
      var (before, commanded) := ReleaseMany(m, offsets[..n]);
      var (after, command) := ReleaseOne(before, offsets[n]);
      (after, if command then commanded + [offsets[n]] else commanded)
  }

  ghost function FlagsOf(areas: map<nat, EphAllocation>): map<nat, Flags>
    reads areas.Values
  {
    map k | k in areas :: Flags(areas[k].dcdSet, areas[k].releaseRequested)
  }

  /** `find_covered_allocations`: all covered areas, in order. */
  method FindCovered(c: ConsumerState, e: Extent) returns (covered: seq<EphAllocation>)
    ensures FiledAt(c.areas, covered, CoveredKeys(Ascending(c.areas.Keys), e))
  {
    hide Ascending, FiledAt;
    covered := [];
    ghost var keys := [];
    var order := Ascending(c.areas.Keys);
    NoneFiled(c.areas);
    assert order[0..] == order;
    for i := 0 to |order|
      invariant keys + CoveredKeys(order[i..], e) == CoveredKeys(order, e)
      invariant FiledAt(c.areas, covered, keys)
    {
      assert order[i] in Elems(order);
      CoveredNext(order, i, keys, e);
      if e.offset <= order[i] && order[i] + G <= e.offset + e.len {
        OneMoreFiled(c.areas, covered, keys, order[i]);
        covered, keys := covered + [c.areas[order[i]]], keys + [order[i]];
      }
    }
    assert order[|order|..] == [];
    assert keys == CoveredKeys(order, e);
  }

  ghost predicate FiledAt(areas: map<nat, EphAllocation>, allocs: seq<EphAllocation>, keys: seq<nat>) {
    |allocs| == |keys| && forall i :: 0 <= i < |keys| ==> keys[i] in areas && areas[keys[i]] == allocs[i]
  }

  lemma NoneFiled(areas: map<nat, EphAllocation>)
    ensures FiledAt(areas, [], [])
  {
  }

  lemma OneMoreFiled(areas: map<nat, EphAllocation>, allocs: seq<EphAllocation>, keys: seq<nat>, k: nat)
    requires FiledAt(areas, allocs, keys) && k in areas
    ensures FiledAt(areas, allocs + [areas[k]], keys + [k])
  {
  }

  lemma CoveredNext(order: seq<nat>, i: nat, keys: seq<nat>, e: Extent)
    requires i < |order|
    ensures keys + CoveredKeys(order[i..], e) ==
      (if e.Covers(order[i]) then keys + [order[i]] else keys) + CoveredKeys(order[i + 1..], e)
  {
    assert order[i..][1..] == order[i + 1..];
    assert CoveredKeys(order[i..], e) ==
      (if e.Covers(order[i]) then [order[i]] else []) + CoveredKeys(order[i + 1..], e);
  }

  /** The body of `signal_add_dc` for one extent, returning the gaps it notes. */
  method SignalAddOne(c: ConsumerState, e: Extent) returns (gaps: seq<Extent>)
    requires Filed(c.areas)
    modifies c.areas.Values`dcdSet
    ensures gaps == ExtentGaps(c.areas.Keys, e)
    ensures FlagsOf(c.areas) == MarkAdded(old(FlagsOf(c.areas)), e)
  {
    hide Ascending, CoveredKeys, Gaps, Filed, FiledAt, FlagsOf, MarkKeys, MarkAdded, GapsSoFar;
    ghost var keys := CoveredKeys(Ascending(c.areas.Keys), e);
    var covered := FindCovered(c, e);
    FiledSize(c.areas, covered, keys);
    ghost var was := FlagsOf(c.areas);
    NoneMarked(was);
    FlagKeys(c.areas);
    MarkedAll(was, e);
    gaps := [];
    var gapCursor: nat := e.offset;
    assert keys[..0] == [];
    GapsBegin(keys, e);
    for i := 0 to |covered|
      invariant GapsSoFar(gaps, keys, i, gapCursor, e)
      invariant FlagsOf(c.areas) == MarkKeys(was, keys[..i])
    {
      FiledEntry(c.areas, covered, keys, i);
      MarkOne(c, covered[i]);
      MarkNext(was, keys, i);
      GapsNext(gaps, keys, i, gapCursor, e);
      if gapCursor < covered[i].consumerOffset {
        gaps := gaps + [Extent(gapCursor, covered[i].consumerOffset - gapCursor)];
      }
      gapCursor := covered[i].consumerOffset + G;
    }
    assert keys[..|covered|] == keys;
    GapsLast(gaps, keys, gapCursor, e);
    if gapCursor < e.offset + e.len {
      gaps := gaps + [Extent(gapCursor, e.offset + e.len - gapCursor)];
    }
  }

  /** The areas at `keys` are marked as added. */
  function MarkKeys(m: map<nat, Flags>, keys: seq<nat>): map<nat, Flags> {
    map k | k in m :: if k in keys then m[k].(added := true) else m[k]
  }

  lemma NoneMarked(m: map<nat, Flags>)
    ensures MarkKeys(m, []) == m
  {
  }

  lemma MarkNext(m: map<nat, Flags>, keys: seq<nat>, i: nat)
    requires i < |keys|
    ensures MarkKeys(m, keys[..i + 1]) == MarkKeys(MarkKeys(m, keys[..i]), [keys[i]])
  {
    assert keys[..i + 1] == keys[..i] + [keys[i]];
  }

  lemma FlagKeys(areas: map<nat, EphAllocation>)
    ensures FlagsOf(areas).Keys == areas.Keys
  {
  }

  lemma MarkedAll(m: map<nat, Flags>, e: Extent)
    ensures MarkKeys(m, CoveredKeys(Ascending(m.Keys), e)) == MarkAdded(m, e)
  {
    hide Ascending, CoveredKeys;
    CoveredKeysAre(Ascending(m.Keys), e);
    KeysOf(m.Keys);
  }

  method MarkOne(c: ConsumerState, a: EphAllocation)
    requires Filed(c.areas) && a.consumerOffset in c.areas && c.areas[a.consumerOffset] == a
    modifies {a}`dcdSet
    ensures FlagsOf(c.areas) == MarkKeys(old(FlagsOf(c.areas)), [a.consumerOffset])
  {
    a.dcdSet := true;
  }

  lemma FiledSize(areas: map<nat, EphAllocation>, allocs: seq<EphAllocation>, keys: seq<nat>)
    requires FiledAt(areas, allocs, keys)
    ensures |allocs| == |keys|
  {
  }

  lemma FiledEntry(areas: map<nat, EphAllocation>, allocs: seq<EphAllocation>, keys: seq<nat>, i: nat)
    requires FiledAt(areas, allocs, keys) && Filed(areas) && i < |keys| == |allocs|
    ensures keys[i] in areas && areas[keys[i]] == allocs[i] && allocs[i].consumerOffset == keys[i]
    ensures allocs[i] in areas.Values
  {
  }

  lemma KeysOf(areas: set<nat>)
    ensures forall k :: k in Ascending(areas) <==> k in areas
  {
    hide Ascending;
    assert forall k :: k in Ascending(areas) <==> k in Elems(Ascending(areas));
  }

  /** The gaps before the `i`-th covered area have been noted. */
  ghost predicate GapsSoFar(gaps: seq<Extent>, keys: seq<nat>, i: nat, cursor: nat, e: Extent) {
    i <= |keys| && gaps + Gaps(keys[i..], cursor, e.End()) == Gaps(keys, e.offset, e.End())
  }

  lemma GapsBegin(keys: seq<nat>, e: Extent)
    ensures GapsSoFar([], keys, 0, e.offset, e)
  {
    assert keys[0..] == keys;
  }

  lemma GapsNext(gaps: seq<Extent>, keys: seq<nat>, i: nat, cursor: nat, e: Extent)
    requires GapsSoFar(gaps, keys, i, cursor, e) && i < |keys|
    ensures cursor < keys[i] ==> GapsSoFar(gaps + [Extent(cursor, keys[i] - cursor)], keys, i + 1, keys[i] + G, e)
    ensures cursor >= keys[i] ==> GapsSoFar(gaps, keys, i + 1, keys[i] + G, e)
  {
    assert keys[i..][1..] == keys[i + 1..];
    assert Gaps(keys[i..], cursor, e.End()) ==
      (if cursor < keys[i] then [Extent(cursor, keys[i] - cursor)] else []) + Gaps(keys[i + 1..], keys[i] + G, e.End());
  }

  lemma GapsLast(gaps: seq<Extent>, keys: seq<nat>, cursor: nat, e: Extent)
    requires GapsSoFar(gaps, keys, |keys|, cursor, e)
    ensures Gaps(keys, e.offset, e.End()) ==
      if cursor < e.End() then gaps + [Extent(cursor, e.End() - cursor)] else gaps
  {
    assert keys[|keys|..] == [];
  }

  /** The locked section of `release_reserved_memory`: which allocations its command must name. */
  method ReleaseLocked(c: ConsumerState, offsets: seq<nat>) returns (toRelease: seq<EphAllocation>)
    requires Filed(c.areas)
    modifies c`areas, c.areas.Values`releaseRequested
    ensures FlagsOf(c.areas) == ReleaseMany(old(FlagsOf(c.areas)), offsets).0
    ensures |toRelease| == |ReleaseMany(old(FlagsOf(c.areas)), offsets).1|
    ensures forall i :: 0 <= i < |toRelease| ==>
      toRelease[i].consumerOffset == ReleaseMany(old(FlagsOf(c.areas)), offsets).1[i]
    ensures forall k :: k in c.areas ==> k in old(c.areas) && c.areas[k] == old(c.areas[k])
  {
    hide ReleaseOne, FlagsOf;
    toRelease := [];
    ghost var start, commanded: seq<nat> := FlagsOf(c.areas), [];
    assert offsets[..0] == [];
    for i := 0 to |offsets|
      invariant forall k :: k in c.areas ==> k in old(c.areas) && c.areas[k] == old(c.areas[k])
      invariant (FlagsOf(c.areas), commanded) == ReleaseMany(start, offsets[..i])
      invariant |toRelease| == |commanded|
      invariant forall j :: 0 <= j < |commanded| ==> toRelease[j].consumerOffset == commanded[j]
    {
      assert offsets[..i + 1][..i] == offsets[..i];
      var alloc := ReleaseNext(c, offsets[i]);
      if alloc != null {
        toRelease := toRelease + [alloc];
        commanded := commanded + [offsets[i]];
      }
    }
    assert offsets[..|offsets|] == offsets;
  }

  lemma {:induction false} ReleaseLeaves(m: map<nat, Flags>, offsets: seq<nat>)
    ensures var (after, commanded) := ReleaseMany(m, offsets);
      && (forall o :: o in after ==> o in m && (o in offsets || after[o] == m[o]))
      && (forall o :: o in m && (o in after ==> o in commanded) <==> o in m && o in offsets && !m[o].released)
      && (forall o :: o in after && o in offsets ==> after[o].released)
      && (forall o :: o in commanded ==> o in m)
  {
    if offsets != [] {
      var n := |offsets| - 1;
      ReleaseLeaves(m, offsets[..n]);
      assert offsets == offsets[..n] + [offsets[n]];
    }
  }

  /** The areas of the allocations go: with the device's event if it obeyed the command, else by hand. */
  method RemoveAreas(c: ConsumerState, some: seq<EphAllocation>)
    requires Filed(c.areas)
    modifies c`areas
    ensures forall k :: k in c.areas <==> k in old(c.areas) && forall a :: a in some ==> a.consumerOffset != k
    ensures forall k :: k in c.areas ==> c.areas[k] == old(c.areas[k])
  {
    for i := 0 to |some|
      invariant forall k :: k in c.areas <==> k in old(c.areas) && forall j :: 0 <= j < i ==>
        some[j].consumerOffset != k
      invariant forall k :: k in c.areas ==> c.areas[k] == old(c.areas[k])
    {
      c.areas := c.areas - {some[i].consumerOffset};
    }
  }

  /**
   * `release_reserved_memory` as a whole: whatever the device makes of the command, and whether
   * the wait times out, every area that this call was first to release is gone in the end.
   */
  method ReleaseReservedMemory(c: ConsumerState, offsets: seq<nat>)
    requires Filed(c.areas)
    modifies c`areas, c.areas.Values`releaseRequested
    ensures forall o :: o in c.areas <==> o in old(c.areas) && !(o in offsets && !old(c.areas[o].releaseRequested))
    ensures forall k :: k in c.areas ==> k in old(c.areas) && c.areas[k] == old(c.areas[k])
    ensures forall k :: k in c.areas && k !in offsets ==> FlagsOf(c.areas)[k] == old(FlagsOf(c.areas))[k]
  {
    hide FlagsOf, ReleaseMany, Filed;
    ghost var was := FlagsOf(c.areas);
    FlagValues(c.areas);
    ReleaseLeaves(was, offsets);
    var commanded := ReleaseLocked(c, offsets);
    ghost var locked, left := FlagsOf(c.areas), c.areas;
    FlagKeys(left);
    StillFiled(old(c.areas), left);
    RemoveAreas(c, commanded);
    FlagsAt(c.areas, left);
    forall k ensures (exists a :: a in commanded && a.consumerOffset == k) <==> k in ReleaseMany(was, offsets).1 {
    }
  }

  lemma FlagValues(areas: map<nat, EphAllocation>)
    ensures FlagsOf(areas).Keys == areas.Keys
    ensures forall k :: k in areas ==> FlagsOf(areas)[k] == Flags(areas[k].dcdSet, areas[k].releaseRequested)
  {
  }

  lemma StillFiled(was: map<nat, EphAllocation>, now: map<nat, EphAllocation>)
    requires Filed(was) && forall k :: k in now ==> k in was && now[k] == was[k]
    ensures Filed(now)
  {
  }

  lemma FlagsAt(some: map<nat, EphAllocation>, all: map<nat, EphAllocation>)
    requires forall k :: k in some ==> k in all && some[k] == all[k]
    ensures FlagsOf(some).Keys == some.Keys
    ensures forall k :: k in some ==> k in FlagsOf(all) && FlagsOf(some)[k] == FlagsOf(all)[k]
  {
  }

  method ReleaseNext(c: ConsumerState, offset: nat) returns (alloc: EphAllocation?)
    requires Filed(c.areas)
    modifies c`areas, c.areas.Values`releaseRequested
    ensures (FlagsOf(c.areas), alloc != null) == ReleaseOne(old(FlagsOf(c.areas)), offset)
    ensures alloc != null ==> alloc.consumerOffset == offset
    ensures forall k :: k in c.areas ==> k in old(c.areas) && c.areas[k] == old(c.areas[k])
  {
    alloc := null;
    ghost var was := FlagsOf(c.areas);
    if offset in c.areas && !c.areas[offset].releaseRequested {
      var a := c.areas[offset];
      a.releaseRequested := true;
      assert FlagsOf(c.areas) == was[offset := was[offset].(released := true)];
      if !a.dcdSet {
        c.areas := c.areas - {offset};
        assert FlagsOf(c.areas) == was - {offset};
      } else {
        alloc := a;
      }
    }
  }

  // ---------------------------------------------------------------- whole events

  predicate CoveredBySome(extents: seq<Extent>, k: nat) {
    exists e :: e in extents && e.Covers(k)
  }

  /** The areas after an add event: everything that one of its extents covers is marked. */
  ghost function AddAll(m: map<nat, Flags>, extents: seq<Extent>): map<nat, Flags> {
    map k | k in m :: if CoveredBySome(extents, k) then m[k].(added := true) else m[k]
  }

  /** The gaps that an add event reports, extent by extent. */
  ghost function AllGaps(areas: set<nat>, extents: seq<Extent>): seq<Extent> {
    if extents == [] then []
    else AllGaps(areas, extents[..|extents| - 1]) + ExtentGaps(areas, extents[|extents| - 1])
  }

  lemma CoveredByOneMore(extents: seq<Extent>, i: nat, k: nat)
    requires i < |extents|
    ensures CoveredBySome(extents[..i + 1], k) <==> CoveredBySome(extents[..i], k) || extents[i].Covers(k)
  {
    assert extents[..i + 1] == extents[..i] + [extents[i]];
    assert extents[i] in extents[..i + 1];
    assert forall e :: e in extents[..i] ==> e in extents[..i + 1];
  }

  lemma MarkOneMore(m: map<nat, Flags>, extents: seq<Extent>, i: nat)
    requires i < |extents|
    ensures AddAll(m, extents[..i + 1]) == MarkAdded(AddAll(m, extents[..i]), extents[i])
  {
    hide CoveredBySome;
    forall k | k in m
      ensures CoveredBySome(extents[..i + 1], k) <==> CoveredBySome(extents[..i], k) || extents[i].Covers(k)
    {
      CoveredByOneMore(extents, i, k);
    }
  }

  lemma GapsOneMore(areas: set<nat>, extents: seq<Extent>, i: nat)
    requires i < |extents|
    ensures AllGaps(areas, extents[..i + 1]) == AllGaps(areas, extents[..i]) + ExtentGaps(areas, extents[i])
  {
    assert extents[..i + 1][..i] == extents[..i];
  }

  /** The locked section of `signal_add_dc`: the extents that its own release command names. */
  method SignalAddDc(c: ConsumerState, extents: seq<Extent>) returns (toRelease: seq<Extent>)
    requires Filed(c.areas)
    modifies c.areas.Values`dcdSet
    ensures FlagsOf(c.areas) == AddAll(old(FlagsOf(c.areas)), extents)
    ensures toRelease == AllGaps(c.areas.Keys, extents)
  {
    hide FlagsOf, MarkAdded, ExtentGaps, CoveredBySome, Filed;
    toRelease := [];
    ghost var was := FlagsOf(c.areas);
    NothingAdded(was);
    for i := 0 to |extents|
      invariant FlagsOf(c.areas) == AddAll(was, extents[..i])
      invariant toRelease == AllGaps(c.areas.Keys, extents[..i])
    {
      var gaps := SignalAddOne(c, extents[i]);
      toRelease := toRelease + gaps;
      MarkOneMore(was, extents, i);
      GapsOneMore(c.areas.Keys, extents, i);
    }
    assert extents[..|extents|] == extents;
  }

  lemma NothingAdded(m: map<nat, Flags>)
    ensures AddAll(m, []) == m
  {
  }

  /** `signal_release_dc`: exactly the areas that the event covers go. */
  method SignalReleaseDc(c: ConsumerState, extents: seq<Extent>)
    requires Filed(c.areas)
    modifies c`areas
    ensures c.areas == map k | k in old(c.areas) && !CoveredBySome(extents, k) :: old(c.areas)[k]
  {
    hide CoveredBySome;
    assert extents[..0] == [];
    assert forall k: nat :: !CoveredBySome([], k) by {
      NothingCovered();
    }
    for i := 0 to |extents|
      invariant c.areas == map k | k in old(c.areas) && !CoveredBySome(extents[..i], k) :: old(c.areas)[k]
    {
      forall k: nat
        ensures CoveredBySome(extents[..i + 1], k) <==> CoveredBySome(extents[..i], k) || extents[i].Covers(k)
      {
        CoveredByOneMore(extents, i, k);
      }
      RemoveCovered(c, extents[i]);
    }
    assert extents[..|extents|] == extents;
  }

  lemma NothingCovered()
    ensures forall k: nat :: !CoveredBySome([], k)
  {
  }

  /** The removals of `signal_release_dc` for one extent. */
  method RemoveCovered(c: ConsumerState, e: Extent)
    requires Filed(c.areas)
    modifies c`areas
    ensures c.areas == map k | k in old(c.areas) && !e.Covers(k) :: old(c.areas)[k]
  {
    hide Ascending, FiledAt, Filed, CoveredKeys;
    ghost var was := c.areas;
    ghost var keys := CoveredKeys(Ascending(c.areas.Keys), e);
    var covered := FindCovered(c, e);
    FiledSize(c.areas, covered, keys);
    CoveredKeysAre(Ascending(c.areas.Keys), e);
    KeysOf(c.areas.Keys);
    for i := 0 to |covered|
      invariant c.areas == map k | k in was && k !in keys[..i] :: was[k]
    {
      FiledEntry(was, covered, keys, i);
      c.areas := c.areas - {covered[i].consumerOffset};
      assert keys[..i + 1] == keys[..i] + [keys[i]];
    }
    assert keys[..|covered|] == keys;
  }
}
