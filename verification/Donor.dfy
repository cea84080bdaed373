/**
 * The ledger of one donatable memory region of a donor VM, and the sections of the
 * orchestrator that run while the donor's state is locked.
 */
module Donor {
  import opened Granularity
  import opened Collections
  import opened Allocation

  // ---------------------------------------------------------------- the ledger as a value

  datatype Region = Region(size: nat, donated: nat, owed: nat, ids: set<nat>) {
    predicate Ok() {
      G * |ids| <= donated <= size && Whole(donated) && Whole(owed)
    }

    /** Bytes counted as donated that no allocation of the region accounts for. */
    function Slack(): int { donated - G * |ids| }
  }

  /** How many bytes a search for `want` bytes takes from the region. */
  function ReserveBytes(r: Region, want: nat): nat
    requires r.donated <= r.size
  {
    AlignDown(Min(want, r.size - r.donated))
  }

  /** The first allocations of `rsvd`, as many as the region has room for. */
  function Reservable(r: Region, rsvd: seq<nat>): (ids: seq<nat>)
    requires r.donated <= r.size
    ensures ids <= rsvd && G * |ids| == ReserveBytes(r, G * |rsvd|)
  {
    var bytes := ReserveBytes(r, G * |rsvd|);
    CountChunks(Min(G * |rsvd|, r.size - r.donated));
    CountMonotone(bytes, |rsvd|);
    rsvd[..Count(bytes)]
  }

  function Reserve(r: Region, ids: seq<nat>): Region {
    r.(donated := r.donated + G * |ids|, ids := r.ids + Elems(ids))
  }

  /** The region afterwards, the bytes the caller may use, the bytes it must send back at once. */
  datatype Settlement = Settlement(region: Region, usable: nat, giveBack: nat)

  /** The bytes that a region in debt can use of what it was granted. */
  function Usable(owed: nat, asked: nat, granted: nat): nat {
    var capped := AlignDown(Min(granted, asked));
    capped - Min(owed, capped)
  }

  function Settle(r: Region, ids: seq<nat>, granted: nat): Settlement {
    var capped := Min(granted, G * |ids|);
    var excess := capped - AlignDown(capped);
    var toRevoke := Min(r.owed, capped - excess);
    var usable := capped - excess - toRevoke;
    CountMonotone(usable, |ids|);
    Settlement(r.(owed := r.owed - toRevoke, ids := r.ids - Elems(ids[Count(usable)..])), usable, toRevoke + excess)
  }

  function Bookkeep(r: Region, id: nat): Region {
    if id !in r.ids then r
    else r.(donated := if r.donated < G then 0 else r.donated - G, ids := r.ids - {id})
  }

  // ---------------------------------------------------------------- what the ledger keeps

  /**
   * A reservation takes the most that it can: no whole number of chunks that is both wanted and
   * free is larger, so afterwards less than a chunk is missing or less than a chunk is free.
   */
  lemma ReserveTakesMost(r: Region, want: nat)
    requires r.donated <= r.size
    ensures var bytes := ReserveBytes(r, want);
      && Whole(bytes) && bytes <= want && r.donated + bytes <= r.size
      && (want - bytes < G || r.size - (r.donated + bytes) < G)
    ensures forall k: nat :: Whole(k) && k <= want && r.donated + k <= r.size ==> k <= ReserveBytes(r, want)
  {
    var free := r.size - r.donated;
    CountChunks(Min(want, free));
    forall k: nat | Whole(k) && k <= want && k <= free ensures k <= ReserveBytes(r, want) {
      CountChunks(k);
      CountMonotone(k, Count(k));
      LargestWhole(k, Min(want, free));
    }
  }

  lemma ReserveKeeps(r: Region, ids: seq<nat>, want: nat)
    requires r.Ok() && Distinct(ids) && Elems(ids) !! r.ids
    requires G * |ids| == ReserveBytes(r, want)
    ensures Reserve(r, ids).Ok() && Reserve(r, ids).Slack() == r.Slack()
  {
    hide Whole, Count, AlignDown;
    CountChunks(Min(want, r.size - r.donated));
    WholeArith(r.donated, G * |ids|);
    DistinctCount(ids);
    assert |r.ids + Elems(ids)| == |r.ids| + |ids|;
  }

  /**
   * Settling splits what the donor granted, capped at the request, into whole usable chunks and
   * bytes to give back; it pays the outstanding revocation as far as the grant reaches; and it
   * forgets exactly the reservations that got no chunk.
   */
  lemma SettleKeeps(r: Region, ids: seq<nat>, granted: nat)
    requires r.Ok() && Distinct(ids) && Elems(ids) <= r.ids
    ensures var s := Settle(r, ids, granted);
      && s.region.Ok()
      && s.usable == G * Count(s.usable) && Count(s.usable) <= |ids|
      && s.usable + s.giveBack == Min(granted, G * |ids|)
      && s.region.owed <= r.owed && (s.region.owed > 0 ==> s.usable == 0)
      && (r.owed - s.region.owed) + s.usable == AlignDown(Min(granted, G * |ids|))
      && s.region.ids == r.ids - Elems(ids) + Elems(ids[..Count(s.usable)])
      && s.region.Slack() == r.Slack() + (G * |ids| - s.usable)
  {
    hide Settle, Whole, Count, AlignDown;
    SettleBytes(r, ids, granted);
    var s := Settle(r, ids, granted);
    var k := Count(s.usable);
    ForgetTail(r.ids, ids, k);
    SlackOf(r.donated, |r.ids|, |ids|, k, |s.region.ids|);
  }

  lemma SettleUses(r: Region, ids: seq<nat>, granted: nat)
    ensures Settle(r, ids, granted).usable == Usable(r.owed, G * |ids|, granted)
  {
  }

  lemma SlackOf(donated: nat, listed: nat, asked: nat, got: nat, left: nat)
    requires left == listed - (asked - got) && got <= asked && G * listed <= donated
    ensures G * left <= donated && donated - G * left == donated - G * listed + (G * asked - G * got)
  {
  }

  lemma ForgetTail(all: set<nat>, ids: seq<nat>, k: nat)
    requires Distinct(ids) && Elems(ids) <= all && k <= |ids|
    ensures all - Elems(ids[k..]) == all - Elems(ids) + Elems(ids[..k])
    ensures |all - Elems(ids[k..])| == |all| - (|ids| - k)
  {
    SplitElems(ids, k);
    SubsetSize(Elems(ids[k..]), all);
  }

  lemma SettleBytes(r: Region, ids: seq<nat>, granted: nat)
    requires Whole(r.owed)
    ensures var s := Settle(r, ids, granted);
      && Whole(s.usable) && s.usable == G * (Count(s.usable)) && Count(s.usable) <= |ids|
      && s.usable + s.giveBack == Min(granted, G * |ids|)
      && Whole(s.region.owed) && s.region.owed <= r.owed && (s.region.owed > 0 ==> s.usable == 0)
      && (r.owed - s.region.owed) + s.usable == AlignDown(Min(granted, G * |ids|))
      && s.region == r.(owed := s.region.owed, ids := r.ids - Elems(ids[Count(s.usable)..]))
  {
    hide Whole, Count, AlignDown;
    var capped := Min(granted, G * |ids|);
    CountChunks(capped);
    PayOwed(r.owed, AlignDown(capped));
    CountMonotone(Settle(r, ids, granted).usable, |ids|);
  }

  lemma PayOwed(owed: nat, capped: nat)
    requires Whole(owed) && Whole(capped)
    ensures var paid := Min(owed, capped);
      && Whole(owed - paid) && Whole(capped - paid) && (capped - paid) == G * Count(capped - paid)
      && (owed - paid > 0 ==> capped - paid == 0)
  {
    WholeArith(owed, capped);
    WholeArith(capped, owed);
    CountChunks(SaturatingSub(capped, owed));
    Chunks(0);
  }

  /** Both warnings of the bookkeeping are false alarms while the id is listed. */
  lemma BookkeepKeeps(r: Region, id: nat)
    requires r.Ok() && id in r.ids
    ensures G <= r.donated
    ensures Bookkeep(r, id).Ok() && Bookkeep(r, id).Slack() == r.Slack()
  {
    hide Whole, Count;
    SubsetSize({id}, r.ids);
    DropChunk(r.donated);
  }

  // ---------------------------------------------------------------- the locked sections

  class DonatableRegion {
    const size: nat
    const path: string
    var donated: nat
    var revokedOwed: nat
    var allocations: map<nat, EphAllocation>

    constructor (size: nat, path: string)
      ensures this.size == size && this.path == path && View() == Region(size, 0, 0, {}) && Valid()
    {
      this.size, this.path := size, path;
      donated, revokedOwed, allocations := 0, 0, map[];
    }

    ghost function View(): Region reads this {
      Region(size, donated, revokedOwed, allocations.Keys)
    }

    /** Every allocation is filed under its own id. */
    ghost predicate Filed()
      reads this
    {
      forall id :: id in allocations ==> allocations[id].id == id
    }

    ghost predicate Valid()
      reads this
    {
      View().Ok() && Filed()
    }

    /** The part of `allocate_eph_memory_inner` that reserves from this region. */
    method ReserveFrom(want: nat, rsvd: seq<EphAllocation>) returns (bytes: nat)
      requires donated <= size && want <= G * |rsvd|
      modifies this`donated, this`allocations
      ensures bytes == ReserveBytes(old(View()), want) && Count(bytes) <= |rsvd| && Whole(bytes)
      ensures bytes <= want && donated == old(donated) + bytes <= size && (want - bytes < G || size - donated < G)
      ensures View() == Reserve(old(View()), Ids(rsvd[..Count(bytes)]))
      ensures forall id :: id in allocations ==>
        (id in old(allocations) && allocations[id] == old(allocations[id])) ||
        (exists i :: 0 <= i < Count(bytes) && rsvd[i].id == id && allocations[id] == rsvd[i])
      ensures old(Filed()) ==> Filed()
    {
      hide Whole, Elems, Ids, Listing;
      ReserveTakesMost(View(), want);
      bytes := AlignDown(Min(want, size - donated));
      donated := donated + bytes;
      WantedChunks(want, size - old(donated), |rsvd|);
      List(rsvd, Count(bytes));
      ListingMeans(old(allocations), allocations, rsvd, Count(bytes));
    }

    /** The insertion loop: the first `n` allocations are filed under their ids. */
    method List(rsvd: seq<EphAllocation>, n: nat)
      requires n <= |rsvd|
      modifies this`allocations
      ensures Listing(old(allocations), allocations, rsvd[..n])
    {
      hide Listing;
      NothingListed(allocations);
      assert rsvd[..0] == [];
      for i := 0 to n
        invariant Listing(old(allocations), allocations, rsvd[..i])
      {
        OneMoreListed(old(allocations), allocations, rsvd[..i], rsvd[i]);
        assert rsvd[..i + 1] == rsvd[..i] + [rsvd[i]];
        allocations := allocations[rsvd[i].id := rsvd[i]];
      }
    }

    /** `handle_reserved_alloc` once the region has been found. */
    method SettleReserved(ids: seq<nat>, requested: nat, granted: nat) returns (usable: nat, giveBack: nat)
      requires requested == G * |ids|
      modifies this`revokedOwed, this`allocations
      ensures Settlement(View(), usable, giveBack) == Settle(old(View()), ids, granted)
      ensures revokedOwed <= old(revokedOwed) && (revokedOwed > 0 ==> usable == 0)
      ensures (old(revokedOwed) - revokedOwed) + usable == AlignDown(Min(granted, requested))
      ensures usable + giveBack == Min(granted, requested)
      ensures allocations == old(allocations) - Elems(ids[Count(usable)..])
      ensures old(Filed()) ==> Filed()
    {
      var capped := Min(granted, requested);
      var excess := capped - AlignDown(capped);
      capped := capped - excess;
      var toRevoke: nat := 0;
      if revokedOwed > 0 {
        toRevoke := Min(revokedOwed, capped);
        revokedOwed := revokedOwed - toRevoke;
      }
      usable := capped - toRevoke;
      giveBack := toRevoke + excess;
      CountMonotone(usable, |ids|);
      Forget(ids[Count(usable)..]);
    }

    /** The reservations that got no chunk are removed. */
    method Forget(ids: seq<nat>)
      modifies this`allocations
      ensures allocations == old(allocations) - Elems(ids)
    {
      for i := 0 to |ids|
        invariant allocations == old(allocations) - Elems(ids[..i])
      {
        allocations := allocations - {ids[i]};
        assert ids[..i + 1] == ids[..i] + [ids[i]];
      }
      assert ids[..|ids|] == ids;
    }

    /** `bookkeep_returned_eph_memory` once the region has been found; false means a warning was printed. */
    method BookkeepReturned(id: nat) returns (clean: bool)
      modifies this`donated, this`allocations
      ensures View() == Bookkeep(old(View()), id)
      ensures clean == (id in old(allocations) && old(donated) >= G)
      ensures allocations == old(allocations) - {id}
      ensures donated == if id in old(allocations) then SaturatingSub(old(donated), G) else old(donated)
      ensures old(Filed()) ==> Filed()
    {
      if id !in allocations {
        assert allocations == allocations - {id};
        return false;
      }
      clean := donated >= G;
      if donated < G {
        donated := 0;
      } else {
        donated := donated - G;
      }
      allocations := allocations - {id};
    }

    ghost function States(): map<nat, AllocState>
      reads this, allocations.Values
    {
      map id | id in allocations :: allocations[id].state
    }

    /** Other threads at the allocations of the locked region: commits and abandonments, or nothing if `quiet`. */
    method Interfere(ghost quiet: bool)
      modifies allocations.Values`state
      ensures Turned(old(States()), States()) && (quiet ==> States() == old(States()))
    {
    }

    /** One turn of the scan below. */
    method Visit(id: nat) returns (won: bool)
      requires Filed() && id in allocations
      modifies {allocations[id]}`state
      ensures won == old(States())[id].Committed?
      ensures States() == if won then old(States())[id := PendingRelease] else old(States())
    {
      won := allocations[id].TryClaimForRevoke();
    }

    /**
     * The scan of `revoke_eph_memory` over the region's allocations, newest first. The region is
     * locked, its allocations are not.
     */
    method ClaimNewestFirst(revokeSize: nat, order: seq<nat>, ghost quiet: bool)
      returns (claimed: seq<EphAllocation>, remaining: nat, ghost taken: seq<nat>, ghost met: set<nat>)
      requires Filed() && Whole(revokeSize) && StrictlyAscending(order) && Elems(order) == allocations.Keys
      modifies allocations.Values`state
      ensures taken == Claims(order, met, Count(revokeSize)) && Named(allocations, claimed, taken)
      ensures Whole(remaining) && |taken| + Count(remaining) == Count(revokeSize)
      ensures Revoked(old(States()), States(), met, taken, quiet)
    {
      hide Whole, Count, Claims, Named, Swept, Revoked, Turned, States;
      Chunks(0);
      claimed, remaining, taken := [], revokeSize, [];
      ghost var start := States();
      var i := |order|;
      NamedNone(allocations);
      NoneLeft(revokeSize);
      StatesOf();
      SweepBegins(start, order, Count(revokeSize), quiet);
      while i > 0 && remaining != 0
        invariant 0 <= i <= |order| && (remaining == 0 <==> Count(remaining) == 0)
        invariant Whole(remaining) && |taken| + Count(remaining) == Count(revokeSize)
        invariant Swept(start, States(), order, i, taken, Count(revokeSize), quiet)
        invariant Named(allocations, claimed, taken)
      {
        ghost var before := States();
        Interfere(quiet);
        SweptOn(start, before, States(), order, i, taken, Count(revokeSize), quiet);
        before := States();
        i := i - 1;
        assert order[i] in Elems(order);
        DropChunk(remaining);
        NamedMore(allocations, claimed, taken, order[i]);
        StatesOf();
        SweptNext(start, before, order, i, taken, Count(revokeSize), quiet);
        var won := Visit(order[i]);
        if won {
          LastChunk(remaining);
          remaining := SaturatingSub(remaining, G);
          claimed := claimed + [allocations[order[i]]];
          taken := taken + [order[i]];
        }
      }
      met := Met(States(), order, i, taken);
      SweepEnds(start, States(), order, i, taken, Count(revokeSize), quiet);
    }

    lemma StatesOf()
      ensures States().Keys == allocations.Keys
      ensures forall id :: id in allocations ==> States()[id] == allocations[id].state
    {
    }

    lemma SameStates(states: map<nat, AllocState>)
      requires states.Keys == allocations.Keys && forall id :: id in allocations ==> states[id] == allocations[id].state
      ensures States() == states
    {
    }

    /**
     * The locked section of `revoke_eph_memory`. `met` is what the scan found committed or left
     * unseen; the highest of these are claimed, and a debt remains only if they are too few.
     */
    method RevokeLocked(revokeSize: nat, ghost quiet: bool) returns (claimed: seq<EphAllocation>, ghost met: set<nat>)
      requires Filed() && Whole(revokeSize)
      modifies this`revokedOwed, allocations.Values`state
      ensures Ids(claimed) == Claims(Ascending(allocations.Keys), met, Count(revokeSize))
      ensures Revoked(old(States()), States(), met, Ids(claimed), quiet)
      ensures forall c :: c in claimed ==> c.id in allocations && allocations[c.id] == c
      ensures revokedOwed == old(revokedOwed) + (revokeSize - G * |claimed|)
    {
      hide Ascending, Claims, Revoked, States;
      var remaining;
      ghost var taken;
      claimed, remaining, taken, met := ClaimNewestFirst(revokeSize, Ascending(allocations.Keys), quiet);
      ghost var states := States();
      StatesOf();
      revokedOwed := revokedOwed + remaining;
      SameStates(states);
      Unclaimed(revokeSize, remaining, |taken|);
      NamedIds(allocations, claimed, taken);
    }
  }

  // ---------------------------------------------------------------- listing

  /** `now` is `was` with `rsvd` filed under their ids. */
  ghost predicate Listing(was: map<nat, EphAllocation>, now: map<nat, EphAllocation>, rsvd: seq<EphAllocation>) {
    && now.Keys == was.Keys + Elems(Ids(rsvd))
    && forall id :: id in now ==> (id in was && now[id] == was[id]) || (now[id] in rsvd && now[id].id == id)
  }

  lemma NothingListed(was: map<nat, EphAllocation>)
    ensures Listing(was, was, [])
  {
  }

  lemma OneMoreListed(was: map<nat, EphAllocation>, now: map<nat, EphAllocation>, rsvd: seq<EphAllocation>,
                      a: EphAllocation)
    requires Listing(was, now, rsvd)
    ensures Listing(was, now[a.id := a], rsvd + [a])
  {
    assert Ids(rsvd + [a]) == Ids(rsvd) + [a.id];
    assert Elems(Ids(rsvd) + [a.id]) == Elems(Ids(rsvd)) + {a.id};
  }

  lemma ListingMeans(was: map<nat, EphAllocation>, now: map<nat, EphAllocation>, rsvd: seq<EphAllocation>, n: nat)
    requires n <= |rsvd| && Listing(was, now, rsvd[..n])
    ensures now.Keys == was.Keys + Elems(Ids(rsvd[..n])) && |Ids(rsvd[..n])| == n
    ensures forall id :: id in now ==>
      (id in was && now[id] == was[id]) || (exists i :: 0 <= i < n && rsvd[i].id == id && now[id] == rsvd[i])
  {
    hide Elems;
    forall id | id in now && now[id] in rsvd[..n] && now[id].id == id
      ensures exists i :: 0 <= i < n && rsvd[i].id == id && now[id] == rsvd[i]
    {
      var i :| 0 <= i < n && rsvd[..n][i] == now[id];
      assert rsvd[i] == now[id];
    }
  }

  lemma WantedChunks(want: nat, free: nat, n: nat)
    requires want <= G * n
    ensures var bytes := AlignDown(Min(want, free)); Count(bytes) <= n && Whole(bytes) && bytes == G * Count(bytes)
  {
    CountChunks(Min(want, free));
    CountMonotone(AlignDown(Min(want, free)), n);
  }

  // ---------------------------------------------------------------- a scan among other threads

  /** What commits and abandonments by other threads make of a state. */
  predicate MayTurn(a: AllocState, b: AllocState) {
    match a
    case PendingCommit => !b.PendingRelease?
    case Committed => b.Committed? || b.Abandoned?
    case PendingRelease => b.PendingRelease? || b.Abandoned?
    case Abandoned => b.Abandoned?
  }

  ghost predicate Turned(s: map<nat, AllocState>, t: map<nat, AllocState>) {
    s.Keys == t.Keys && forall id :: id in s ==> MayTurn(s[id], t[id])
  }

  /**
   * What a revoke did from `s` to `t`. Everything claimed was met; whatever was committed at the
   * start was met too, unless another thread abandoned it; what was met and not claimed is still
   * committed. Without other threads, exactly the committed allocations are met.
   */
  ghost predicate Revoked(s: map<nat, AllocState>, t: map<nat, AllocState>, met: set<nat>, taken: seq<nat>,
                          quiet: bool) {
    && met <= s.Keys == t.Keys && (forall id :: id in taken ==> id in met)
    && (forall id :: id in met ==> s[id].Committed? || s[id].PendingCommit?)
    && (forall id :: id in taken ==> t[id].PendingRelease? || t[id].Abandoned?)
    && (forall id :: id in met && id !in taken ==> t[id].Committed?)
    && (forall id :: id in s && id !in met ==> MayTurn(s[id], t[id]) && (s[id].Committed? ==> t[id].Abandoned?))
    && (quiet ==> forall id :: id in s ==>
          (id in met <==> s[id].Committed?) && t[id] == if id in taken then PendingRelease else s[id])
  }

  /** The scan has seen `order[i..]` and claimed `taken`. */
  ghost predicate Swept(s: map<nat, AllocState>, t: map<nat, AllocState>, order: seq<nat>, i: int, taken: seq<nat>,
                        need: nat, quiet: bool) {
    && 0 <= i <= |order| && s.Keys == Elems(order)
    && taken == Claims(order[i..], Elems(taken), need) && SweptStates(s, t, Elems(order[i..]), Elems(taken), quiet)
  }

  ghost predicate SweptStates(s: map<nat, AllocState>, t: map<nat, AllocState>, seen: set<nat>, taken: set<nat>,
                              quiet: bool) {
    && taken <= seen <= s.Keys == t.Keys
    && (forall id :: id in taken ==> s[id].Committed? || s[id].PendingCommit?)
    && (forall id :: id in taken ==> t[id].PendingRelease? || t[id].Abandoned?)
    && (forall id :: id in s && id !in taken ==> MayTurn(s[id], t[id]))
    && (forall id :: id in seen && id !in taken && s[id].Committed? ==> t[id].Abandoned?)
    && (quiet ==> forall id :: id in s ==>
          (id in taken ==> s[id].Committed?) && t[id] == if id in taken then PendingRelease else s[id])
  }

  /** What the scan has claimed, and what is committed among the rest. */
  ghost function Met(t: map<nat, AllocState>, order: seq<nat>, i: int, taken: seq<nat>): set<nat>
    requires 0 <= i <= |order|
  {
    Elems(taken) + set id | id in Elems(order[..i]) && id in t && t[id].Committed?
  }

  lemma SweepBegins(s: map<nat, AllocState>, order: seq<nat>, need: nat, quiet: bool)
    requires s.Keys == Elems(order)
    ensures Swept(s, s, order, |order|, [], need, quiet)
  {
    assert order[|order|..] == [];
  }

  lemma SweptOn(s: map<nat, AllocState>, t: map<nat, AllocState>, u: map<nat, AllocState>, order: seq<nat>, i: int,
                taken: seq<nat>, need: nat, quiet: bool)
    requires Swept(s, t, order, i, taken, need, quiet) && Turned(t, u) && (quiet ==> t == u)
    ensures Swept(s, u, order, i, taken, need, quiet)
  {
    hide Claims, Elems;
    assert forall id :: id in s ==> MayTurn(t[id], u[id]);
  }

  /** One more allocation is seen, and claimed if it is committed. */
  lemma SweptNext(s: map<nat, AllocState>, t: map<nat, AllocState>, order: seq<nat>, i: int, taken: seq<nat>, need: nat,
                  quiet: bool)
    requires 0 <= i < |order| && StrictlyAscending(order) && Swept(s, t, order, i + 1, taken, need, quiet)
    requires |taken| < need
    ensures order[i] in t
    ensures if t[order[i]].Committed?
            then Swept(s, t[order[i] := PendingRelease], order, i, taken + [order[i]], need, quiet)
            else Swept(s, t, order, i, taken, need, quiet)
  {
    hide Claims, SweptStates, Elems;
    LowestSeen(order, i);
    SubsetStates(s, t, Elems(order[i + 1..]), Elems(taken), quiet);
    SeenStates(s, t, Elems(order[i + 1..]), Elems(taken), order[i], quiet);
    OneMoreElem(taken, order[i]);
    ClaimNext(order[i + 1..], order[i], taken, need, t[order[i]].Committed?);
  }

  lemma OneMoreElem(s: seq<nat>, x: nat)
    ensures Elems(s + [x]) == Elems(s) + {x}
  {
  }

  lemma ClaimNext(high: seq<nat>, id: nat, taken: seq<nat>, need: nat, won: bool)
    requires taken == Claims(high, Elems(taken), need) && |taken| < need && id !in Elems(high)
    requires Elems(taken) <= Elems(high)
    ensures var now := if won then taken + [id] else taken;
      now == Claims([id] + high, Elems(now), need)
  {
    hide Claims;
    var now := if won then taken + [id] else taken;
    OneMoreElem(taken, id);
    ClaimsAgree(high, Elems(taken), Elems(now), need);
    ClaimsBelow([id], high, Elems(now), need);
    ClaimsOne(id, Elems(now), need - |taken|);
  }

  lemma SubsetStates(s: map<nat, AllocState>, t: map<nat, AllocState>, seen: set<nat>, taken: set<nat>, quiet: bool)
    requires SweptStates(s, t, seen, taken, quiet)
    ensures taken <= seen <= s.Keys == t.Keys
  {
  }

  lemma LowestSeen(order: seq<nat>, i: int)
    requires 0 <= i < |order| && StrictlyAscending(order)
    ensures order[i..] == [order[i]] + order[i + 1..] && Elems(order[i..]) == Elems(order[i + 1..]) + {order[i]}
    ensures order[i] in Elems(order) && order[i] !in Elems(order[i + 1..])
  {
  }

  lemma SeenStates(s: map<nat, AllocState>, t: map<nat, AllocState>, seen: set<nat>, taken: set<nat>, id: nat,
                   quiet: bool)
    requires SweptStates(s, t, seen, taken, quiet) && id in s && id !in seen
    ensures id in t
    ensures if t[id].Committed? then SweptStates(s, t[id := PendingRelease], seen + {id}, taken + {id}, quiet)
            else SweptStates(s, t, seen + {id}, taken, quiet)
  {
    assert MayTurn(s[id], t[id]);
  }

  lemma ClaimsOne(id: nat, committed: set<nat>, need: nat)
    requires need > 0
    ensures Claims([id], committed, need) == if id in committed then [id] else []
  {
    assert [id][..0] == [];
  }

  /** The claims of a scan are those of its upper part, then those of the lower part. */
  lemma {:induction false} ClaimsBelow(low: seq<nat>, high: seq<nat>, committed: set<nat>, need: nat)
    ensures |Claims(high, committed, need)| <= need
    ensures Claims(low + high, committed, need) ==
      Claims(high, committed, need) + Claims(low, committed, need - |Claims(high, committed, need)|)
  {
    if need > 0 && high != [] {
      var n := |high| - 1;
      assert (low + high)[..|low + high| - 1] == low + high[..n];
      ClaimsBelow(low, high[..n], committed, if high[n] in committed then need - 1 else need);
    } else if high == [] {
      assert low + high == low;
    }
  }

  /** Only the ids walked over matter. */
  lemma {:induction false} ClaimsAgree(ascending: seq<nat>, a: set<nat>, b: set<nat>, need: nat)
    requires forall id :: id in ascending ==> (id in a <==> id in b)
    ensures Claims(ascending, a, need) == Claims(ascending, b, need)
  {
    if ascending != [] && need > 0 {
      var n := |ascending| - 1;
      ClaimsAgree(ascending[..n], a, b, if ascending[n] in a then need - 1 else need);
    }
  }

  lemma LastChunk(remaining: nat)
    requires Whole(remaining) && remaining > 0
    ensures Whole(SaturatingSub(remaining, G)) && Count(SaturatingSub(remaining, G)) + 1 == Count(remaining)
    ensures SaturatingSub(remaining, G) == 0 <==> Count(SaturatingSub(remaining, G)) == 0
  {
  }

  lemma NoneLeft(remaining: nat)
    requires Whole(remaining)
    ensures remaining == 0 <==> Count(remaining) == 0
  {
  }

  lemma SweepEnds(s: map<nat, AllocState>, t: map<nat, AllocState>, order: seq<nat>, i: int, taken: seq<nat>, need: nat,
                  quiet: bool)
    requires Swept(s, t, order, i, taken, need, quiet) && StrictlyAscending(order) && (i == 0 || |taken| == need)
    ensures taken == Claims(order, Met(t, order, i, taken), need)
    ensures Revoked(s, t, Met(t, order, i, taken), taken, quiet)
  {
    hide Claims, Revoked, SweptStates;
    var met := Met(t, order, i, taken);
    CutOrder(order, i);
    SubsetStates(s, t, Elems(order[i..]), Elems(taken), quiet);
    ClaimsAgree(order[i..], Elems(taken), met, need);
    ClaimsBelow(order[..i], order[i..], met, need);
    ClaimsStop(order[..i], met, need - |taken|);
    RevokedStates(s, t, Elems(order[i..]), Elems(order[..i]), met, taken, quiet);
  }

  lemma CutOrder(order: seq<nat>, i: int)
    requires 0 <= i <= |order| && StrictlyAscending(order)
    ensures order == order[..i] + order[i..]
    ensures Elems(order) == Elems(order[..i]) + Elems(order[i..]) && Elems(order[..i]) !! Elems(order[i..])
    ensures forall id :: id in order[i..] <==> id in Elems(order[i..])
  {
    assert forall id :: id in order <==> id in order[..i] || id in order[i..];
  }

  lemma RevokedStates(s: map<nat, AllocState>, t: map<nat, AllocState>, seen: set<nat>, rest: set<nat>, met: set<nat>,
                      taken: seq<nat>, quiet: bool)
    requires SweptStates(s, t, seen, Elems(taken), quiet) && s.Keys == rest + seen && rest !! seen
    requires met == Elems(taken) + set id | id in rest && id in t && t[id].Committed?
    ensures Revoked(s, t, met, taken, quiet)
  {
    assert forall id :: id in taken <==> id in Elems(taken);
  }

  ghost predicate Named(filed: map<nat, EphAllocation>, allocs: seq<EphAllocation>, ids: seq<nat>) {
    |allocs| == |ids| && forall k :: 0 <= k < |ids| ==> ids[k] in filed && filed[ids[k]] == allocs[k]
  }

  lemma NamedNone(filed: map<nat, EphAllocation>)
    ensures Named(filed, [], [])
  {
  }

  lemma NamedMore(filed: map<nat, EphAllocation>, allocs: seq<EphAllocation>, ids: seq<nat>, id: nat)
    requires Named(filed, allocs, ids) && id in filed
    ensures Named(filed, allocs + [filed[id]], ids + [id])
  {
  }

  lemma NamedIds(filed: map<nat, EphAllocation>, allocs: seq<EphAllocation>, ids: seq<nat>)
    requires (forall id :: id in filed ==> filed[id].id == id) && Named(filed, allocs, ids)
    ensures Ids(allocs) == ids && forall c :: c in allocs ==> c.id in filed && filed[c.id] == c
  {
    assert forall k :: 0 <= k < |ids| ==> allocs[k].id == ids[k];
  }

  // ---------------------------------------------------------------- which allocations a revoke takes

  /** Walks the ids from the highest down and picks committed ones until `need` are found. */
  function Claims(ascending: seq<nat>, committed: set<nat>, need: nat): seq<nat> {
    if ascending == [] || need == 0 then []
    else
      var n := |ascending| - 1;
      if ascending[n] in committed then [ascending[n]] + Claims(ascending[..n], committed, need - 1)
      else Claims(ascending[..n], committed, need)
  }

  lemma Unclaimed(revokeSize: nat, remaining: nat, claimed: nat)
    requires Whole(revokeSize) && Whole(remaining) && claimed + Count(remaining) == Count(revokeSize)
    ensures remaining == revokeSize - G * claimed
  {
  }

  lemma ClaimsStop(ascending: seq<nat>, committed: set<nat>, need: nat)
    requires ascending == [] || need == 0
    ensures Claims(ascending, committed, need) == []
  {
  }

  lemma {:induction false} ClaimsHighestFirst(ascending: seq<nat>, committed: set<nat>, need: nat)
    requires StrictlyAscending(ascending)
    ensures forall x :: x in Claims(ascending, committed, need) ==> x in committed && x in ascending
    ensures Distinct(Claims(ascending, committed, need))
    ensures forall a, b ::
      (a in committed && a in ascending && a !in Claims(ascending, committed, need) &&
       b in Claims(ascending, committed, need)) ==> a < b
  {
    if ascending != [] && need != 0 {
      var n := |ascending| - 1;
      var top, rest := ascending[n], ascending[..n];
      assert forall x :: x in rest ==> x < top;
      assert forall x :: x in ascending <==> x in rest || x == top;
      ClaimsHighestFirst(rest, committed, if top in committed then need - 1 else need);
    }
  }

  lemma {:induction false} ClaimsCount(ascending: seq<nat>, committed: set<nat>, need: nat)
    requires StrictlyAscending(ascending)
    ensures |Claims(ascending, committed, need)| == Min(need, |Elems(ascending) * committed|)
  {
    if ascending == [] {
      assert Elems(ascending) * committed == {};
    } else if need != 0 {
      var n := |ascending| - 1;
      OneMore(ascending, committed);
      ClaimsCount(ascending[..n], committed, if ascending[n] in committed then need - 1 else need);
    }
  }

  lemma OneMore(ascending: seq<nat>, committed: set<nat>)
    requires StrictlyAscending(ascending) && ascending != []
    ensures var n := |ascending| - 1;
      |Elems(ascending) * committed| == |Elems(ascending[..n]) * committed| + if ascending[n] in committed then 1 else 0
  {
    var n := |ascending| - 1;
    var top, rest := ascending[n], ascending[..n];
    assert Elems(ascending) == Elems(rest) + {top};
    assert top !in Elems(rest);
    AddOne(Elems(rest), committed, top);
  }

  /**
   * A revoke takes the highest committed ids, as many as it needs and as there are: fewer than
   * needed (so that the rest is owed) only if every committed allocation was taken.
   */
  lemma RevokeTakesHighest(ids: set<nat>, committed: set<nat>, need: nat, c: seq<nat>)
    requires committed <= ids && c == Claims(Ascending(ids), committed, need)
    ensures Distinct(c) && Elems(c) <= committed && |c| == Min(need, |committed|)
    ensures forall a, b :: a in committed && a !in c && b in c ==> a < b
    ensures |c| < need ==> Elems(c) == committed
  {
    hide Claims, Ascending;
    var keys := Ascending(ids);
    ClaimsHighestFirst(keys, committed, need);
    ClaimsCount(keys, committed, need);
    assert ids * committed == committed;
    assert forall a :: a in committed ==> a in Elems(keys) && a in keys;
    DistinctCount(c);
    if |c| < need {
      SubsetSize(Elems(c), committed);
      assert committed - Elems(c) == {};
    }
  }

  function Ids(allocs: seq<EphAllocation>): (ids: seq<nat>)
    ensures |ids| == |allocs|
  {
    seq(|allocs|, i requires 0 <= i < |allocs| => allocs[i].id)
  }
}
