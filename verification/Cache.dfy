/**
 * The two-tier block cache: main memory, then ephemeral memory that may be revoked under it.
 * Random choices are nondeterministic; how touching ephemeral memory turns out is a parameter.
 */
module Cache {
  import opened CacheTiers

  /** The `int`s in a block of 2 MiB. */
  const BLOCK_WORDS: nat := 2 * 1024 * 1024 / 4

  // ---------------------------------------------------------------- blocks

  function Filled(n: nat, value: int): (s: seq<int>)
    ensures |s| == n && forall i :: 0 <= i < n ==> s[i] == value
  {
    seq(n, _ => value)
  }

  function Sum(s: seq<int>): int {
    if s == [] then 0 else Sum(s[..|s| - 1]) + s[|s| - 1]
  }

  lemma {:induction false} SumOfFilled(n: nat, value: int)
    ensures Sum(Filled(n, value)) == n * value
  {
    if n > 0 {
      assert Filled(n, value)[..n - 1] == Filled(n - 1, value);
      SumOfFilled(n - 1, value);
    }
  }

  method ComputeBlockSum(block: array<int>) returns (sum: int)
    ensures sum == Sum(block[..])
  {
    sum := 0;
    for i := 0 to block.Length
      invariant sum == Sum(block[..i])
    {
      assert block[..i + 1][..i] == block[..i];
      sum := sum + block[i];
    }
    assert block[..block.Length] == block[..];
  }

  method FillBlock(block: array<int>, value: int)
    modifies block
    ensures block[..] == Filled(block.Length, value)
  {
    for i := 0 to block.Length
      invariant forall j :: 0 <= j < i ==> block[j] == value
    {
      block[i] := value;
    }
  }

  /** What reading `block_id` from disk puts into a block. */
  ghost predicate Holds(block: array<int>, id: int)
    reads block
  {
    block[..] == Filled(BLOCK_WORDS, id)
  }

  // ---------------------------------------------------------------- touching ephemeral memory

  datatype Attempt = Completed | Revoked | Invalid

  /** `libephmem_attempt` around the sum: the sum counts only if it ran to completion. */
  method AttemptSum(block: array<int>, outcome: Attempt) returns (sum: int)
    ensures outcome.Completed? ==> sum == Sum(block[..])
  {
    sum := ComputeBlockSum(block);
    if outcome != Completed {
      sum := *;
    }
  }

  /** `libephmem_put` of a whole block: if it does not complete, the target may hold anything. */
  method Put(from: array<int>, to: array<int>, outcome: Attempt)
    requires from != to && from.Length == to.Length
    modifies to
    ensures outcome.Completed? ==> to[..] == from[..]
  {
    var stop := from.Length;
    if outcome != Completed {
      stop :| 0 <= stop <= from.Length;
    }
    for i := 0 to stop
      invariant to[..i] == from[..i]
    {
      to[i] := from[i];
    }
  }

  // ---------------------------------------------------------------- what a slot array holds

  /** Every slot that the reverse map assigns to a block holds that block's contents. */
  ghost predicate Contents(memory: seq<array<int>>, rmap: seq<int>)
    reads memory
  {
    |memory| == |rmap| && forall i :: 0 <= i < |rmap| && rmap[i] != NoBlock ==> Holds(memory[i], rmap[i])
  }

  ghost predicate Separate(memory: seq<array<int>>) {
    (forall i :: 0 <= i < |memory| ==> memory[i].Length == BLOCK_WORDS) &&
    forall i, j :: 0 <= i < j < |memory| ==> memory[i] != memory[j]
  }

  ghost predicate Apart(a: seq<array<int>>, b: seq<array<int>>) {
    forall i, j :: 0 <= i < |a| && 0 <= j < |b| ==> a[i] != b[j]
  }

  /** Without slot `i`. */
  function Without<T>(s: seq<T>, i: int): seq<T>
    requires 0 <= i < |s|
  {
    s[..i] + s[i + 1..]
  }

  lemma WithoutKeeps(memory: seq<array<int>>, rmap: seq<int>, other: seq<array<int>>, i: int)
    requires Separate(memory) && |memory| == |rmap| && Apart(other, memory) && 0 <= i < |memory|
    requires forall j :: 0 <= j < |rmap| && j != i && rmap[j] != NoBlock ==> Holds(memory[j], rmap[j])
    ensures Separate(Without(memory, i)) && Apart(other, Without(memory, i))
    ensures Contents(Without(memory, i), Without(rmap, i))
  {
    hide Holds;
    forall j | 0 <= j < |memory| - 1
      ensures Without(memory, i)[j] == memory[if j < i then j else j + 1]
      ensures Without(rmap, i)[j] == rmap[if j < i then j else j + 1]
    {
    }
  }

  // ---------------------------------------------------------------- the cache, seen from outside

  /** Which blocks are in which tier, and how many slots the ephemeral tier still has. */
  datatype View = View(main: set<int>, eph: set<int>, ephSlots: nat)

  /** One tier loses a slot to revocation and with it the blocks `gone`. */
  ghost predicate Shrunk(v: View, w: View, gone: set<int>) {
    v.ephSlots > 0 && gone <= v.eph && w == View(v.main, v.eph - gone, v.ephSlots - 1)
  }

  /** Making room: some block leaves main memory and, unless revocation strikes, enters the other tier. */
  ghost predicate Evicted(v: View, w: View, put: Attempt) {
    exists out :: out in v.main && EvictedTo(v, w, out, put)
  }

  /** `gone` is what had to leave the ephemeral tier: one block exactly if it was full. */
  ghost predicate EvictedTo(v: View, w: View, out: int, put: Attempt) {
    if v.ephSlots == 0 then w == v.(main := v.main - {out})
    else exists gone: set<int> ::
      gone <= v.eph && |gone| == (if |v.eph| < v.ephSlots then 0 else 1) &&
      MovedOut(View(v.main - {out}, v.eph - gone, v.ephSlots), w, out, put)
  }

  /** A block enters the ephemeral tier, or the slot meant for it is revoked. */
  ghost predicate MovedOut(v: View, w: View, id: int, put: Attempt) {
    if put.Completed? then w == v.(eph := v.eph + {id}) else Shrunk(v, w, {})
  }

  /** A miss: room is made if there is none, then the block enters main memory. */
  ghost predicate Missed(v: View, w: View, mainSlots: nat, id: int, put: Attempt) {
    exists u: View :: (if |v.main| < mainSlots then u == v else Evicted(v, u, put)) && w == u.(main := u.main + {id})
  }

  /** Everything one access may do to the cache, given how its attempts turn out. */
  ghost predicate Accessed(v: View, w: View, mainSlots: nat, id: int, hit: Attempt, put: Attempt) {
    if id in v.main || (id in v.eph && hit.Completed?) then w == v
    else if id in v.eph then exists u: View :: Shrunk(v, u, {id}) && Missed(u, w, mainSlots, id, put)
    else Missed(v, w, mainSlots, id, put)
  }

  class BlockCache {
    var mainSet: map<int, int>
    var mainRmap: seq<int>
    var ephSet: map<int, int>
    var ephRmap: seq<int>
    const main: seq<array<int>>
    var eph: seq<array<int>>

    /** The slots as `mmap` and `libephmem_alloc` supply them; no block is cached yet. */
    constructor (main: seq<array<int>>, eph: seq<array<int>>)
      requires 0 < |main| && Separate(main) && Separate(eph) && Apart(main, eph)
      ensures Valid() && this.main == main && Snapshot() == View({}, {}, |eph|)
      ensures this.eph == eph
    {
      this.main, this.eph := main, eph;
      mainSet, mainRmap := map[], seq(|main|, _ => NoBlock);
      ephSet, ephRmap := map[], seq(|eph|, _ => NoBlock);
    }

    ghost function MainTier(): Tier
      reads this
    {
      Tier(mainSet, mainRmap)
    }

    ghost function EphTier(): Tier
      reads this
    {
      Tier(ephSet, ephRmap)
    }

    ghost function Snapshot(): View
      reads this
    {
      View(mainSet.Keys, ephSet.Keys, |ephRmap|)
    }

    /** The slots are distinct blocks, and hold what the reverse maps say. */
    ghost predicate Stored()
      reads this, main, eph
    {
      && 0 < |main| && Separate(main) && Separate(eph) && Apart(main, eph)
      && Contents(main, mainRmap) && Contents(eph, ephRmap)
    }

    /** What holds whenever a new access begins. */
    ghost predicate Valid()
      reads this, main, eph
    {
      Stored() && Tidy(MainTier()) && Tidy(EphTier()) && mainSet.Keys !! ephSet.Keys
    }

    /** Room has been made: main-memory slot `index` is the one to fill. */
    ghost predicate Roomy(index: int)
      reads this, main, eph
    {
      Stored() && Inverse(MainTier()) && HoleAt(MainTier(), index) && Tidy(EphTier()) && mainSet.Keys !! ephSet.Keys
    }

    /** The maps of `handle_revoked_ephmem`. */
    method DropSlot(bad: int)
      requires 0 <= bad < |ephRmap| == |eph|
      requires Inverse(EphTier())
      modifies this`ephSet, this`ephRmap, this`eph
      ensures EphTier() == Drop(old(EphTier()), bad) && eph == Without(old(eph), bad)
    {
      hide Moved, Inverse;
      ghost var t := EphTier();
      var revoked := ephRmap[bad];
      if revoked != NoBlock {
        ephSet := ephSet - {revoked};
      }
      eph := eph[..bad] + eph[bad + 1..];
      ephRmap := ephRmap[..bad] + ephRmap[bad + 1..];
      NothingMoved(t, bad);
      for i := bad to |ephRmap|
        invariant eph == Without(old(eph), bad) && ephRmap == Without(t.rmap, bad)
        invariant ephSet == Moved(t, bad, i)
      {
        MoveNext(t, bad, i);
        if ephRmap[i] != NoBlock {
          ephSet := ephSet[ephRmap[i] := i];
        }
      }
    }

    /** `handle_revoked_ephmem` on the slot of a block that was just found there. */
    method LoseBlock(id: int)
      requires Valid() && id in ephSet
      modifies this`ephSet, this`ephRmap, this`eph
      ensures Valid() && Shrunk(old(Snapshot()), Snapshot(), {id}) && forall i :: 0 <= i < |eph| ==> eph[i] in old(eph)
    {
      hide Contents, Separate, Apart, Holds, Inverse, Packed;
      ghost var t, memory := EphTier(), eph;
      var bad := ephSet[id];
      SlotOf(t, id);
      ContentsBut(memory, t.rmap, bad);
      WithoutKeeps(memory, t.rmap, main, bad);
      DropOccupied(t, bad);
      DropInverse(t, bad);
      DropSlot(bad);
    }

    /** An ephemeral slot for the block on its way out of main memory, or -1 if there is none. */
    method MakeEphSlot() returns (index: int, ghost gone: set<int>)
      requires Stored() && Tidy(EphTier())
      modifies this`ephSet, this`ephRmap
      ensures Stored() && gone <= old(ephSet.Keys) && ephSet.Keys == old(ephSet.Keys) - gone && |ephRmap| == |eph|
      ensures |eph| == 0 ==> index == -1 && gone == {} && EphTier() == old(EphTier())
      ensures |eph| > 0 ==> 0 <= index && Inverse(EphTier()) && HoleAt(EphTier(), index)
      ensures |eph| > 0 ==> |gone| == if |old(ephSet)| < |eph| then 0 else 1
    {
      hide Separate, Apart, Holds, Inverse;
      index, gone := -1, {};
      ghost var t := EphTier();
      if |ephSet| >= |eph| && |eph| > 0 {
        index :| 0 <= index < |eph|;
        NoSlotEmpty(t, index);
        VacateKeeps(t, index);
        var evicted := ephRmap[index];
        if evicted == NoBlock {
          // The exit for a slot without a block.
          assert false;
        }
        gone := {evicted};
        ephSet := ephSet - {evicted};
        ephRmap := ephRmap[index := NoBlock];
      } else if |eph| > 0 {
        index := |ephSet|;
        NextFreeSlot(t);
      }
    }

    /** `libephmem_put` from a main-memory slot to a free ephemeral slot leaves all other slots alone. */
    method PutSlot(from: int, to: int, id: int, put: Attempt)
      requires Stored() && 0 <= from < |main| && Holds(main[from], id) && 0 <= to < |eph| && ephRmap[to] == NoBlock
      modifies {eph[to]}
      ensures Stored() && (put.Completed? ==> Holds(eph[to], id))
    {
      Put(main[from], eph[to], put);
    }

    /** `handle_revoked_ephmem` on a free slot. */
    method LoseFreeSlot(slot: int)
      requires Stored() && Inverse(EphTier()) && HoleAt(EphTier(), slot)
      modifies this`ephSet, this`ephRmap, this`eph
      ensures Stored() && Tidy(EphTier()) && forall i :: 0 <= i < |eph| ==> eph[i] in old(eph)
      ensures ephSet.Keys == old(ephSet.Keys) && |ephRmap| == |old(ephRmap)| - 1
    {
      hide Contents, Separate, Apart, Holds, Inverse, Packed;
      ghost var t, memory := EphTier(), eph;
      ContentsBut(memory, t.rmap, slot);
      WithoutKeeps(memory, t.rmap, main, slot);
      DropHole(t, slot);
      DropSlot(slot);
    }

    /** A block enters the free ephemeral slot that its contents have been put into. */
    method Adopt(slot: int, id: int)
      requires Stored() && Inverse(EphTier()) && HoleAt(EphTier(), slot)
      requires 0 <= id && id !in ephSet && |eph| == |ephRmap| && Holds(eph[slot], id)
      modifies this`ephSet, this`ephRmap
      ensures Stored() && Tidy(EphTier()) && ephSet.Keys == old(ephSet.Keys) + {id} && |ephRmap| == |old(ephRmap)|
    {
      hide Contents, Separate, Apart, Holds, Inverse, Packed;
      PlaceKeeps(EphTier(), id, slot);
      ContentsBut(eph, ephRmap, slot);
      ContentsWith(eph, ephRmap, slot, id);
      ephSet := ephSet[id := slot];
      ephRmap := ephRmap[slot := id];
    }

    /** The contents of main-memory slot `from` go to ephemeral slot `to`, unless it is revoked. */
    method MoveOut(from: int, to: int, id: int, put: Attempt) returns (ok: bool)
      requires Stored() && 0 <= from < |main| && Holds(main[from], id) && 0 <= id && id !in ephSet
      requires Inverse(EphTier()) && HoleAt(EphTier(), to)
      modifies this`ephSet, this`ephRmap, this`eph, eph
      ensures forall i :: 0 <= i < |eph| ==> eph[i] in old(eph)
      ensures ok == !put.Invalid?
      ensures ok ==> Stored() && Tidy(EphTier()) && MovedOut(old(Snapshot()), Snapshot(), id, put)
    {
      hide Separate, Apart, Holds, Inverse, Packed;
      PutSlot(from, to, id, put);
      match put {
        case Invalid => return false;
        case Revoked => LoseFreeSlot(to);
        case Completed => Adopt(to, id);
      }
      ok := true;
    }

    /** The block in main-memory slot `index` loses its mapping. */
    method Unmap(index: int)
      requires Stored() && Tidy(MainTier()) && |mainSet| >= |main| && 0 <= index < |main|
      modifies this`mainSet, this`mainRmap
      ensures Stored() && Inverse(MainTier()) && HoleAt(MainTier(), index)
      ensures |old(mainRmap)| == |main| && mainSet.Keys == old(mainSet.Keys) - {old(mainRmap)[index]}
    {
      hide Separate, Apart, Holds, Inverse;
      VacateKeeps(MainTier(), index);
      mainSet := mainSet - {mainRmap[index]};
      mainRmap := mainRmap[index := NoBlock];
    }

    /** Which block is in a slot of a full main memory. */
    lemma Occupant(index: int)
      requires Valid() && |mainSet| >= |main| && 0 <= index < |main|
      ensures |mainRmap| == |main| && mainRmap[index] in mainSet && 0 <= mainRmap[index]
      ensures Holds(main[index], mainRmap[index])
    {
      hide Separate, Apart, Holds;
      NoSlotEmpty(MainTier(), index);
    }

    /** The branch of the loop for a full main memory: slot `index` is evicted. */
    method MakeRoom(put: Attempt) returns (index: int, ok: bool)
      requires Valid() && |mainSet| >= |main|
      modifies this`mainSet, this`mainRmap, this`ephSet, this`ephRmap, this`eph, eph
      ensures forall i :: 0 <= i < |eph| ==> eph[i] in old(eph)
      ensures !put.Invalid? ==> ok
      ensures ok ==> Roomy(index) && Evicted(old(Snapshot()), Snapshot(), put)
      ensures ok ==> exists out :: out in old(mainSet) && mainSet.Keys == old(mainSet.Keys) - {out}
      ensures ok && put.Completed? && |old(ephRmap)| > 0 ==>
        ephSet.Keys - old(ephSet.Keys) == old(mainSet.Keys) - mainSet.Keys && |ephRmap| == |old(ephRmap)|
      ensures ok && |old(ephSet)| < |old(ephRmap)| ==> old(ephSet.Keys) <= ephSet.Keys
    {
      hide Separate, Apart, Holds, Inverse, Contents, HoleAt, Packed, MovedOut, Evicted, EvictedTo;
      ghost var v := Snapshot();
      SizesAgree(eph, ephRmap);
      index :| 0 <= index < |main|;
      Occupant(index);
      var evicted := mainRmap[index];
      if evicted == NoBlock {
        // The exit for a slot without a block.
        assert false;
      }
      var ephIndex;
      ghost var gone;
      ephIndex, gone := MakeEphSlot();
      Unmap(index);
      ok := true;
      ghost var u := Snapshot();
      if ephIndex != -1 {
        ok := MoveOut(index, ephIndex, evicted, put);
      }
      if ok {
        EvictedBy(v, u, Snapshot(), evicted, gone, put);
        EvictedGoes(v, u, Snapshot(), evicted, gone, put);
      }
    }

    /** `fill_block` into a free main-memory slot leaves all other slots alone. */
    method FillSlot(index: int, id: int)
      requires Stored() && 0 <= index < |main| && mainRmap[index] == NoBlock
      modifies {main[index]}
      ensures Stored() && Holds(main[index], id)
    {
      FillBlock(main[index], id);
    }

    /** The end of a miss: the block enters main memory. */
    method Fill(index: int, id: int) returns (sum: int)
      requires Roomy(index) && 0 <= id && id !in mainSet && id !in ephSet
      modifies this`mainSet, this`mainRmap, main
      ensures Valid() && sum == Sum(Filled(BLOCK_WORDS, id))
      ensures Snapshot() == old(Snapshot()).(main := old(mainSet.Keys) + {id})
    {
      hide Separate, Apart, Inverse, Contents, Sum, Holds, Filled, Packed;
      SizesAgree(main, mainRmap);
      PlaceKeeps(MainTier(), id, index);
      FillSlot(index, id);
      ContentsBut(main, mainRmap, index);
      ContentsWith(main, mainRmap, index, id);
      mainSet := mainSet[id := index];
      mainRmap := mainRmap[index := id];
      sum := ComputeBlockSum(main[index]);
      HeldSum(main[index], id);
    }

    /** Everything after both lookups have failed. */
    method ReadFromDisk(id: int, put: Attempt) returns (ok: bool, sum: int)
      requires Valid() && 0 <= id && id !in mainSet && id !in ephSet
      modifies this`mainSet, this`mainRmap, this`ephSet, this`ephRmap, this`eph, main, eph
      ensures forall i :: 0 <= i < |eph| ==> eph[i] in old(eph)
      ensures ok ==> Valid() && sum == Sum(Filled(BLOCK_WORDS, id))
      ensures !put.Invalid? ==> ok
      ensures ok ==> Missed(old(Snapshot()), Snapshot(), |main|, id, put)
      ensures ok ==> id in mainSet
    {
      hide Separate, Apart, Inverse, Contents, HoleAt, Packed, Sum, Filled, Evicted;
      ghost var v := Snapshot();
      var index;
      ok := true;
      if |mainSet| >= |main| && |main| > 0 {
        index, ok := MakeRoom(put);
        if !ok {
          return false, 0;
        }
        EvictedAvoids(v, Snapshot(), id, put);
      } else {
        index := |mainSet|;
        SizesAgree(main, mainRmap);
        NextFreeSlot(MainTier());
      }
      sum := Fill(index, id);
    }

    /** One turn of the main loop: a block is looked up, and read from disk if no tier has it. */
    method Access(id: int, hit: Attempt, put: Attempt) returns (ok: bool, sum: int)
      requires Valid() && 0 <= id
      modifies this`mainSet, this`mainRmap, this`ephSet, this`ephRmap, this`eph, main, eph
      ensures forall i :: 0 <= i < |eph| ==> eph[i] in old(eph)
      ensures ok ==> Valid() && sum == Sum(Filled(BLOCK_WORDS, id))
      ensures !hit.Invalid? && !put.Invalid? ==> ok
      ensures ok ==> Accessed(old(Snapshot()), Snapshot(), |main|, id, hit, put)
      ensures old(id in mainSet || (id in ephSet && hit.Completed?)) ==> Snapshot() == old(Snapshot())
      ensures ok && old(id !in mainSet && (id !in ephSet || hit.Revoked?)) ==> id in mainSet && id !in ephSet
    {
      hide Separate, Apart, Inverse, Contents, HoleAt, Packed, Sum, Filled, Missed, Holds;
      sum := 0;
      if id in mainSet {
        SlotOf(MainTier(), id);
        HeldBy(main, mainRmap, mainSet[id]);
        HeldSum(main[mainSet[id]], id);
        sum := ComputeBlockSum(main[mainSet[id]]);
        return true, sum;
      }
      if id in ephSet {
        SlotOf(EphTier(), id);
        HeldBy(eph, ephRmap, ephSet[id]);
        HeldSum(eph[ephSet[id]], id);
        sum := AttemptSum(eph[ephSet[id]], hit);
        match hit {
          case Invalid => return false, 0;
          case Completed => return true, sum;
          case Revoked => LoseBlock(id);
        }
      }
      ok, sum := ReadFromDisk(id, put);
    }

    /**
     * The main loop for as long as the program runs. Whatever is evicted or revoked in between,
     * each access that completes computes the sum of a block freshly read from disk.
     */
    method Serve(ids: seq<int>, hits: seq<Attempt>, puts: seq<Attempt>) returns (sums: seq<int>)
      requires Valid() && |hits| == |puts| == |ids| && forall i :: 0 <= i < |ids| ==> 0 <= ids[i]
      modifies this`mainSet, this`mainRmap, this`ephSet, this`ephRmap, this`eph, main, eph
      ensures |sums| <= |ids| && forall i :: 0 <= i < |sums| ==> sums[i] == BLOCK_WORDS * ids[i]
      ensures |sums| < |ids| ==> hits[|sums|].Invalid? || puts[|sums|].Invalid?
    {
      hide Valid, Accessed, Sum, Filled;
      sums := [];
      for i := 0 to |ids|
        invariant Valid() && |sums| == i && forall i :: 0 <= i < |eph| ==> eph[i] in old(eph)
        invariant forall j :: 0 <= j < i ==> sums[j] == BLOCK_WORDS * ids[j]
      {
        var ok, sum := Access(ids[i], hits[i], puts[i]);
        if !ok {
          return;
        }
        SumOfFilled(BLOCK_WORDS, ids[i]);
        sums := sums + [sum];
      }
    }
  }

  lemma SizesAgree(memory: seq<array<int>>, rmap: seq<int>)
    requires Contents(memory, rmap)
    ensures |memory| == |rmap|
  {
  }

  lemma HeldBy(memory: seq<array<int>>, rmap: seq<int>, i: int)
    requires Contents(memory, rmap) && 0 <= i < |rmap|
    ensures |memory| == |rmap| && (rmap[i] != NoBlock ==> Holds(memory[i], rmap[i]))
  {
  }

  lemma HeldSum(block: array<int>, id: int)
    requires Holds(block, id)
    ensures Sum(block[..]) == Sum(Filled(BLOCK_WORDS, id))
  {
  }

  lemma ContentsWith(memory: seq<array<int>>, rmap: seq<int>, i: int, id: int)
    requires |memory| == |rmap| && 0 <= i < |rmap| && Holds(memory[i], id)
    requires forall j :: 0 <= j < |rmap| && j != i && rmap[j] != NoBlock ==> Holds(memory[j], rmap[j])
    ensures Contents(memory, rmap[i := id])
  {
  }

  lemma EvictedBy(v: View, u: View, w: View, out: int, gone: set<int>, put: Attempt)
    requires out in v.main && gone <= v.eph && u == View(v.main - {out}, v.eph - gone, v.ephSlots)
    requires v.ephSlots > 0 ==> |gone| == if |v.eph| < v.ephSlots then 0 else 1
    requires if v.ephSlots == 0 then w == u && gone == {} else MovedOut(u, w, out, put)
    ensures Evicted(v, w, put) && (v.main !! v.eph ==> w.main !! w.eph)
  {
    assert v.ephSlots > 0 ==> EvictedTo(v, w, out, put);
  }

  /** Where the block that had to go is now, and that nobody else had to go without need. */
  lemma EvictedGoes(v: View, u: View, w: View, out: int, gone: set<int>, put: Attempt)
    requires out in v.main && v.main !! v.eph && u == View(v.main - {out}, v.eph - gone, v.ephSlots)
    requires v.ephSlots > 0 ==> |gone| == if |v.eph| < v.ephSlots then 0 else 1
    requires if v.ephSlots == 0 then w == u && gone == {} else MovedOut(u, w, out, put)
    ensures w.main == v.main - {out}
    ensures put.Completed? && v.ephSlots > 0 ==> w.eph - v.eph == {out} && w.ephSlots == v.ephSlots
    ensures |v.eph| < v.ephSlots ==> v.eph <= w.eph
  {
    if |v.eph| < v.ephSlots {
      assert gone == {};
    }
  }

  lemma EvictedAvoids(v: View, w: View, id: int, put: Attempt)
    requires Evicted(v, w, put) && id !in v.main && id !in v.eph
    ensures id !in w.main && id !in w.eph
  {
  }

  lemma SlotOf(t: Tier, id: int)
    requires Tidy(t) && id in t.slots
    ensures 0 <= t.slots[id] < |t.slots| && t.slots[id] < |t.rmap| && t.rmap[t.slots[id]] == id
  {
  }

  lemma ContentsBut(memory: seq<array<int>>, rmap: seq<int>, i: int)
    requires Contents(memory, rmap)
    ensures |memory| == |rmap|
    ensures forall j :: 0 <= j < |rmap| && j != i && rmap[j] != NoBlock ==> Holds(memory[j], rmap[j])
  {
  }

  lemma NothingMoved(t: Tier, bad: int)
    requires Inverse(t) && 0 <= bad < |t.rmap|
    ensures Moved(t, bad, bad) == if t.rmap[bad] == NoBlock then t.slots else t.slots - {t.rmap[bad]}
  {
  }

  lemma MoveNext(t: Tier, bad: int, i: int)
    requires Inverse(t) && 0 <= bad <= i < |t.rmap| - 1
    ensures Moved(t, bad, i + 1) ==
      if t.rmap[i + 1] == NoBlock then Moved(t, bad, i) else Moved(t, bad, i)[t.rmap[i + 1] := i]
  {
  }
}
