/**
 * One tier of the two-tier block cache, as values: a forward map from block to slot, a reverse
 * map from slot to block, and what each of the cache's operations does to the pair.
 */
module CacheTiers {
  /** The reverse map's mark for a slot without a block. */
  const NoBlock: int := -1

  datatype Tier = Tier(slots: map<int, int>, rmap: seq<int>) {
    function Blocks(): set<int> { slots.Keys }
  }

  /** The two maps are inverse to each other. */
  ghost predicate Inverse(t: Tier) {
    && (forall b :: b in t.slots ==> 0 <= b && 0 <= t.slots[b] < |t.rmap| && t.rmap[t.slots[b]] == b)
    && (forall i :: 0 <= i < |t.rmap| && t.rmap[i] != NoBlock ==> t.rmap[i] in t.slots && t.slots[t.rmap[i]] == i)
  }

  /** The occupied slots are exactly the first ones, as many as there are blocks. */
  ghost predicate Packed(t: Tier) {
    |t.slots| <= |t.rmap| && forall i :: 0 <= i < |t.rmap| ==> (t.rmap[i] != NoBlock <==> i < |t.slots|)
  }

  /** Slot `hole` is free, and with it the occupied slots would be the first ones. */
  ghost predicate HoleAt(t: Tier, hole: int) {
    0 <= hole <= |t.slots| < |t.rmap| &&
    forall i :: 0 <= i < |t.rmap| ==> (t.rmap[i] != NoBlock <==> i <= |t.slots| && i != hole)
  }

  ghost predicate Tidy(t: Tier) {
    Inverse(t) && Packed(t)
  }

  /** The block in slot `i` is dropped. */
  function Vacate(t: Tier, i: int): Tier
    requires 0 <= i < |t.rmap|
  {
    Tier(t.slots - {t.rmap[i]}, t.rmap[i := NoBlock])
  }

  function Place(t: Tier, b: int, i: int): Tier
    requires 0 <= i < |t.rmap|
  {
    Tier(t.slots[b := i], t.rmap[i := b])
  }

  /** Slot `i` is removed; the slots above it move down by one and their blocks with them. */
  function Drop(t: Tier, i: int): Tier
    requires 0 <= i < |t.rmap|
  {
    Tier(Moved(t, i, |t.rmap| - 1), t.rmap[..i] + t.rmap[i + 1..])
  }

  /** The forward map without the block of slot `i`, when slots up to `upto` have been moved down. */
  function Moved(t: Tier, i: int, upto: int): map<int, int>
    requires 0 <= i < |t.rmap|
  {
    map b | b in t.slots && b != t.rmap[i] :: if i < t.slots[b] <= upto then t.slots[b] - 1 else t.slots[b]
  }

  lemma EraseSize(m: map<int, int>, b: int)
    requires b in m
    ensures |m - {b}| == |m| - 1
  {
    assert (m - {b}).Keys == m.Keys - {b};
    assert |(m - {b}).Keys| == |m| - 1;
  }

  lemma InsertSize(m: map<int, int>, b: int, i: int)
    requires b !in m
    ensures |m[b := i]| == |m| + 1
  {
    assert m[b := i].Keys == m.Keys + {b};
    assert |m[b := i].Keys| == |m| + 1;
  }

  /** A tidy tier with room has its next free slot at `size()`. */
  lemma NextFreeSlot(t: Tier)
    requires Tidy(t) && |t.slots| < |t.rmap|
    ensures HoleAt(t, |t.slots|) && t.rmap[|t.slots|] == NoBlock
  {
  }

  /** In a full tidy tier every slot holds a block. */
  lemma NoSlotEmpty(t: Tier, i: int)
    requires Tidy(t) && |t.slots| >= |t.rmap| && 0 <= i < |t.rmap|
    ensures t.rmap[i] != NoBlock && t.rmap[i] in t.slots && t.slots[t.rmap[i]] == i
  {
  }

  lemma VacateKeeps(t: Tier, i: int)
    requires Tidy(t) && |t.slots| == |t.rmap| && 0 <= i < |t.rmap|
    ensures Inverse(Vacate(t, i)) && HoleAt(Vacate(t, i), i)
    ensures Vacate(t, i).Blocks() == t.Blocks() - {t.rmap[i]} && t.rmap[i] in t.Blocks()
  {
    EraseSize(t.slots, t.rmap[i]);
  }

  lemma PlaceKeeps(t: Tier, b: int, i: int)
    requires Inverse(t) && HoleAt(t, i) && b !in t.slots && 0 <= b
    ensures Tidy(Place(t, b, i)) && Place(t, b, i).Blocks() == t.Blocks() + {b}
  {
    InsertSize(t.slots, b, i);
  }

  /** Removing a slot keeps the maps inverse; the block in it, if any, is gone and no other. */
  lemma DropInverse(t: Tier, i: int)
    requires Inverse(t) && 0 <= i < |t.rmap|
    ensures Inverse(Drop(t, i)) && Drop(t, i).Blocks() == t.Blocks() - {t.rmap[i]}
  {
    hide Moved;
    var d, n := Drop(t, i), |t.rmap| - 1;
    MovedSlots(t, i, n);
    forall j | 0 <= j < n ensures d.rmap[j] == t.rmap[if j < i then j else j + 1] {
    }
    forall b | b in d.slots ensures 0 <= b && 0 <= d.slots[b] < n && d.rmap[d.slots[b]] == b {
      assert t.slots[b] != i;
    }
  }

  lemma MovedSlots(t: Tier, i: int, upto: int)
    requires 0 <= i < |t.rmap|
    ensures Moved(t, i, upto).Keys == t.slots.Keys - {t.rmap[i]}
    ensures forall b :: b in t.slots && b != t.rmap[i] ==>
      Moved(t, i, upto)[b] == if i < t.slots[b] <= upto then t.slots[b] - 1 else t.slots[b]
  {
  }

  /** What is left of the occupied slots below and above the one that went. */
  lemma DropPacked(t: Tier, i: int, n: int)
    requires 0 <= i <= n && i < |t.rmap|
    requires forall j :: 0 <= j < |t.rmap| && j != i ==> (t.rmap[j] != NoBlock <==> j <= n)
    ensures forall j :: 0 <= j < |t.rmap| - 1 ==> (Drop(t, i).rmap[j] != NoBlock <==> j < n)
  {
    forall j | 0 <= j < |t.rmap| - 1 ensures Drop(t, i).rmap[j] == t.rmap[if j < i then j else j + 1] {
    }
  }

  lemma DropOccupied(t: Tier, i: int)
    requires Tidy(t) && 0 <= i < |t.slots|
    ensures Tidy(Drop(t, i))
  {
    hide Moved;
    DropInverse(t, i);
    DropPacked(t, i, |t.slots| - 1);
    EraseSize(t.slots, t.rmap[i]);
    SameSize(Drop(t, i).slots, t.slots - {t.rmap[i]});
  }

  lemma SameSize(a: map<int, int>, b: map<int, int>)
    requires a.Keys == b.Keys
    ensures |a| == |b|
  {
    assert |a| == |a.Keys| && |b| == |b.Keys|;
  }

  lemma DropHole(t: Tier, i: int)
    requires Inverse(t) && HoleAt(t, i)
    ensures Tidy(Drop(t, i)) && Drop(t, i).Blocks() == t.Blocks()
  {
    hide Moved;
    DropInverse(t, i);
    assert t.rmap[i] == NoBlock;
    DropPacked(t, i, |t.slots|);
    SameSize(Drop(t, i).slots, t.slots);
  }
}
