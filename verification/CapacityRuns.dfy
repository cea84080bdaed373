/**
 * No orphaned device capacity: whichever comes first, the add event or the release, one command
 * gives an offered chunk back, and only one.
 */
module CapacityRuns {
  import opened Granularity
  import opened ConsumerSlots
  import opened DynamicCapacity

  /** The areas of a consumer, and the extents that release commands have named so far. */
  datatype Device = Device(areas: map<nat, Flags>, commands: seq<Extent>)

  datatype Event =
    | Added(extents: seq<Extent>)
    | Released(offsets: seq<nat>)
    | Removed(areas: set<nat>)
    | Reserved(areas: set<nat>)

  predicate Touches(e: Extent, o: nat) {
    e.offset < o + G && o < e.End()
  }

  /** How many of the extents hold a byte of the chunk at `o`. */
  function Touching(extents: seq<Extent>, o: nat): nat {
    if extents == [] then 0
    else Touching(extents[..|extents| - 1], o) + if Touches(extents[|extents| - 1], o) then 1 else 0
  }

  function Commands(offsets: seq<nat>): (r: seq<Extent>)
    ensures |r| == |offsets| && forall i :: 0 <= i < |r| ==> r[i] == Extent(offsets[i], G)
  {
    if offsets == [] then []
    else Commands(offsets[..|offsets| - 1]) + [Extent(offsets[|offsets| - 1], G)]
  }

  ghost function After(s: Device, event: Event): Device {
    match event
    case Added(extents) => Device(AddAll(s.areas, extents), s.commands + AllGaps(s.areas.Keys, extents))
    case Released(offsets) =>
      var (areas, commanded) := ReleaseMany(s.areas, offsets);
      Device(areas, s.commands + Commands(commanded))
    case Removed(areas) => s.(areas := s.areas - areas)
    case Reserved(areas) => s.(areas := s.areas + map o | o in areas :: Flags(false, false))
  }

  /**
   * What may happen around the chunk at `o`: extents that touch it are chunk-aligned, and it is
   * not reserved again. Areas may be removed at any time, by a command's effect or because the
   * guest gave them back unasked; elsewhere anything may happen that keeps areas apart.
   */
  ghost predicate Allowed(size: nat, s: Device, event: Event, o: nat) {
    match event
    case Added(extents) => forall e :: e in extents && Touches(e, o) ==> Whole(e.offset) && Whole(e.len)
    case Released(_) => true
    case Removed(_) => true
    case Reserved(areas) => AreasOk(size, areas) && areas !! s.areas.Keys && o !in areas
  }

  ghost function Run(start: Device, events: seq<Event>): Device {
    if events == [] then start else After(Run(start, events[..|events| - 1]), events[|events| - 1])
  }

  ghost predicate Interleaving(size: nat, start: Device, events: seq<Event>, o: nat) {
    events == [] ||
    (Interleaving(size, start, events[..|events| - 1], o) &&
     Allowed(size, Run(start, events[..|events| - 1]), events[|events| - 1], o))
  }

  /** How often the chunk at `o` was added to the device. */
  function Adds(events: seq<Event>, o: nat): nat {
    if events == [] then 0
    else
      var last := events[|events| - 1];
      Adds(events[..|events| - 1], o) + if last.Added? then Touching(last.extents, o) else 0
  }

  /** How the orchestrator first gave up the chunk, or that the guest did, before or after it was added. */
  datatype GivenUp = NotYet | ByRelease | ByGuest(added: bool)

  function GivenUpIn(events: seq<Event>, o: nat): GivenUp {
    if events == [] then NotYet
    else
      var n := |events| - 1;
      NextGivenUp(GivenUpIn(events[..n], o), Adds(events[..n], o), events[n], o)
  }

  function NextGivenUp(before: GivenUp, adds: nat, last: Event, o: nat): GivenUp {
    if before != NotYet then before
    else if last.Released? && o in last.offsets then ByRelease
    else if last.Removed? && o in last.areas then ByGuest(adds > 0)
    else NotYet
  }

  /** Capacity is owed back if it was added and given up, unless the guest gave it back itself. */
  function Owed(adds: nat, given: GivenUp): nat {
    if given == NotYet || given == ByGuest(true) then 0 else adds
  }

  // ---------------------------------------------------------------- one extent and one chunk

  lemma {:induction false} TouchingSum(a: seq<Extent>, b: seq<Extent>, o: nat)
    ensures Touching(a + b, o) == Touching(a, o) + Touching(b, o)
  {
    if b == [] {
      assert a + b == a;
    } else {
      var n := |b| - 1;
      TouchingSum(a, b[..n], o);
      assert (a + b)[..|a + b| - 1] == a + b[..n];
    }
  }

  lemma {:induction false} TouchingNone(extents: seq<Extent>, o: nat)
    requires forall e :: e in extents ==> !Touches(e, o)
    ensures Touching(extents, o) == 0
  {
    if extents != [] {
      TouchingNone(extents[..|extents| - 1], o);
    }
  }

  /** Of several gaps in order, at most one holds a given chunk. */
  lemma {:induction false} TouchingOnce(gaps: seq<Extent>, from: nat, to: nat, o: nat)
    requires Within(gaps, from, to) && Separated(gaps)
    requires forall g :: g in gaps ==> (Touches(g, o) <==> g.Has(o))
    ensures Touching(gaps, o) == if InGap(gaps, o) then 1 else 0
  {
    hide Within, Separated, Touches;
    if gaps != [] {
      var n := |gaps| - 1;
      FrontGaps(gaps, from, to);
      TouchingOnce(gaps[..n], from, to, o);
      LastInGap(gaps[..n], gaps[n], o);
      assert gaps == gaps[..n] + [gaps[n]];
    }
  }

  lemma FrontGaps(gaps: seq<Extent>, from: nat, to: nat)
    requires gaps != [] && Within(gaps, from, to) && Separated(gaps)
    ensures var n := |gaps| - 1;
      && Within(gaps[..n], from, to) && Separated(gaps[..n])
      && (forall g :: g in gaps[..n] ==> g.End() <= gaps[n].offset)
  {
    forall g | g in gaps[..|gaps| - 1] ensures g.End() <= gaps[|gaps| - 1].offset {
      var i :| 0 <= i < |gaps| - 1 && gaps[i] == g;
    }
  }

  lemma LastInGap(front: seq<Extent>, last: Extent, o: nat)
    ensures InGap(front + [last], o) <==> InGap(front, o) || last.Has(o)
  {
    assert last in front + [last];
    assert forall g :: g in front ==> g in front + [last];
  }

  /** An aligned extent that touches an aligned chunk contains it. */
  lemma AlignedTouch(e: Extent, o: nat)
    requires Whole(e.offset) && Whole(e.End()) && Whole(o)
    ensures Touches(e, o) <==> e.Has(o)
    ensures e.Has(o) ==> e.Covers(o)
  {
    hide Whole;
    WholeArith(e.offset, o);
    WholeArith(o, e.offset);
    WholeArith(o, e.End());
  }

  lemma GapIsAligned(size: nat, areas: set<nat>, e: Extent, g: Extent)
    requires AreasOk(size, areas) && Whole(e.offset) && Whole(e.End()) && g in ExtentGaps(areas, e)
    ensures Whole(g.offset) && Whole(g.End())
  {
    hide Whole, ExtentGaps, InGap, Within, Separated;
    AddedExtentIsTiled(size, areas, e);
    if k :| k in Covered(areas, e) && k + G == g.offset {
      WholeNext(k);
    }
  }

  lemma GapInside(size: nat, areas: set<nat>, e: Extent, g: Extent, o: nat)
    requires AreasOk(size, areas) && g in ExtentGaps(areas, e)
    ensures Touches(g, o) ==> Touches(e, o)
  {
    hide Whole, ExtentGaps, InGap, Separated;
    AddedExtentIsTiled(size, areas, e);
    var gaps := ExtentGaps(areas, e);
    var i :| 0 <= i < |gaps| && gaps[i] == g;
  }

  /** No area other than the one at `o` overlaps the chunk at `o`. */
  lemma ChunkOwner(size: nat, areas: set<nat>, o: nat)
    requires AreasOk(size, areas) && Whole(o)
    ensures (forall k :: k in areas ==> !(k <= o < k + G)) <==> o !in areas
  {
    hide Whole;
    forall k | k in areas && k <= o < k + G ensures k == o {
      WholeArith(k, o);
    }
  }

  /** What one extent of an add event adds to the commands about the chunk at `o`. */
  lemma ExtentCommands(size: nat, areas: set<nat>, e: Extent, o: nat)
    requires AreasOk(size, areas) && Whole(o)
    requires Touches(e, o) ==> Whole(e.offset) && Whole(e.len)
    ensures Touching(ExtentGaps(areas, e), o) == if Touches(e, o) && o !in areas then 1 else 0
    ensures forall g :: g in ExtentGaps(areas, e) && Touches(g, o) ==> g.Covers(o)
    ensures Touches(e, o) ==> e.Covers(o)
  {
    hide Whole, ExtentGaps, InGap, Touching, AreasOk, Within, Separated, Touches;
    var gaps := ExtentGaps(areas, e);
    if Touches(e, o) {
      WholeArith(e.offset, e.len);
      AlignedTouch(e, o);
      forall g | g in gaps
        ensures Touches(g, o) <==> g.Has(o)
        ensures g.Has(o) ==> g.Covers(o)
      {
        GapIsAligned(size, areas, e, g);
        AlignedTouch(g, o);
      }
      AddedExtentIsTiled(size, areas, e);
      TouchingOnce(gaps, e.offset, e.End(), o);
      AlignedGapsAreUnallocated(size, areas, e, o);
      ChunkOwner(size, areas, o);
    } else {
      forall g | g in gaps ensures !Touches(g, o) {
        GapInside(size, areas, e, g, o);
      }
      TouchingNone(gaps, o);
    }
  }

  /** The same for a whole add event. */
  lemma {:induction false} AddCommands(size: nat, areas: set<nat>, extents: seq<Extent>, o: nat)
    requires AreasOk(size, areas) && Whole(o)
    requires forall e :: e in extents && Touches(e, o) ==> Whole(e.offset) && Whole(e.len)
    ensures Touching(AllGaps(areas, extents), o) == if o in areas then 0 else Touching(extents, o)
    ensures forall g :: g in AllGaps(areas, extents) && Touches(g, o) ==> g.Covers(o)
    ensures CoveredBySome(extents, o) <==> Touching(extents, o) > 0
  {
    hide Whole, ExtentGaps, AreasOk, Touches;
    if extents != [] {
      var n := |extents| - 1;
      var front, last := extents[..n], extents[n];
      assert extents == front + [last];
      AddCommands(size, areas, front, o);
      ExtentCommands(size, areas, last, o);
      TouchingSum(AllGaps(areas, front), ExtentGaps(areas, last), o);
      assert CoveredBySome(extents, o) <==> CoveredBySome(front, o) || last.Covers(o) by {
        assert extents[..n + 1] == extents;
        CoveredByOneMore(extents, n, o);
      }
      CoversTouches(last, o);
    }
  }

  lemma CoversTouches(e: Extent, o: nat)
    ensures e.Covers(o) ==> Touches(e, o)
  {
  }

  // ---------------------------------------------------------------- one release and one chunk

  /** What a release of `offsets` does to the area at `o`, and what it commands about it. */
  ghost predicate ReleasedAt(m: map<nat, Flags>, after: map<nat, Flags>, commanded: seq<nat>, o: nat, named: bool) {
    var hit := named && o in m && !m[o].released;
    && (o in after <==> o in m && !(hit && !m[o].added))
    && (o in after ==> after[o] == Flags(m[o].added, m[o].released || hit))
    && Times(commanded, o) == if hit && m[o].added then 1 else 0
  }

  lemma {:induction false} ReleaseCommands(m: map<nat, Flags>, offsets: seq<nat>, o: nat)
    requires o in m && m[o].released ==> m[o].added
    ensures ReleasedAt(m, ReleaseMany(m, offsets).0, ReleaseMany(m, offsets).1, o, o in offsets)
  {
    if offsets != [] {
      var n := |offsets| - 1;
      ReleaseCommands(m, offsets[..n], o);
      var (before, commanded) := ReleaseMany(m, offsets[..n]);
      ReleaseNextAt(m, before, commanded, o, o in offsets[..n], offsets[n]);
      assert offsets == offsets[..n] + [offsets[n]];
    }
  }

  lemma ReleaseNextAt(m: map<nat, Flags>, before: map<nat, Flags>, commanded: seq<nat>, o: nat, named: bool, next: nat)
    requires o in m && m[o].released ==> m[o].added
    requires ReleasedAt(m, before, commanded, o, named)
    ensures var (after, command) := ReleaseOne(before, next);
      ReleasedAt(m, after, if command then commanded + [next] else commanded, o, named || next == o)
  {
    assert (commanded + [next])[..|commanded|] == commanded;
  }

  function Times(offsets: seq<nat>, o: nat): nat {
    if offsets == [] then 0
    else Times(offsets[..|offsets| - 1], o) + if offsets[|offsets| - 1] == o then 1 else 0
  }

  /** Only offsets of areas are commanded. */
  lemma {:induction false} CommandedAreas(m: map<nat, Flags>, offsets: seq<nat>)
    ensures forall k :: k in ReleaseMany(m, offsets).1 ==> k in m
    ensures ReleaseMany(m, offsets).0.Keys <= m.Keys
  {
    if offsets != [] {
      CommandedAreas(m, offsets[..|offsets| - 1]);
    }
  }

  lemma {:induction false} ReleaseTouches(commanded: seq<nat>, o: nat)
    requires Whole(o) && forall k :: k in commanded ==> Whole(k)
    ensures Touching(Commands(commanded), o) == Times(commanded, o)
    ensures forall g :: g in Commands(commanded) && Touches(g, o) ==> g.Covers(o)
  {
    hide Whole, Touches;
    if commanded != [] {
      var n := |commanded| - 1;
      ReleaseTouches(commanded[..n], o);
      assert commanded[n] in commanded;
      assert Commands(commanded) == Commands(commanded[..n]) + [Extent(commanded[n], G)];
      ChunkTouch(commanded[n], o);
    }
  }

  lemma ChunkTouch(k: nat, o: nat)
    requires Whole(k) && Whole(o)
    ensures Touches(Extent(k, G), o) <==> k == o
    ensures k == o ==> Extent(k, G).Covers(o)
  {
    hide Whole;
    WholeArith(k, o);
    WholeArith(o, k);
  }

  // ---------------------------------------------------------------- all runs

  /** What every run keeps about the chunk at `o`, given how often it was added and how it was given up. */
  ghost predicate Fine(size: nat, s: Device, o: nat, adds: nat, given: GivenUp) {
    && AreasOk(size, s.areas.Keys)
    && (o in s.areas ==> s.areas[o] == Flags(adds > 0, given != NotYet))
    && (o in s.areas && given != NotYet ==> given == ByRelease && adds > 0)
    && (o !in s.areas ==> given != NotYet)
    && (given == ByGuest(true) ==> adds > 0)
    && Touching(s.commands, o) == Owed(adds, given)
    && (forall g :: g in s.commands && Touches(g, o) ==> g.Covers(o))
  }

  lemma AddedKeeps(size: nat, s: Device, extents: seq<Extent>, o: nat, adds: nat, given: GivenUp)
    requires Fine(size, s, o, adds, given) && Allowed(size, s, Added(extents), o) && Whole(o)
    requires adds + Touching(extents, o) <= 1
    ensures Fine(size, After(s, Added(extents)), o, adds + Touching(extents, o), given)
  {
    hide Whole, AreasOk, Touches, Touching, AllGaps, CoveredBySome, AddAll;
    var gaps := AllGaps(s.areas.Keys, extents);
    AddCommands(size, s.areas.Keys, extents, o);
    TouchingSum(s.commands, gaps, o);
    AddedFlags(s.areas, extents);
  }

  lemma AddedFlags(m: map<nat, Flags>, extents: seq<Extent>)
    ensures AddAll(m, extents).Keys == m.Keys
    ensures forall k :: k in m ==>
      AddAll(m, extents)[k] == Flags(m[k].added || CoveredBySome(extents, k), m[k].released)
  {
    hide CoveredBySome;
  }

  lemma ReleasedKeeps(size: nat, s: Device, offsets: seq<nat>, o: nat, adds: nat, given: GivenUp)
    requires Fine(size, s, o, adds, given) && Whole(o) && adds <= 1
    ensures Fine(size, After(s, Released(offsets)), o, adds, NextGivenUp(given, adds, Released(offsets), o))
  {
    hide Whole, Touches, Touching, ReleaseMany, Times, Commands;
    ReleaseCommands(s.areas, offsets, o);
    CommandedAreas(s.areas, offsets);
    var commanded := ReleaseMany(s.areas, offsets).1;
    ReleaseTouches(commanded, o);
    TouchingSum(s.commands, Commands(commanded), o);
  }

  lemma RemovedKeeps(size: nat, s: Device, areas: set<nat>, o: nat, adds: nat, given: GivenUp)
    requires Fine(size, s, o, adds, given) && adds <= 1
    ensures Fine(size, After(s, Removed(areas)), o, adds, NextGivenUp(given, adds, Removed(areas), o))
  {
    hide Whole, Touches, Touching;
  }

  lemma ReservedKeeps(size: nat, s: Device, areas: set<nat>, o: nat, adds: nat, given: GivenUp)
    requires Fine(size, s, o, adds, given) && Allowed(size, s, Reserved(areas), o)
    ensures Fine(size, After(s, Reserved(areas)), o, adds, given)
  {
    hide Whole, Touches, Touching;
  }

  lemma {:induction false} RunIsFine(size: nat, start: Device, events: seq<Event>, o: nat)
    requires Offered(size, start, o) && Interleaving(size, start, events, o) && Adds(events, o) <= 1
    ensures Fine(size, Run(start, events), o, Adds(events, o), GivenUpIn(events, o))
  {
    hide Fine, After, Allowed, Touching;
    if events == [] {
      OfferIsFine(size, start, o);
    } else {
      var before, last := events[..|events| - 1], events[|events| - 1];
      RunIsFine(size, start, before, o);
      var s, adds, given := Run(start, before), Adds(before, o), GivenUpIn(before, o);
      assert Run(start, events) == After(s, last);
      match last {
        case Added(extents) => AddedKeeps(size, s, extents, o, adds, given);
        case Released(offsets) => ReleasedKeeps(size, s, offsets, o, adds, given);
        case Removed(areas) => RemovedKeeps(size, s, areas, o, adds, given);
        case Reserved(areas) => ReservedKeeps(size, s, areas, o, adds, given);
      }
    }
  }

  /** The chunk at `o` has just been reserved and offered to the device. */
  ghost predicate Offered(size: nat, start: Device, o: nat) {
    && AreasOk(size, start.areas.Keys)
    && o in start.areas && start.areas[o] == Flags(false, false)
    && Touching(start.commands, o) == 0
  }

  lemma OfferIsFine(size: nat, start: Device, o: nat)
    requires Offered(size, start, o)
    ensures Fine(size, start, o, 0, NotYet)
  {
    hide Touches;
    TouchedByNone(start.commands, o);
  }

  lemma {:induction false} TouchedByNone(commands: seq<Extent>, o: nat)
    requires Touching(commands, o) == 0
    ensures forall g :: g in commands ==> !Touches(g, o)
  {
    hide Touches;
    if commands != [] {
      TouchedByNone(commands[..|commands| - 1], o);
      assert commands == commands[..|commands| - 1] + [commands[|commands| - 1]];
    }
  }

  /**
   * No orphan. An offered chunk that is added once, by an aligned extent, and not reserved again
   * is named by exactly one command once it has also been given up, however the releases, the
   * event and the removals interleave; by none before, and by none if the guest itself gave it
   * back after adding it and before any release. The command covers all of it.
   */
  lemma NoOrphanedCapacity(size: nat, start: Device, events: seq<Event>, o: nat)
    requires Offered(size, start, o) && Interleaving(size, start, events, o) && Adds(events, o) <= 1
    ensures Touching(Run(start, events).commands, o) == Owed(Adds(events, o), GivenUpIn(events, o))
    ensures forall g :: g in Run(start, events).commands && Touches(g, o) ==> g.Covers(o)
  {
    hide Run, Interleaving, Adds, GivenUpIn, Touches, Touching, Owed;
    RunIsFine(size, start, events, o);
  }

  predicate ReleasedIn(events: seq<Event>, o: nat) {
    exists e :: e in events && e.Released? && o in e.offsets
  }

  /** Once a chunk is released and added, in either order, only the guest can have spared the command. */
  lemma {:induction false} ReleasedIsGivenUp(events: seq<Event>, o: nat)
    requires ReleasedIn(events, o)
    ensures GivenUpIn(events, o) != NotYet
  {
    var n := |events| - 1;
    assert events == events[..n] + [events[n]];
    if ReleasedIn(events[..n], o) {
      ReleasedIsGivenUp(events[..n], o);
    } else {
      var e :| e in events && e.Released? && o in e.offsets;
      assert e !in events[..n];
    }
  }
}
