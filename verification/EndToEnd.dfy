/**
 * One request from end to end: libephmem rounds and asks, ephemerald forwards, the orchestrator
 * reserves and answers chunk by chunk, and ephemerald folds the answers into one reply.
 */
module EndToEnd {
  import opened Granularity
  import opened Allocation
  import opened Collections
  import opened ConsumerSlots
  import opened DynamicCapacity
  import opened Ephemerald

  /** One `EphMemResponse` of the orchestrator. */
  datatype Response = Response(g: Granted, more: bool)

  /** The responses for a list of live allocations: every one but the last announces another. */
  function Responses(offsets: seq<nat>): (r: seq<Response>)
    ensures |r| == |offsets|
  {
    seq(|offsets|, i requires 0 <= i < |offsets| => Response(Granted(offsets[i], G), i + 1 < |offsets|))
  }

  function Offsets(allocs: seq<EphAllocation>): (r: seq<nat>)
    ensures |r| == |allocs|
  {
    seq(|allocs|, i requires 0 <= i < |allocs| => allocs[i].consumerOffset)
  }

  // ---------------------------------------------------------------- the orchestrator's half

  /** `send_consumer_response`; `room` is how many messages the connection takes if it breaks. */
  method SendConsumerResponse(live: seq<EphAllocation>, room: Option<nat>) returns (ok: bool, sent: seq<Response>)
    ensures ok == (room.None? || |live| <= room.value)
    ensures sent == if ok then Responses(Offsets(live)) else Responses(Offsets(live))[..room.value]
    ensures |sent| == if ok then |live| else room.value
    ensures forall j :: 0 <= j < |sent| ==> sent[j] == Response(Granted(live[j].consumerOffset, G), j + 1 < |live|)
  {
    sent := [];
    var i := 0;
    while i < |live|
      invariant 0 <= i <= |live| && sent == Responses(Offsets(live))[..i]
      invariant room.Some? ==> i <= room.value || i == 0
    {
      var more := i + 1 < |live|;
      if room == Some(i) {
        return false, sent;
      }
      sent := sent + [Response(Granted(live[i].consumerOffset, G), more)];
      i := i + 1;
    }
    return true, sent;
  }

  datatype Error = TooLargeToAlign | NoSpace | NoDonor | NotAdded | NotSent

  /** The allocations that are live in the end, in order. */
  function Live(allocs: seq<EphAllocation>, live: nat -> bool): seq<EphAllocation> {
    if allocs == [] then []
    else
      var last := allocs[|allocs| - 1];
      Live(allocs[..|allocs| - 1], live) + if live(last.consumerOffset) then [last] else []
  }

  lemma {:induction false} LiveCount(allocs: seq<EphAllocation>, live: nat -> bool)
    ensures |Live(allocs, live)| <= |allocs|
    ensures forall a :: a in Live(allocs, live) <==> a in allocs && live(a.consumerOffset)
  {
    if allocs != [] {
      LiveCount(allocs[..|allocs| - 1], live);
      assert allocs == allocs[..|allocs| - 1] + [allocs[|allocs| - 1]];
    }
  }

  lemma FromLive(allocs: seq<EphAllocation>, live: nat -> bool, a: EphAllocation) returns (i: nat)
    requires a in Live(allocs, live)
    ensures i < |allocs| && allocs[i] == a && live(a.consumerOffset)
  {
    LiveCount(allocs, live);
    i :| 0 <= i < |allocs| && allocs[i] == a;
  }

  /** At which positions the live ones are. */
  function LivePicks(allocs: seq<EphAllocation>, live: nat -> bool): (r: seq<nat>)
    ensures |r| == |Live(allocs, live)|
  {
    if allocs == [] then []
    else
      var n := |allocs| - 1;
      LivePicks(allocs[..n], live) + if live(allocs[n].consumerOffset) then [n] else []
  }

  /** The live ones are taken out in order, each position once. */
  lemma {:induction false} LiveInOrder(allocs: seq<EphAllocation>, live: nat -> bool)
    ensures var picks := LivePicks(allocs, live);
      && StrictlyAscending(picks)
      && (forall j :: 0 <= j < |picks| ==> picks[j] < |allocs| && Live(allocs, live)[j] == allocs[picks[j]])
  {
    if allocs != [] {
      var n := |allocs| - 1;
      LiveInOrder(allocs[..n], live);
      PickNext(allocs, n, LivePicks(allocs[..n], live), Live(allocs[..n], live));
    }
  }

  /** One more position picked behind the others. */
  lemma PickNext(allocs: seq<EphAllocation>, n: nat, picks: seq<nat>, some: seq<EphAllocation>)
    requires n < |allocs| && |picks| == |some| && StrictlyAscending(picks)
    requires forall j :: 0 <= j < |picks| ==> picks[j] < n && some[j] == allocs[..n][picks[j]]
    ensures StrictlyAscending(picks + [n])
    ensures forall j :: 0 <= j < |picks| + 1 ==>
      (picks + [n])[j] < |allocs| && (some + [allocs[n]])[j] == allocs[(picks + [n])[j]]
    ensures forall j :: 0 <= j < |picks| ==> some[j] == allocs[picks[j]]
  {
  }

  /** The allocations that `backed` of the reserved ones, in order, leave live. */
  function LeftLive(rsvd: seq<EphAllocation>, backed: nat, live: nat -> bool): seq<EphAllocation> {
    Live(rsvd[..Min(backed, |rsvd|)], live)
  }

  function Negated(live: nat -> bool): nat -> bool {
    (o: nat) => !live(o)
  }

  /** The reservations that the search for donors did not get to. */
  function Unprocessed(rsvd: seq<EphAllocation>, backed: nat): seq<EphAllocation> {
    rsvd[Min(backed, |rsvd|)..]
  }

  /** Those that it got to and that came to nothing. */
  function Lost(rsvd: seq<EphAllocation>, backed: nat, live: nat -> bool): seq<EphAllocation> {
    Live(rsvd[..Min(backed, |rsvd|)], Negated(live))
  }

  lemma {:induction false} LiveOffsets(allocs: seq<EphAllocation>, live: nat -> bool)
    ensures OffsetsOf(Live(allocs, live)) + OffsetsOf(Live(allocs, Negated(live))) == OffsetsOf(allocs)
    ensures OffsetsOf(Live(allocs, live)) !! OffsetsOf(Live(allocs, Negated(live)))
  {
    hide Live;
    LiveCount(allocs, live);
    LiveCount(allocs, Negated(live));
    var p, q := OffsetsOf(Live(allocs, live)), OffsetsOf(Live(allocs, Negated(live)));
    forall o ensures o in p ==> live(o) && o in OffsetsOf(allocs)
             ensures o in q ==> !live(o) && o in OffsetsOf(allocs)
             ensures o in OffsetsOf(allocs) ==> o in p || o in q {
      if o in OffsetsOf(allocs) {
        var a :| a in allocs && a.consumerOffset == o;
        assert live(o) ==> a in Live(allocs, live);
        assert !live(o) ==> a in Live(allocs, Negated(live));
      }
    }
  }

  lemma OffsetElems(allocs: seq<EphAllocation>)
    ensures forall o :: o in Offsets(allocs) <==> o in OffsetsOf(allocs)
  {
    forall a | a in allocs ensures a.consumerOffset in Offsets(allocs) {
      var i :| 0 <= i < |allocs| && allocs[i] == a;
      assert Offsets(allocs)[i] == a.consumerOffset;
    }
  }

  /** The reservations sit at offsets of their own. */
  ghost predicate OwnOffsets(allocs: seq<EphAllocation>) {
    forall i, j :: 0 <= i < j < |allocs| ==> allocs[i].consumerOffset != allocs[j].consumerOffset
  }

  lemma NewOffsets(allocs: seq<EphAllocation>, areas: map<nat, EphAllocation>, vm: nat, firstId: nat)
    requires NewAreas(allocs, areas, vm, firstId)
    ensures OwnOffsets(allocs)
    ensures forall o :: o in OffsetsOf(allocs) ==> o in areas && !FlagsOf(areas)[o].released
  {
    forall i, j | 0 <= i < j < |allocs| ensures allocs[i].consumerOffset != allocs[j].consumerOffset {
      assert NewAt(allocs[i], vm, allocs[i].consumerOffset, firstId + i);
      assert NewAt(allocs[j], vm, allocs[j].consumerOffset, firstId + j);
    }
    forall a | a in allocs ensures a.consumerOffset in areas && !FlagsOf(areas)[a.consumerOffset].released {
      var j :| 0 <= j < |allocs| && allocs[j] == a;
      assert NewAt(allocs[j], vm, allocs[j].consumerOffset, firstId + j);
    }
  }

  /** Three parts of a reservation, told apart by their offsets. */
  lemma Parts(rsvd: seq<EphAllocation>, backed: nat, live: nat -> bool)
    requires OwnOffsets(rsvd)
    ensures var left, lost, rest := OffsetsOf(LeftLive(rsvd, backed, live)), OffsetsOf(Lost(rsvd, backed, live)),
                                    OffsetsOf(Unprocessed(rsvd, backed));
      OffsetsOf(rsvd) == left + lost + rest && left !! lost && left !! rest && lost !! rest
  {
    var n := Min(backed, |rsvd|);
    LiveOffsets(rsvd[..n], live);
    assert rsvd == rsvd[..n] + rsvd[n..];
    assert OffsetsOf(rsvd) == OffsetsOf(rsvd[..n]) + OffsetsOf(rsvd[n..]);
    forall a, b | a in rsvd[..n] && b in rsvd[n..] ensures a.consumerOffset != b.consumerOffset {
      var i :| 0 <= i < n && rsvd[i] == a;
      var j :| n <= j < |rsvd| && rsvd[j] == b;
    }
  }

  /** Reservations that nobody has released yet are released, and nothing else changes. */
  method ReleaseSome(c: ConsumerState, some: seq<EphAllocation>)
    requires Filed(c.areas)
    requires forall o :: o in OffsetsOf(some) ==> o in FlagsOf(c.areas) && !FlagsOf(c.areas)[o].released
    modifies c`areas, c.areas.Values`releaseRequested
    ensures Filed(c.areas) && FlagsOf(c.areas) == old(FlagsOf(c.areas)) - OffsetsOf(some)
    ensures forall k :: k in c.areas ==> k in old(c.areas) && c.areas[k] == old(c.areas[k])
  {
    hide Offsets, OffsetsOf, FlagsOf, Filed;
    OffsetElems(some);
    FlagValues(c.areas);
    ReleaseReservedMemory(c, Offsets(some));
    FlagKeys(c.areas);
    StillFiled(old(c.areas), c.areas);
  }

  /** What happened to a request's reservations between the search for donors and the response. */
  datatype Course = Course(
    backed: nat,              // how many the search for donors processed
    committed: nat -> bool,   // offsets still committed and not released when the search is over
    added: bool,              // the device command was accepted
    live: nat -> bool)        // offsets live after the wait for the device
  {
    /** The offsets that are answered for. */
    function Answered(): nat -> bool {
      (o: nat) => committed(o) && added && live(o)
    }
  }

  /** The reservation was processed, is still committed, was added, and is live after the wait. */
  ghost predicate Survived(rsvd: seq<EphAllocation>, course: Course, i: int) {
    && 0 <= i < |rsvd| && i < course.backed && course.added
    && course.committed(rsvd[i].consumerOffset) && course.live(rsvd[i].consumerOffset)
  }

  /** The reservation was processed and is still committed, so the device is asked to add it. */
  ghost predicate Backed(rsvd: seq<EphAllocation>, course: Course, i: int) {
    0 <= i < |rsvd| && i < course.backed && course.committed(rsvd[i].consumerOffset)
  }

  /** Exactly the survivors have an area. */
  ghost predicate OnlySurvivors(rsvd: seq<EphAllocation>, course: Course, areas: set<nat>) {
    forall i :: 0 <= i < |rsvd| ==> (rsvd[i].consumerOffset in areas <==> Survived(rsvd, course, i))
  }

  /** What the response names: survivors only, each chunk once, with the last one marked. */
  ghost predicate NamesSurvivors(rsvd: seq<EphAllocation>, course: Course, sent: seq<Response>) {
    && (forall m :: m in sent ==> m.g.size == G)
    && (forall m :: m in sent ==> exists i :: Survived(rsvd, course, i) && rsvd[i].consumerOffset == m.g.offset)
    && (forall j, k :: 0 <= j < k < |sent| ==> sent[j].g.offset != sent[k].g.offset)
  }

  /** All of them. */
  ghost predicate NamesAll(rsvd: seq<EphAllocation>, course: Course, sent: seq<Response>) {
    && (forall i :: Survived(rsvd, course, i) ==> exists m :: m in sent && m.g.offset == rsvd[i].consumerOffset)
    && (forall j :: 0 <= j < |sent| ==> (sent[j].more <==> j + 1 < |sent|))
  }

  lemma OfferedAre(rsvd: seq<EphAllocation>, course: Course)
    ensures Offered(rsvd, course) != [] <==> exists i :: Backed(rsvd, course, i)
  {
    var some := rsvd[..Min(course.backed, |rsvd|)];
    LiveCount(some, course.committed);
    if i :| Backed(rsvd, course, i) {
      assert some[i] == rsvd[i] && rsvd[i] in some;
      assert rsvd[i] in Offered(rsvd, course);
    }
    if Offered(rsvd, course) != [] {
      var a := Offered(rsvd, course)[0];
      assert a in Offered(rsvd, course);
      var i := FromLive(some, course.committed, a);
      assert Backed(rsvd, course, i);
    }
  }

  /** The offsets that the response names are those of the survivors. */
  lemma FinalAre(rsvd: seq<EphAllocation>, course: Course)
    ensures forall i :: Survived(rsvd, course, i) ==> rsvd[i] in Final(rsvd, course)
    ensures forall a :: a in Final(rsvd, course) ==> exists i :: Survived(rsvd, course, i) && rsvd[i] == a
    ensures Final(rsvd, course) != [] <==> exists i :: Survived(rsvd, course, i)
  {
    var some := rsvd[..Min(course.backed, |rsvd|)];
    LiveCount(some, course.Answered());
    forall i | Survived(rsvd, course, i) ensures rsvd[i] in Final(rsvd, course) {
      assert some[i] == rsvd[i] && rsvd[i] in some;
    }
    forall a | a in Final(rsvd, course) ensures exists i :: Survived(rsvd, course, i) && rsvd[i] == a {
      var i := FromLive(some, course.Answered(), a);
      assert Survived(rsvd, course, i);
    }
    if Final(rsvd, course) != [] {
      assert Final(rsvd, course)[0] in Final(rsvd, course);
    }
  }

  lemma FinalOwn(rsvd: seq<EphAllocation>, course: Course)
    requires OwnOffsets(rsvd)
    ensures OwnOffsets(Final(rsvd, course))
  {
    hide Live, LivePicks;
    var some := rsvd[..Min(course.backed, |rsvd|)];
    var picks := LivePicks(some, course.Answered());
    LiveInOrder(some, course.Answered());
    forall j, k | 0 <= j < k < |picks|
      ensures Final(rsvd, course)[j].consumerOffset != Final(rsvd, course)[k].consumerOffset
    {
      assert picks[j] < picks[k];
    }
  }

  /** Which reservations still have an area, given that exactly the final ones do. */
  lemma AreasAre(rsvd: seq<EphAllocation>, course: Course, was: set<nat>, now: set<nat>)
    requires OwnOffsets(rsvd) && was !! OffsetsOf(rsvd) && now == was + OffsetsOf(Final(rsvd, course))
    ensures OnlySurvivors(rsvd, course, now)
  {
    hide Final;
    FinalAre(rsvd, course);
    forall i | 0 <= i < |rsvd| ensures rsvd[i].consumerOffset in now <==> Survived(rsvd, course, i) {
      assert rsvd[i].consumerOffset in OffsetsOf(rsvd);
      if a :| a in Final(rsvd, course) && a.consumerOffset == rsvd[i].consumerOffset {
        var j :| Survived(rsvd, course, j) && rsvd[j] == a;
        assert i == j;
      }
    }
  }

  /** The first messages of the response for `left`. */
  ghost predicate SentTo(left: seq<EphAllocation>, sent: seq<Response>) {
    |sent| <= |left| &&
    forall j :: 0 <= j < |sent| ==> sent[j] == Response(Granted(left[j].consumerOffset, G), j + 1 < |left|)
  }

  lemma NothingSent(left: seq<EphAllocation>)
    ensures SentTo(left, [])
  {
  }

  lemma FinalIs(rsvd: seq<EphAllocation>, course: Course)
    ensures Final(rsvd, course) == LeftLive(rsvd, course.backed, course.Answered())
  {
  }

  lemma SentAre(rsvd: seq<EphAllocation>, course: Course, sent: seq<Response>)
    requires OwnOffsets(rsvd) && SentTo(Final(rsvd, course), sent)
    ensures NamesSurvivors(rsvd, course, sent)
    ensures |sent| == |Final(rsvd, course)| ==> NamesAll(rsvd, course, sent)
  {
    hide Final;
    FinalAre(rsvd, course);
    FinalOwn(rsvd, course);
    forall m | m in sent ensures exists i :: Survived(rsvd, course, i) && rsvd[i].consumerOffset == m.g.offset {
      var j :| 0 <= j < |sent| && sent[j] == m;
      assert Final(rsvd, course)[j] in Final(rsvd, course);
    }
    if |sent| == |Final(rsvd, course)| {
      forall i | Survived(rsvd, course, i) ensures exists m :: m in sent && m.g.offset == rsvd[i].consumerOffset {
        var j :| 0 <= j < |sent| && Final(rsvd, course)[j] == rsvd[i];
        assert sent[j] in sent;
      }
    }
  }

  /**
   * How a request ends: it succeeds only with a survivor, and then names all survivors and keeps
   * their areas and no others of the reservation; if it fails, none of the reservation is left.
   * Nothing but a survivor is ever named. Why it fails depends on the course alone.
   */
  ghost predicate Ends(rsvd: seq<EphAllocation>, course: Course, areas: set<nat>, error: Option<Error>,
                       sent: seq<Response>) {
    && NamesSurvivors(rsvd, course, sent)
    && (error.None? ==> NamesAll(rsvd, course, sent) && OnlySurvivors(rsvd, course, areas))
    && (error.None? || error == Some(NotSent) ==> exists i :: Survived(rsvd, course, i))
    && (error.Some? ==> forall i :: 0 <= i < |rsvd| ==> rsvd[i].consumerOffset !in areas)
    && (error == Some(NoSpace) <==> rsvd == [])
    && (error == Some(NotAdded) <==> !course.added && exists i :: Backed(rsvd, course, i))
    && (error == Some(NoDonor) <==>
          (rsvd != [] && (course.added || forall i :: !Backed(rsvd, course, i)) &&
           forall i :: !Survived(rsvd, course, i)))
    && (error != Some(NotSent) && error.Some? ==> sent == [])
  }

  /** Nothing is answered for that was lost on the way. */
  lemma NamedAreLive(rsvd: seq<EphAllocation>, course: Course, areas: set<nat>, error: Option<Error>,
                     sent: seq<Response>)
    requires Ends(rsvd, course, areas, error, sent)
    ensures sent != [] ==> course.added
    ensures forall m :: m in sent ==> course.committed(m.g.offset) && course.live(m.g.offset) && m.g.size == G
  {
    assert sent != [] ==> sent[0] in sent;
  }

  lemma EndsAs(rsvd: seq<EphAllocation>, course: Course, was: set<nat>, areas: set<nat>, error: Option<Error>,
               sent: seq<Response>)
    requires OwnOffsets(rsvd) && was !! OffsetsOf(rsvd) && SentTo(Final(rsvd, course), sent)
    requires areas == if error.None? then was + OffsetsOf(Final(rsvd, course)) else was
    requires error.None? ==> |sent| == |Final(rsvd, course)|
    requires if Refusal(rsvd, course).Some? then error == Refusal(rsvd, course) && sent == []
             else error.None? || error == Some(NotSent)
    ensures Ends(rsvd, course, areas, error, sent)
    ensures error != Some(TooLargeToAlign) && (error.None? ==> Final(rsvd, course) != [])
  {
    hide OwnOffsets, Final, Offered, OnlySurvivors, NamesSurvivors, NamesAll, SentTo, Refusal;
    RefusalIs(rsvd, course);
    FinalAre(rsvd, course);
    OfferedAre(rsvd, course);
    SentAre(rsvd, course, sent);
    if error.None? {
      AreasAre(rsvd, course, was, areas);
    }
    forall i | error.Some? && 0 <= i < |rsvd| ensures rsvd[i].consumerOffset !in areas {
      assert rsvd[i].consumerOffset in OffsetsOf(rsvd);
    }
  }

  /** The reservations that the device is asked to add. */
  function Offered(rsvd: seq<EphAllocation>, course: Course): seq<EphAllocation> {
    LeftLive(rsvd, course.backed, course.committed)
  }

  /** Those of them that the response names. */
  function Final(rsvd: seq<EphAllocation>, course: Course): seq<EphAllocation> {
    LeftLive(rsvd, course.backed, course.Answered())
  }

  lemma NoneOffered(course: Course)
    ensures Offered([], course) == [] && Final([], course) == []
  {
  }

  lemma {:induction false} LiveWithin(allocs: seq<EphAllocation>, some: nat -> bool, all: nat -> bool)
    requires forall o :: some(o) ==> all(o)
    ensures Live(allocs, all) == [] ==> Live(allocs, some) == []
  {
    if allocs != [] {
      LiveWithin(allocs[..|allocs| - 1], some, all);
    }
  }

  lemma {:induction false} NoneAnswered(allocs: seq<EphAllocation>, live: nat -> bool)
    requires forall o :: !live(o)
    ensures Live(allocs, live) == []
  {
    if allocs != [] {
      NoneAnswered(allocs[..|allocs| - 1], live);
    }
  }

  lemma FinalWithin(rsvd: seq<EphAllocation>, course: Course)
    ensures Offered(rsvd, course) == [] || !course.added ==> Final(rsvd, course) == []
  {
    var some := rsvd[..Min(course.backed, |rsvd|)];
    if !course.added {
      NoneAnswered(some, course.Answered());
    } else {
      LiveWithin(some, course.Answered(), course.committed);
    }
  }

  /**
   * `handle_eph_mem_request` when no other thread touches this consumer's areas; `course` is what
   * donors and the device make of the request, `room` how many messages the connection takes.
   * What the response does not name is released.
   */
  method HandleEphMemRequest(c: ConsumerState, ids: IdCounter, size: nat, course: Course, room: Option<nat>)
    returns (error: Option<Error>, sent: seq<Response>, ghost rsvd: seq<EphAllocation>)
    requires c.Valid()
    modifies c`areas, ids, c.areas.Values`releaseRequested
    ensures NextMultiple(size).None? ==> error == Some(TooLargeToAlign) && sent == [] && rsvd == []
    ensures NextMultiple(size).Some? ==> error != Some(TooLargeToAlign)
    ensures NextMultiple(size).Some? ==>
      |rsvd| == Min(Count(NextMultiple(size).value), SaturatingSub(Count(c.size), |old(c.areas)|))
    ensures error.None? ==> Final(rsvd, course) != [] && sent == Responses(Offsets(Final(rsvd, course)))
    ensures error == Some(NotSent) ==> sent < Responses(Offsets(Final(rsvd, course)))
    ensures room.None? ==> error != Some(NotSent)
    ensures Stands(old(FlagsOf(c.areas)), FlagsOf(c.areas), if error.None? then OffsetsOf(Final(rsvd, course)) else {})
    ensures Survive(old(c.areas), c.areas)
    ensures NextMultiple(size).Some? ==> OwnOffsets(rsvd) && Ends(rsvd, course, c.areas.Keys, error, sent)
    ensures sent != [] ==> course.added
    ensures forall m :: m in sent ==> course.committed(m.g.offset) && course.live(m.g.offset) && m.g.size == G
  {
    hide NextMultiple, Responses, Offsets, Min, SaturatingSub, Count, AreasOk, Filed, OffsetsOf, LeftLive, FlagsOf,
      Stands, Survive, OwnOffsets, Offered, Ends, Final;
    NoOffsets();
    NoneOffered(course);
    StandsStill(FlagsOf(c.areas), c.areas);
    var rounded := NextMultiple(size);
    if rounded == None {
      return Some(TooLargeToAlign), [], [];
    }
    error, sent, rsvd := Proceed(c, ids, rounded.value, course, room);
    NamedAreLive(rsvd, course, c.areas.Keys, error, sent);
  }

  /** Why a request is refused before anything is sent, in the order in which it is found out. */
  function Refusal(rsvd: seq<EphAllocation>, course: Course): Option<Error> {
    if rsvd == [] then Some(NoSpace)
    else if Offered(rsvd, course) == [] then Some(NoDonor)
    else if !course.added then Some(NotAdded)
    else if Final(rsvd, course) == [] then Some(NoDonor)
    else None
  }

  lemma RefusalIs(rsvd: seq<EphAllocation>, course: Course)
    ensures var e := Refusal(rsvd, course);
      && (e == None <==> Final(rsvd, course) != []) && (e == Some(NoSpace) <==> rsvd == [])
      && (e == Some(NotAdded) <==> !course.added && Offered(rsvd, course) != [])
      && (e == Some(NoDonor) <==>
            (rsvd != [] && (Offered(rsvd, course) == [] || course.added) && Final(rsvd, course) == []))
      && e != Some(NotSent) && e != Some(TooLargeToAlign)
  {
    hide Offered, Final;
    FinalWithin(rsvd, course);
    NoneOffered(course);
  }

  lemma RefusedNone(rsvd: seq<EphAllocation>, course: Course)
    ensures Refusal(rsvd, course).Some? ==> Final(rsvd, course) == [] && Refusal(rsvd, course) != Some(NotSent)
  {
    hide Final, Offered, Refusal;
    RefusalIs(rsvd, course);
  }

  /** The request once its size has been rounded. */
  method Proceed(c: ConsumerState, ids: IdCounter, size: nat, course: Course, room: Option<nat>)
    returns (error: Option<Error>, sent: seq<Response>, ghost rsvd: seq<EphAllocation>)
    requires c.Valid()
    modifies c`areas, ids, c.areas.Values`releaseRequested
    ensures |rsvd| == Min(Count(size), SaturatingSub(Count(c.size), |old(c.areas)|)) && error != Some(TooLargeToAlign)
    ensures error.None? ==> Final(rsvd, course) != [] && sent == Responses(Offsets(Final(rsvd, course)))
    ensures error == Some(NotSent) ==> sent < Responses(Offsets(Final(rsvd, course)))
    ensures room.None? ==> error != Some(NotSent)
    ensures Stands(old(FlagsOf(c.areas)), FlagsOf(c.areas), if error.None? then OffsetsOf(Final(rsvd, course)) else {})
    ensures Survive(old(c.areas), c.areas) && OwnOffsets(rsvd) && Ends(rsvd, course, c.areas.Keys, error, sent)
  {
    hide Responses, Offsets, Min, SaturatingSub, Count, AreasOk, Filed, OffsetsOf, FlagsOf, Stands, Survive, OwnOffsets,
      Offered, Ends, Final, SentTo, Refusal;
    ghost var was, flags, areas := c.areas.Keys, FlagsOf(c.areas), c.areas;
    var allocs, left := ReserveFor(c, ids, size, course);
    rsvd, sent := allocs, [];
    NothingSent(left);
    NoOffsets();
    RefusedNone(allocs, course);
    error := Refusal(allocs, course);
    if error == None {
      var ok;
      ok, sent := Answer(c, left, room, flags, areas);
      error := if ok then None else Some(NotSent);
    }
    EndsAs(allocs, course, was, c.areas.Keys, error, sent);
  }

  /** The reservation, what of it the response will name, and the release of the rest. */
  method ReserveFor(c: ConsumerState, ids: IdCounter, size: nat, course: Course)
    returns (rsvd: seq<EphAllocation>, left: seq<EphAllocation>)
    requires c.Valid()
    modifies c`areas, ids, c.areas.Values`releaseRequested
    ensures Filed(c.areas) && |rsvd| == Min(Count(size), SaturatingSub(Count(c.size), |old(c.areas)|))
    ensures left == Final(rsvd, course)
    ensures Stands(old(FlagsOf(c.areas)), FlagsOf(c.areas), OffsetsOf(left)) && Survive(old(c.areas), c.areas)
    ensures old(FlagsOf(c.areas)).Keys == old(c.areas).Keys && c.areas.Keys == old(c.areas.Keys) + OffsetsOf(left)
    ensures OwnOffsets(rsvd) && old(c.areas.Keys) !! OffsetsOf(rsvd)
    ensures forall a :: a in c.areas.Values ==> fresh(a) || a in old(c.areas.Values)
  {
    hide Min, SaturatingSub, Count, AreasOk, Filed, OffsetsOf, LeftLive, FlagsOf, Stands, Survive, OwnOffsets,
      Offered, Final;
    ghost var flags := FlagsOf(c.areas);
    rsvd := ReserveAndDrop(c, ids, size, course.backed, course.Answered());
    left := Final(rsvd, course);
    FinalIs(rsvd, course);
    FlagKeys(c.areas);
    StandsKeys(flags, FlagsOf(c.areas), OffsetsOf(left));
  }

  /** The response, and what is left of the areas if it cannot be sent. */
  method Answer(c: ConsumerState, left: seq<EphAllocation>, room: Option<nat>, ghost was: map<nat, Flags>,
                ghost areas: map<nat, EphAllocation>) returns (ok: bool, sent: seq<Response>)
    requires Filed(c.areas) && Stands(was, FlagsOf(c.areas), OffsetsOf(left)) && Survive(areas, c.areas)
    requires was.Keys == areas.Keys && forall k :: k in areas ==> allocated(areas[k])
    modifies c`areas, c.areas.Values`releaseRequested
    ensures room.None? ==> ok
    ensures if ok then sent == Responses(Offsets(left)) else sent < Responses(Offsets(left))
    ensures SentTo(left, sent) && (ok ==> |sent| == |left|)
    ensures Stands(was, FlagsOf(c.areas), if ok then OffsetsOf(left) else {}) && Survive(areas, c.areas)
    ensures c.areas.Keys == if ok then was.Keys + OffsetsOf(left) else was.Keys
  {
    hide OffsetsOf, FlagsOf, Filed, Stands, Survive, Responses, Offsets;
    ok, sent := SendConsumerResponse(left, room);
    if !ok {
      DropLeft(c, left, was, areas);
    }
    FlagKeys(c.areas);
    StandsKeys(was, FlagsOf(c.areas), if ok then OffsetsOf(left) else {});
  }

  /** The consumer cannot be told: even what is live is released. */
  method DropLeft(c: ConsumerState, left: seq<EphAllocation>, ghost was: map<nat, Flags>,
                  ghost areas: map<nat, EphAllocation>)
    requires Filed(c.areas) && Stands(was, FlagsOf(c.areas), OffsetsOf(left)) && Survive(areas, c.areas)
    requires was.Keys == areas.Keys
    requires forall k :: k in areas ==> allocated(areas[k])
    modifies c`areas, c.areas.Values`releaseRequested
    ensures Stands(was, FlagsOf(c.areas), {}) && Survive(areas, c.areas)
  {
    hide OffsetsOf, FlagsOf, Filed, Stands, Survive;
    ghost var start := c.areas;
    assert {} + OffsetsOf(left) + {} == OffsetsOf(left) && FlagsOf(c.areas) - {} == FlagsOf(c.areas);
    DropParts(was, FlagsOf(c.areas), {}, OffsetsOf(left), {});
    ReleaseSome(c, left);
    FlagKeys(c.areas);
    StandsKeys(was, FlagsOf(c.areas), {});
    SurviveOn(areas, start, c.areas);
  }

  /** The reservation, and the release of whatever does not become live. */
  method ReserveAndDrop(c: ConsumerState, ids: IdCounter, size: nat, backed: nat,
                        live: nat -> bool) returns (rsvd: seq<EphAllocation>)
    requires c.Valid()
    modifies c`areas, ids, c.areas.Values`releaseRequested
    ensures Filed(c.areas) && |rsvd| == Min(Count(size), SaturatingSub(Count(c.size), |old(c.areas)|))
    ensures Stands(old(FlagsOf(c.areas)), FlagsOf(c.areas), OffsetsOf(LeftLive(rsvd, backed, live)))
    ensures Survive(old(c.areas), c.areas) && old(FlagsOf(c.areas)).Keys == old(c.areas).Keys
    ensures OwnOffsets(rsvd) && old(c.areas.Keys) !! OffsetsOf(rsvd)
    ensures forall a :: a in c.areas.Values ==> fresh(a) || a in old(c.areas.Values)
  {
    hide Offsets, Min, SaturatingSub, Count, AreasOk, Filed, OffsetsOf, LeftLive, FlagsOf, Stands, Survive;
    ghost var was, areas := FlagsOf(c.areas), c.areas;
    FlagKeys(c.areas);
    ghost var now;
    rsvd, now := ReserveNew(c, ids, size);
    StandsKeys(was, now, OffsetsOf(rsvd));
    Parts(rsvd, backed, live);
    DropLost(c, rsvd, backed, live, was, now, areas);
  }

  /** The reservation alone: areas of before as they were, new ones unreleased at offsets of their own. */
  method ReserveNew(c: ConsumerState, ids: IdCounter, size: nat) returns (rsvd: seq<EphAllocation>,
                    ghost now: map<nat, Flags>)
    requires c.Valid()
    modifies c`areas, ids
    ensures Filed(c.areas) && |rsvd| == Min(Count(size), SaturatingSub(Count(c.size), |old(c.areas)|))
    ensures now == FlagsOf(c.areas) && OwnOffsets(rsvd) && Stands(old(FlagsOf(c.areas)), now, OffsetsOf(rsvd))
    ensures Survive(old(c.areas), c.areas)
    ensures forall a :: a in c.areas.Values ==> fresh(a) || a in old(c.areas.Values)
  {
    hide Min, SaturatingSub, Count, NewAreas, AreasOk, Filed, OffsetsOf, OwnOffsets, FlagsOf, Grown, Stands, Survive;
    ghost var firstId, was := ids.next, FlagsOf(c.areas);
    FlagKeys(c.areas);
    rsvd := c.ReserveMemory(ids, size);
    now := FlagsOf(c.areas);
    FlagKeys(c.areas);
    FlagsAt(old(c.areas), c.areas);
    NewOffsets(rsvd, c.areas, c.vm, firstId);
    GrownFlags(was, now, rsvd);
    AllSurvive(old(c.areas), c.areas);
  }

  /** The releases of what is not left live. */
  method DropLost(c: ConsumerState, rsvd: seq<EphAllocation>, backed: nat, live: nat -> bool,
                  ghost was: map<nat, Flags>, ghost now: map<nat, Flags>, ghost areas: map<nat, EphAllocation>)
    requires Filed(c.areas) && now == FlagsOf(c.areas) && OwnOffsets(rsvd) && Stands(was, now, OffsetsOf(rsvd))
    requires Survive(areas, c.areas) && was.Keys == areas.Keys && forall k :: k in areas ==> allocated(areas[k])
    modifies c`areas, c.areas.Values`releaseRequested
    ensures Filed(c.areas) && Stands(was, FlagsOf(c.areas), OffsetsOf(LeftLive(rsvd, backed, live)))
    ensures Survive(areas, c.areas)
    ensures c.areas.Values <= old(c.areas.Values)
  {
    hide OffsetsOf, LeftLive, Lost, Unprocessed, OwnOffsets, FlagsOf, Filed, Live, Stands, Survive;
    Parts(rsvd, backed, live);
    var left, lost := OffsetsOf(LeftLive(rsvd, backed, live)), OffsetsOf(Lost(rsvd, backed, live));
    var rest := OffsetsOf(Unprocessed(rsvd, backed));
    DropParts(was, now, left, lost, rest);
    ghost var start := c.areas;
    ReleaseSome(c, Unprocessed(rsvd, backed));
    ReleaseSome(c, Lost(rsvd, backed, live));
    FlagKeys(c.areas);
    StandsKeys(was, FlagsOf(c.areas), left);
    SurviveOn(areas, start, c.areas);
  }

  lemma DropParts(was: map<nat, Flags>, now: map<nat, Flags>, left: set<nat>, lost: set<nat>, rest: set<nat>)
    requires Stands(was, now, left + lost + rest) && left !! lost && left !! rest && lost !! rest
    ensures forall o :: o in rest ==> o in now && !now[o].released
    ensures forall o :: o in lost ==> o in now - rest && !(now - rest)[o].released
    ensures Stands(was, now - rest - lost, left)
  {
  }

  lemma StandsKeys(was: map<nat, Flags>, now: map<nat, Flags>, added: set<nat>)
    requires Stands(was, now, added)
    ensures was.Keys <= now.Keys && now.Keys == was.Keys + added && was.Keys !! added
  {
  }

  lemma AllSurvive(was: map<nat, EphAllocation>, now: map<nat, EphAllocation>)
    requires forall k :: k in was ==> k in now && now[k] == was[k]
    ensures Survive(was, now)
  {
  }

  lemma SurviveOn(was: map<nat, EphAllocation>, mid: map<nat, EphAllocation>, now: map<nat, EphAllocation>)
    requires Survive(was, mid) && was.Keys <= now.Keys && forall k :: k in now ==> k in mid && now[k] == mid[k]
    ensures Survive(was, now)
  {
  }

  /** The areas of before, as they were, and unreleased new ones at `added`. */
  ghost predicate Stands(was: map<nat, Flags>, now: map<nat, Flags>, added: set<nat>) {
    && now.Keys == was.Keys + added && was.Keys !! added
    && (forall k :: k in was ==> now[k] == was[k])
    && (forall k :: k in added ==> !now[k].released)
  }

  /** No area of before is gone or another one. */
  ghost predicate Survive(was: map<nat, EphAllocation>, now: map<nat, EphAllocation>) {
    forall k :: k in was ==> k in now && now[k] == was[k]
  }

  lemma StandsStill(was: map<nat, Flags>, areas: map<nat, EphAllocation>)
    ensures Stands(was, was, {}) && Survive(areas, areas)
  {
  }

  lemma GrownFlags(was: map<nat, Flags>, now: map<nat, Flags>, rsvd: seq<EphAllocation>)
    requires Grown(was.Keys, now.Keys, rsvd) && forall k :: k in was ==> now[k] == was[k]
    requires forall o :: o in OffsetsOf(rsvd) ==> o in now && !now[o].released
    ensures Stands(was, now, OffsetsOf(rsvd))
  {
  }

  lemma NoOffsets()
    ensures OffsetsOf([]) == {}
  {
  }

  // ---------------------------------------------------------------- ephemerald's half

  /** ephemerald takes the responses one after the other. */
  function Fold(c: ClientState, id: nat, responses: seq<Response>): (ClientState, seq<Outcome>) {
    if responses == [] then (c, [])
    else
      var n := |responses| - 1;
      var (before, outcomes) := Fold(c, id, responses[..n]);
      var (after, outcome) := Respond(before, id, responses[n].more, Some(responses[n].g));
      (after, outcomes + [outcome])
  }

  function Grants(offsets: seq<nat>): (r: seq<Granted>)
    ensures |r| == |offsets|
  {
    seq(|offsets|, i requires 0 <= i < |offsets| => Granted(offsets[i], G))
  }

  lemma {:induction false} GrantsTotal(offsets: seq<nat>)
    ensures Total(Grants(offsets)) == G * |offsets|
  {
    if offsets != [] {
      GrantsTotal(offsets[..|offsets| - 1]);
      assert Grants(offsets)[..|offsets| - 1] == Grants(offsets[..|offsets| - 1]);
    }
  }

  /** A prefix of the responses that does not reach the last one is collected. */
  lemma {:induction false} PrefixCollects(c: ClientState, id: nat, requested: nat, offsets: seq<nat>, k: nat)
    requires c.pending == Some(Pending(id, requested, 0, [])) && k < |offsets| && G * |offsets| <= requested
    ensures var (after, outcomes) := Fold(c, id, Responses(offsets)[..k]);
      && after == c.(pending := Some(Pending(id, requested, G * k, Grants(offsets[..k]))))
      && |outcomes| == k && forall i :: 0 <= i < k ==> outcomes[i] == Collected
  {
    if k > 0 {
      PrefixCollects(c, id, requested, offsets, k - 1);
      var all := Responses(offsets);
      assert all[..k][..k - 1] == all[..k - 1];
      assert Grants(offsets[..k]) == Grants(offsets[..k - 1]) + [all[k - 1].g];
    } else {
      assert Grants(offsets[..0]) == [];
    }
  }

  /**
   * The responses for any nonempty live set that fits the request are all accepted; the last one,
   * and only it, makes the reply, whose amount is the number of chunks times their size.
   */
  lemma OneReply(c: ClientState, id: nat, requested: nat, offsets: seq<nat>)
    requires c.pending == Some(Pending(id, requested, 0, [])) && offsets != [] && G * |offsets| <= requested
    ensures var (after, outcomes) := Fold(c, id, Responses(offsets));
      && |outcomes| == |offsets|
      && (forall i :: 0 <= i < |offsets| - 1 ==> outcomes[i] == Collected)
      && outcomes[|offsets| - 1] == Answered(G * |offsets|)
      && after == ClientState(None, Keep(c.kept, Grants(offsets)))
  {
    hide Total, Keep;
    var n := |offsets| - 1;
    PrefixCollects(c, id, requested, offsets, n);
    var all := Responses(offsets);
    assert Grants(offsets) == Grants(offsets[..n]) + [all[n].g];
    FoldNext(c, id, all);
  }

  lemma FoldNext(c: ClientState, id: nat, responses: seq<Response>)
    requires responses != []
    ensures var n := |responses| - 1;
      var (before, outcomes) := Fold(c, id, responses[..n]);
      var (after, outcome) := Respond(before, id, responses[n].more, Some(responses[n].g));
      Fold(c, id, responses) == (after, outcomes + [outcome])
  {
  }

  // ---------------------------------------------------------------- both halves

  /** The amount that `libephmem_reserve` sends to ephemerald, if it sends anything. */
  function Asked(amount: nat): Option<nat> {
    if amount == 0 then None else MaskRoundUp(amount)
  }

  /** The result of `libephmem_reserve` once a reply has arrived. */
  function Reserved(asked: nat, reply: nat): (r: nat)
    ensures r <= asked && r <= reply && (r == asked || r == reply)
  {
    if reply > asked then asked else reply
  }

  /**
   * All hops agree on the size of a request. Either libephmem refuses an amount, and ephemerald
   * would have refused it too; or ephemerald admits it unchanged and the orchestrator works on
   * the same size.
   */
  lemma HopsAgree(amount: nat, c: ClientState, id: nat)
    requires amount <= U64_MAX && c.pending.None?
    ensures Asked(amount).None? <==> !Admit(c, id, amount).1
    ensures Asked(amount).Some? ==> var size := Asked(amount).value;
      && Admit(c, id, size) == (c.(pending := Some(Pending(id, size, 0, []))), true)
      && NextMultiple(size) == Some(size)
  {
    RoundingsAgree(amount);
    RoundingIsIdempotent(amount);
    ZeroRounds();
    if Asked(amount).Some? {
      RoundedIsPositive(amount);
    }
  }

  lemma ZeroRounds()
    ensures NextMultiple(0) == Some(0)
  {
  }

  lemma RoundedIsPositive(amount: nat)
    requires 0 < amount && NextMultiple(amount).Some?
    ensures 0 < NextMultiple(amount).value
  {
  }

  /**
   * End to end. Whatever part of the reservation is live in the end, ephemerald accepts every
   * response, replies once, and libephmem returns the bytes that are really there: never more
   * than was asked for.
   */
  lemma RequestIsServed(amount: nat, c: ClientState, id: nat, rsvd: seq<EphAllocation>, live: nat -> bool, free: nat)
    requires amount <= U64_MAX && c.pending.None? && Asked(amount).Some?
    requires |rsvd| == Min(Count(Asked(amount).value), free) && Live(rsvd, live) != []
    ensures var size, n := Asked(amount).value, |Live(rsvd, live)|;
      var (after, outcomes) := Fold(Admit(c, id, size).0, id, Responses(Offsets(Live(rsvd, live))));
      && |outcomes| == n && (forall i :: 0 <= i < n - 1 ==> outcomes[i] == Collected)
      && outcomes[n - 1] == Answered(G * n) && after.pending == None
      && G * n <= size && Reserved(size, G * n) == G * n
  {
    hide MaskRoundUp, NextMultiple, Fold, Live, Count, Responses, Offsets;
    var size, left := Asked(amount).value, Live(rsvd, live);
    HopsAgree(amount, c, id);
    LiveCount(rsvd, live);
    CountChunks(size);
    OneReply(Admit(c, id, size).0, id, size, Offsets(left));
  }
}
