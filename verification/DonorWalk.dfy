/**
 * What a request for memory makes of the donors' replies: the commands that it sends, and which
 * commits are kept, as a walk over the VM list.
 */
module DonorWalk {
  import opened Granularity
  import opened Allocation
  import opened Donor

  /** An entry of the VM list: the rank of its socket path and its donatable regions (none: not a donor). */
  datatype Vm = Vm(path: nat, regions: seq<DonatableRegion>)

  // ---------------------------------------------------------------- the commands

  /** What a request sends to a VM: a demand with the bytes it was answered, or bytes handed back. */
  datatype Command = Demand(vm: nat, bytes: nat, granted: nat) | HandBack(vm: nat, bytes: nat)

  /** How a donor behaves: the bytes it grants, if it answers at all, and whether it takes a return command. */
  datatype Reply = Reply(granted: Option<nat>, accepts: bool) {
    function Granted(): nat {
      if granted.Some? then granted.value else 0
    }
  }

  /** The bytes that the donors gave, as far as they had been asked for. */
  function Given(log: seq<Command>): nat {
    if log == [] then 0
    else
      var last := log[|log| - 1];
      Given(log[..|log| - 1]) + if last.Demand? then Min(last.granted, last.bytes) else 0
  }

  function HandedBack(log: seq<Command>): nat {
    if log == [] then 0
    else
      var last := log[|log| - 1];
      HandedBack(log[..|log| - 1]) + if last.HandBack? then last.bytes else 0
  }

  lemma {:induction false} LogSums(log: seq<Command>, more: seq<Command>)
    ensures Given(log + more) == Given(log) + Given(more)
    ensures HandedBack(log + more) == HandedBack(log) + HandedBack(more)
  {
    if more == [] {
      assert log + more == log;
    } else {
      var n := |more| - 1;
      LogSums(log, more[..n]);
      assert (log + more)[..|log| + n] == log + more[..n];
    }
  }

  /** Whatever was given and not handed back backs an allocation whose commit was kept. */
  ghost predicate Balanced(log: seq<Command>, kept: seq<bool>) {
    Given(log) == HandedBack(log) + G * Trues(kept)
  }

  lemma {:induction false} TruesSum(a: seq<bool>, b: seq<bool>)
    ensures Trues(a + b) == Trues(a) + Trues(b)
  {
    if b == [] {
      assert a + b == a;
    } else {
      TruesSum(a, b[..|b| - 1]);
      assert (a + b)[..|a + b| - 1] == a + b[..|b| - 1];
    }
  }

  lemma BalancedMore(log: seq<Command>, kept: seq<bool>, more: seq<Command>, kept': seq<bool>)
    requires Balanced(log, kept) && Balanced(more, kept')
    ensures Balanced(log + more, kept + kept')
  {
    hide Given, HandedBack, Trues;
    LogSums(log, more);
    TruesSum(kept, kept');
    assert G * (Trues(kept) + Trues(kept')) == G * Trues(kept) + G * Trues(kept');
  }

  /** The commands of one negotiation. */
  function Negotiation(vm: nat, asked: nat, granted: nat, giveBack: nat, refused: nat): seq<Command> {
    [Demand(vm, asked, granted)] + (if giveBack > 0 then [HandBack(vm, giveBack)] else []) +
    (if refused > 0 then [HandBack(vm, G * refused)] else [])
  }

  lemma NegotiationBalanced(vm: nat, asked: nat, granted: nat, giveBack: nat, m: nat, refused: nat, kept: seq<bool>)
    requires G * m + giveBack == Min(granted, asked) && Trues(kept) + refused == m
    ensures Balanced(Negotiation(vm, asked, granted, giveBack, refused), kept)
  {
    hide Trues;
    var demand := [Demand(vm, asked, granted)];
    var first := if giveBack > 0 then [HandBack(vm, giveBack)] else [];
    var second := if refused > 0 then [HandBack(vm, G * refused)] else [];
    LogSums(demand, first);
    LogSums(demand + first, second);
    OneCommand(demand[0]);
    OneCommand(HandBack(vm, giveBack));
    OneCommand(HandBack(vm, G * refused));
    assert G * m == G * Trues(kept) + G * refused;
  }

  /**
   * One negotiation with the VM `vm`: it was asked for `asked` bytes, as many allocations were
   * tried as the grant could pay for beside the debt, and the rest of the grant was handed back.
   */
  ghost predicate Negotiated(vm: nat, asked: nat, granted: nat, owed: nat, log: seq<Command>, kept: seq<bool>) {
    0 < asked && Whole(asked) && G * |kept| == Usable(owed, asked, granted) && Trues(kept) <= |kept| &&
    log == Negotiation(vm, asked, granted, SaturatingSub(Min(granted, asked), G * |kept|), |kept| - Trues(kept))
  }

  /**
   * The commands that one negotiation consists of: the demand with its answer; then, if the answer
   * exceeds what was tried, the rest of it; and last, if a commit was refused, one return command
   * of G for each refusal.
   */
  ghost predicate CommandsFor(vm: nat, granted: nat, log: seq<Command>, kept: seq<bool>) {
    && log != [] && log[0].Demand? && log[0].vm == vm && log[0].granted == granted && 0 < log[0].bytes
    && Trues(kept) <= |kept|
    && (Min(granted, log[0].bytes) > G * |kept| ==>
          |log| > 1 && log[1] == HandBack(vm, Min(granted, log[0].bytes) - G * |kept|))
    && (Trues(kept) < |kept| ==> log[|log| - 1] == HandBack(vm, G * (|kept| - Trues(kept))))
    && |log| == 1 + (if Min(granted, log[0].bytes) > G * |kept| then 1 else 0) + if Trues(kept) < |kept| then 1 else 0
  }

  lemma CommandsAre(vm: nat, asked: nat, granted: nat, owed: nat, log: seq<Command>, kept: seq<bool>)
    requires Negotiated(vm, asked, granted, owed, log, kept)
    ensures CommandsFor(vm, granted, log, kept) && log[0].bytes == asked
  {
    hide Trues, Usable, Whole;
  }

  /** A donor that fails to answer gets nothing and gives nothing. */
  lemma FailedGivesNothing(asked: nat, m: nat, giveBack: nat)
    requires G * m + giveBack == Min(0, asked)
    ensures m == 0 && giveBack == 0
  {
  }

  lemma OneCommand(c: Command)
    ensures Given([c]) == (if c.Demand? then Min(c.granted, c.bytes) else 0)
    ensures HandedBack([c]) == if c.HandBack? then c.bytes else 0
  {
    assert [c][..0] == [];
  }

  lemma SentLog(vm: nat, asked: nat, granted: nat, giveBack: nat, refused: nat)
    ensures var demand := [Demand(vm, asked, granted)];
      var first := if giveBack > 0 then demand + [HandBack(vm, giveBack)] else demand;
      Negotiation(vm, asked, granted, giveBack, refused) ==
        if refused > 0 then first + [HandBack(vm, G * refused)] else first
  {
  }

  lemma OnlyDemand(vm: nat, asked: nat, granted: nat)
    ensures Negotiation(vm, asked, granted, 0, 0) == [Demand(vm, asked, granted)]
  {
  }

  // ---------------------------------------------------------------- commits, kept and refused

  /** How many commits were kept. */
  function Trues(kept: seq<bool>): nat {
    if kept == [] then 0 else Trues(kept[..|kept| - 1]) + if kept[|kept| - 1] then 1 else 0
  }

  /** The ids whose commit was refused, for commits that begin at position `i`. */
  function RefusedIds(rsvd: seq<EphAllocation>, i: nat, kept: seq<bool>): seq<nat>
    requires i + |kept| <= |rsvd|
  {
    if kept == [] then []
    else
      var n := |kept| - 1;
      RefusedIds(rsvd, i, kept[..n]) + if kept[n] then [] else [rsvd[i + n].id]
  }

  lemma {:induction false} KeptOrRefused(rsvd: seq<EphAllocation>, i: nat, kept: seq<bool>)
    requires i + |kept| <= |rsvd|
    ensures Trues(kept) + |RefusedIds(rsvd, i, kept)| == |kept|
  {
    if kept != [] {
      KeptOrRefused(rsvd, i, kept[..|kept| - 1]);
    }
  }

  lemma {:induction false} SomeRefused(rsvd: seq<EphAllocation>, i: nat, kept: seq<bool>)
    requires i + |kept| <= |rsvd|
    ensures RefusedIds(rsvd, i, kept) != [] <==> false in kept
  {
    if kept != [] {
      SomeRefused(rsvd, i, kept[..|kept| - 1]);
      assert kept == kept[..|kept| - 1] + [kept[|kept| - 1]];
    }
  }

  lemma {:induction false} RefusedAre(rsvd: seq<EphAllocation>, i: nat, kept: seq<bool>)
    requires i + |kept| <= |rsvd|
    ensures forall k :: 0 <= k < |kept| && !kept[k] ==> rsvd[i + k].id in RefusedIds(rsvd, i, kept)
    ensures forall id :: id in RefusedIds(rsvd, i, kept) ==> exists k :: 0 <= k < |rsvd| && rsvd[k].id == id
  {
    if kept != [] {
      var n := |kept| - 1;
      RefusedAre(rsvd, i, kept[..n]);
      assert forall k :: 0 <= k < n ==> kept[..n][k] == kept[k];
    }
  }

  // ---------------------------------------------------------------- the log of a request

  /** The last VM that the request has turned to; the empty path if none. */
  function LastAsked(log: seq<Command>): nat {
    if log == [] then 0 else log[|log| - 1].vm
  }

  /** VMs are asked in the order of their paths, each at most once, for something, and answer as they do. */
  ghost predicate Asked(log: seq<Command>, vms: seq<Vm>, replies: nat -> Reply) {
    && (forall c :: c in log ==> exists v :: 0 <= v < |vms| && vms[v].path == c.vm)
    && (forall c :: c in log && c.Demand? ==>
          0 < c.bytes && Whole(c.bytes) && c.granted == replies(c.vm).Granted())
    && (forall a, b :: 0 <= a < b < |log| ==> if log[b].Demand? then log[a].vm < log[b].vm else log[a].vm <= log[b].vm)
    && (log != [] ==> log[0].Demand?)
  }

  lemma AskedMore(log: seq<Command>, vms: seq<Vm>, replies: nat -> Reply, v: nat, asked: nat, owed: nat,
                  more: seq<Command>, kept: seq<bool>)
    requires Asked(log, vms, replies) && v < |vms| && LastAsked(log) < vms[v].path
    requires Negotiated(vms[v].path, asked, replies(vms[v].path).Granted(), owed, more, kept)
    ensures Asked(log + more, vms, replies) && LastAsked(log + more) == vms[v].path
  {
    hide Usable, Trues;
    LastIsLargest(log, vms, replies);
    var path := vms[v].path;
    assert forall c :: c in more ==> c.vm == path;
    assert more[0].Demand? && forall k :: 0 < k < |more| ==> more[k].HandBack?;
  }

  lemma LastIsLargest(log: seq<Command>, vms: seq<Vm>, replies: nat -> Reply)
    requires Asked(log, vms, replies)
    ensures forall a :: 0 <= a < |log| ==> log[a].vm <= LastAsked(log)
  {
  }

  lemma NothingAsked(vms: seq<Vm>, replies: nat -> Reply)
    ensures Asked([], vms, replies)
  {
  }

  lemma NothingGiven()
    ensures Balanced([], [])
  {
  }

  // ---------------------------------------------------------------- the log, piece by piece

  /** One negotiation of a request: with whom, for how much of what was free, beside which debt, and what came of it. */
  datatype Piece = Piece(vm: nat, asked: nat, free: nat, owed: nat, log: seq<Command>, kept: seq<bool>)

  function Logs(pieces: seq<Piece>): seq<Command> {
    if pieces == [] then [] else Logs(pieces[..|pieces| - 1]) + pieces[|pieces| - 1].log
  }

  function Kepts(pieces: seq<Piece>): seq<bool> {
    if pieces == [] then [] else Kepts(pieces[..|pieces| - 1]) + pieces[|pieces| - 1].kept
  }

  /** The log and the commits of a request for `total` allocations are those of its negotiations. */
  ghost predicate Pieced(pieces: seq<Piece>, log: seq<Command>, kept: seq<bool>, total: nat, replies: nat -> Reply) {
    && log == Logs(pieces) && kept == Kepts(pieces)
    && forall k :: 0 <= k < |pieces| ==> PieceOk(pieces[k], |Kepts(pieces[..k])|, total, replies)
  }

  /** A negotiation asks for all that is still missing, or for all whole chunks that are free. */
  ghost predicate PieceOk(piece: Piece, done: nat, total: nat, replies: nat -> Reply) {
    && Negotiated(piece.vm, piece.asked, replies(piece.vm).Granted(), piece.owed, piece.log, piece.kept)
    && done <= total && AsksMost(piece.asked, G * (total - done), piece.free)
  }

  ghost predicate AsksMost(asked: nat, missing: nat, free: nat) {
    asked <= missing && asked <= free && (asked == missing || free - asked < G)
  }

  lemma PieceIs(piece: Piece, done: nat, total: nat, replies: nat -> Reply)
    requires Negotiated(piece.vm, piece.asked, replies(piece.vm).Granted(), piece.owed, piece.log, piece.kept)
    requires done <= total && AsksMost(piece.asked, G * (total - done), piece.free)
    ensures PieceOk(piece, done, total, replies)
  {
    hide Negotiated, AsksMost;
  }

  lemma PieceMeans(piece: Piece, done: nat, total: nat, replies: nat -> Reply)
    requires PieceOk(piece, done, total, replies)
    ensures Negotiated(piece.vm, piece.asked, replies(piece.vm).Granted(), piece.owed, piece.log, piece.kept)
    ensures done <= total
  {
    hide Negotiated, AsksMost;
  }

  lemma NoPieces(total: nat, replies: nat -> Reply)
    ensures Pieced([], [], [], total, replies)
  {
  }

  lemma OneMorePiece(pieces: seq<Piece>, log: seq<Command>, kept: seq<bool>, total: nat, replies: nat -> Reply,
                     piece: Piece)
    requires Pieced(pieces, log, kept, total, replies) && PieceOk(piece, |kept|, total, replies)
    ensures Pieced(pieces + [piece], log + piece.log, kept + piece.kept, total, replies)
  {
    hide Negotiated;
    var more := pieces + [piece];
    assert more[..|pieces|] == pieces;
    forall k | 0 <= k < |more| ensures PieceOk(more[k], |Kepts(more[..k])|, total, replies) {
      assert k < |pieces| ==> more[..k] == pieces[..k];
    }
  }

  // ---------------------------------------------------------------- the walk, with no other thread

  /** What a search has made of the regions, sent, and committed so far. */
  datatype Search = Search(views: map<DonatableRegion, Region>, log: seq<Command>, kept: seq<bool>)

  predicate Room(r: Region) {
    r.size - r.donated >= G
  }

  /** A region has room exactly if a chunk can be reserved from it. */
  lemma RoomIsAChunk(r: Region)
    requires r.donated <= r.size
    ensures Room(r) <==> ReserveBytes(r, G) == G
  {
    Chunks(1);
    ReserveTakesMost(r, G);
  }

  function FirstRoom(regions: seq<DonatableRegion>, views: map<DonatableRegion, Region>): (r: Option<DonatableRegion>)
    ensures r.Some? ==> r.value in views && Room(views[r.value])
  {
    if regions == [] then None
    else if regions[0] in views && Room(views[regions[0]]) then Some(regions[0])
    else FirstRoom(regions[1..], views)
  }

  /** The bookkeeping calls for a list of ids. */
  function Bookkept(r: Region, ids: seq<nat>): Region {
    if ids == [] then r else Bookkeep(Bookkept(r, ids[..|ids| - 1]), ids[|ids| - 1])
  }

  /** The commits of `m` allocations from `i` on: kept unless abandoned before. */
  function Commits(gone: seq<bool>, i: nat, m: nat): (kept: seq<bool>)
    requires i + m <= |gone|
    ensures |kept| == m
  {
    seq(m, k requires 0 <= k < m => !gone[i + k])
  }

  /**
   * One VM is asked for memory of one region, for the allocations from `i` on; `gone` says which
   * of them were abandoned before. The result is what this negotiation adds.
   */
  function Negotiate(vm: nat, region: DonatableRegion, views: map<DonatableRegion, Region>, rsvd: seq<EphAllocation>,
                     gone: seq<bool>, i: nat, reply: Reply): Search
    requires region in views && Room(views[region]) && i <= |rsvd| == |gone|
  {
    var ids := Reservable(views[region], Ids(rsvd[i..]));
    var settled := Settle(Donor.Reserve(views[region], ids), ids, reply.Granted());
    CountMonotone(settled.usable, |ids|);
    var kept := Commits(gone, i, Count(settled.usable));
    var refused := RefusedIds(rsvd, i, kept);
    Search(views[region := if reply.accepts then Bookkept(settled.region, refused) else settled.region],
           Negotiation(vm, G * |ids|, reply.Granted(), settled.giveBack, |refused|),
           kept)
  }

  /** One VM of the list: its first region with room is asked, unless the search is over. */
  function Turn(vm: Vm, s: Search, rsvd: seq<EphAllocation>, gone: seq<bool>, replies: nat -> Reply): Search
    requires |rsvd| == |gone|
  {
    var region := FirstRoom(vm.regions, s.views);
    if |s.kept| >= |rsvd| || false in s.kept || region.None? then s
    else
      var more := Negotiate(vm.path, region.value, s.views, rsvd, gone, |s.kept|, replies(vm.path));
      Search(more.views, s.log + more.log, s.kept + more.kept)
  }

  function Walk(vms: seq<Vm>, s: Search, rsvd: seq<EphAllocation>, gone: seq<bool>, replies: nat -> Reply): Search
    requires |rsvd| == |gone|
  {
    if vms == [] then s
    else Turn(vms[|vms| - 1], Walk(vms[..|vms| - 1], s, rsvd, gone, replies), rsvd, gone, replies)
  }

  /** VMs without room, and all VMs once the search is over, are passed over. */
  lemma {:induction false} WalkPast(vms: seq<Vm>, i: nat, j: nat, s: Search, rsvd: seq<EphAllocation>, gone: seq<bool>,
                                    replies: nat -> Reply)
    requires i <= j <= |vms| && |rsvd| == |gone|
    requires var t := Walk(vms[..i], s, rsvd, gone, replies);
      |t.kept| >= |rsvd| || false in t.kept || forall w :: i <= w < j ==> FirstRoom(vms[w].regions, t.views).None?
    ensures Walk(vms[..j], s, rsvd, gone, replies) == Walk(vms[..i], s, rsvd, gone, replies)
  {
    hide FirstRoom, Negotiate;
    if i < j {
      WalkPast(vms, i, j - 1, s, rsvd, gone, replies);
      assert vms[..j][..j - 1] == vms[..j - 1];
    }
  }

  lemma WalkNext(vms: seq<Vm>, v: nat, s: Search, rsvd: seq<EphAllocation>, gone: seq<bool>, replies: nat -> Reply)
    requires v < |vms| && |rsvd| == |gone|
    ensures Walk(vms[..v + 1], s, rsvd, gone, replies) ==
      Turn(vms[v], Walk(vms[..v], s, rsvd, gone, replies), rsvd, gone, replies)
  {
    assert vms[..v + 1][..v] == vms[..v];
  }

  lemma {:induction false} FirstRoomIs(regions: seq<DonatableRegion>, views: map<DonatableRegion, Region>, k: nat)
    requires k <= |regions| && forall l :: 0 <= l < k ==> regions[l] in views && !Room(views[regions[l]])
    requires k < |regions| ==> regions[k] in views && Room(views[regions[k]])
    ensures FirstRoom(regions, views) == if k < |regions| then Some(regions[k]) else None
  {
    if k > 0 {
      FirstRoomIs(regions[1..], views, k - 1);
    }
  }
}
