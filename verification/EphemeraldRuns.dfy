/**
 * All runs of ephemerald: connections come and go, requests and responses are handled by
 * different threads, and between two locked sections anything else may happen.
 */
module EphemeraldRuns {
  import opened Granularity
  import opened Ephemerald

  /** A reply sent over a connection. */
  datatype Answer = Answer(conn: nat, amount: nat)

  /** The history of one request id: who asked for how much, what was collected, what was answered. */
  datatype Track = Track(conn: nat, amount: nat, collected: seq<Granted>, answers: seq<Answer>)

  /** A response whose client has been looked up and that is about to be handed to it. */
  datatype Delivery = Delivery(conn: nat, id: nat, g: Granted, more: bool)

  datatype Daemon = Daemon(
    listed: map<nat, nat>,             // process id to connection
    pids: map<nat, nat>,               // connection to process id
    clients: map<nat, ClientState>,    // by connection
    arrived: set<nat>,                 // request ids not yet through `handle_eph_mem_request`'s lock
    forwarding: set<nat>,              // request ids on their way to the orchestrator
    deliveries: multiset<Delivery>,
    nextId: nat, nextConn: nat,
    tracks: map<nat, Track>)

  const Start: Daemon := Daemon(map[], map[], map[], {}, {}, multiset{}, 0, 1, map[])

  datatype Event =
    | Connect(pid: nat)
    | Close(conn: nat)
    | Arrive(pid: nat, amount: nat)
    | Enter(id: nat)
    | Forward(id: nat, sent: bool)
    | Lookup(conn: nat, id: nat, g: Granted, more: bool)
    | Deliver(d: Delivery)

  predicate Legal(s: Daemon, e: Event) {
    match e
    case Connect(_) => true
    case Close(conn) => conn in s.pids
    case Arrive(pid, _) => pid in s.listed && s.listed[pid] in s.clients
    case Enter(id) => id in s.arrived && id in s.tracks && s.tracks[id].conn in s.clients
    case Forward(id, _) => id in s.forwarding && id in s.tracks && s.tracks[id].conn in s.clients
    case Lookup(conn, id, g, _) =>
      && (exists pid :: pid in s.listed && s.listed[pid] == conn) && conn in s.clients
      && s.clients[conn].pending.Some? && s.clients[conn].pending.value.id == id && 0 < g.size
    case Deliver(d) => d in s.deliveries && d.conn in s.clients && d.id in s.tracks
  }

  /** `send_eph_mem_response` on the client of one connection, and what it sends. */
  function Responded(s: Daemon, conn: nat, id: nat, more: bool, g: Option<Granted>): Daemon
    requires conn in s.clients && id in s.tracks
  {
    var (c, outcome) := Respond(s.clients[conn], id, more, g);
    var accepted := g.Some? && (outcome.Collected? || outcome.Answered?);
    s.(clients := s.clients[conn := c],
       tracks := s.tracks[id := s.tracks[id].(
         collected := if accepted then s.tracks[id].collected + [g.value] else s.tracks[id].collected,
         answers := if outcome.Answered? then s.tracks[id].answers + [Answer(conn, outcome.amount)]
                    else s.tracks[id].answers)])
  }

  function After(s: Daemon, e: Event): Daemon
    requires Legal(s, e)
  {
    match e
    case Connect(pid) =>
      s.(listed := s.listed[pid := s.nextConn], pids := s.pids[s.nextConn := pid],
         clients := s.clients[s.nextConn := ClientState(None, map[])], nextConn := s.nextConn + 1)
    case Close(conn) =>
      var pid := s.pids[conn];
      if pid in s.listed && s.listed[pid] == conn then s.(listed := s.listed - {pid}) else s
    case Arrive(pid, amount) =>
      s.(nextId := s.nextId + 1, arrived := s.arrived + {s.nextId},
         tracks := s.tracks[s.nextId := Track(s.listed[pid], amount, [], [])])
    case Enter(id) =>
      var track := s.tracks[id];
      var (c, forward) := Admit(s.clients[track.conn], id, track.amount);
      s.(clients := s.clients[track.conn := c], arrived := s.arrived - {id},
         forwarding := if forward then s.forwarding + {id} else s.forwarding)
    case Forward(id, sent) =>
      var t := s.(forwarding := s.forwarding - {id});
      if sent then t else Responded(t, s.tracks[id].conn, id, false, None)
    case Lookup(conn, id, g, more) => s.(deliveries := s.deliveries + multiset{Delivery(conn, id, g, more)})
    case Deliver(d) =>
      Responded(s.(deliveries := s.deliveries - multiset{d}), d.conn, d.id, d.more, Some(d.g))
  }

  // ---------------------------------------------------------------- the invariant

  /** At most one answer, to the asker, of exactly what was collected and at most what was asked for. */
  predicate Honest(t: Track) {
    |t.answers| == 0 || (|t.answers| == 1 && Proper(t))
  }

  predicate Proper(t: Track)
    requires |t.answers| == 1
  {
    && t.answers[0] == Answer(t.conn, Total(t.collected))
    && NextMultiple(t.amount).Some? && Total(t.collected) <= NextMultiple(t.amount).value
  }

  /** A pending request is known, was asked over this connection, and has not been answered. */
  predicate Waits(s: Daemon, conn: nat, p: Pending) {
    && p.id in s.tracks && p.id !in s.arrived
    && s.tracks[p.id].conn == conn && s.tracks[p.id].answers == [] && s.tracks[p.id].collected == p.granted
    && NextMultiple(s.tracks[p.id].amount) == Some(p.requested)
  }

  ghost predicate TracksOk(s: Daemon) {
    && (forall id :: id in s.tracks ==> id < s.nextId && Honest(s.tracks[id]) && s.tracks[id].conn in s.clients)
    && (forall id :: id in s.arrived ==> id in s.tracks && s.tracks[id].answers == [] && s.tracks[id].collected == [])
    && (forall id :: id in s.forwarding ==> id in s.tracks && id !in s.arrived)
    && (forall d :: d in s.deliveries ==> d.id in s.tracks && d.id !in s.arrived && s.tracks[d.id].conn == d.conn)
  }

  ghost predicate ClientsOk(s: Daemon) {
    forall c :: c in s.clients ==> ClientOk(s, c, s.clients[c])
  }

  predicate ClientOk(s: Daemon, conn: nat, c: ClientState) {
    Balanced(c) && (c.pending.Some? ==> Waits(s, conn, c.pending.value))
  }

  ghost predicate ListOk(s: Daemon) {
    && s.clients.Keys == s.pids.Keys && (forall c :: c in s.pids ==> c < s.nextConn)
    && (forall pid :: pid in s.listed ==> s.listed[pid] in s.pids && s.pids[s.listed[pid]] == pid)
  }

  ghost predicate Inv(s: Daemon) {
    TracksOk(s) && ClientsOk(s) && ListOk(s)
  }

  // ---------------------------------------------------------------- every step keeps it

  lemma ConnectKeeps(s: Daemon, pid: nat)
    requires Inv(s)
    ensures Inv(After(s, Connect(pid)))
  {
    hide Honest, Balanced;
    assert Balanced(ClientState(None, map[])) by { NewIsBalanced(); }
  }

  lemma NewIsBalanced()
    ensures Balanced(ClientState(None, map[]))
  {
  }

  lemma CloseKeeps(s: Daemon, conn: nat)
    requires Inv(s) && Legal(s, Close(conn))
    ensures Inv(After(s, Close(conn)))
  {
    hide Honest, Balanced;
  }

  lemma ArriveKeeps(s: Daemon, pid: nat, amount: nat)
    requires Inv(s) && Legal(s, Arrive(pid, amount))
    ensures Inv(After(s, Arrive(pid, amount)))
  {
    hide Balanced, Proper;
  }

  lemma EnterKeeps(s: Daemon, id: nat)
    requires Inv(s) && Legal(s, Enter(id))
    ensures Inv(After(s, Enter(id)))
  {
    hide Honest, Balanced;
    AdmissionIsBalanced(s.clients[s.tracks[id].conn], id, s.tracks[id].amount);
  }

  lemma LookupKeeps(s: Daemon, conn: nat, id: nat, g: Granted, more: bool)
    requires Inv(s) && Legal(s, Lookup(conn, id, g, more))
    ensures Inv(After(s, Lookup(conn, id, g, more)))
  {
    hide Honest, Balanced;
    assert Waits(s, conn, s.clients[conn].pending.value);
  }

  /** The history of the id, once the client has been told. */
  lemma RespondedTrack(s: Daemon, conn: nat, id: nat, more: bool, g: Option<Granted>)
    requires Inv(s) && conn in s.clients && id in s.tracks && id !in s.arrived && s.tracks[id].conn == conn
    ensures var t := Responded(s, conn, id, more, g);
      Honest(t.tracks[id]) && ClientOk(t, conn, t.clients[conn])
  {
    hide Total, NextMultiple, Whole, Balanced, Keep;
    var c := s.clients[conn];
    assert ClientOk(s, conn, c);
    ResponseIsBalanced(c, id, more, g);
    BalancedMeans(c);
    if c.pending.Some? {
      assert c.pending.value.granted + [] == c.pending.value.granted;
    }
  }

  lemma BalancedMeans(c: ClientState)
    requires Balanced(c)
    ensures c.pending.Some? ==> c.pending.value.received <= c.pending.value.requested
  {
  }

  /** Other clients' requests and histories are untouched. */
  lemma RespondedKeeps(s: Daemon, conn: nat, id: nat, more: bool, g: Option<Granted>)
    requires Inv(s) && conn in s.clients && id in s.tracks && id !in s.arrived && s.tracks[id].conn == conn
    ensures Inv(Responded(s, conn, id, more, g))
  {
    hide Honest, Balanced, Respond;
    RespondedTrack(s, conn, id, more, g);
    var t := Responded(s, conn, id, more, g);
    forall c | c in t.clients ensures ClientOk(t, c, t.clients[c]) {
      if c != conn {
        assert ClientOk(s, c, s.clients[c]);
      }
    }
  }

  lemma ForwardKeeps(s: Daemon, id: nat, sent: bool)
    requires Inv(s) && Legal(s, Forward(id, sent))
    ensures Inv(After(s, Forward(id, sent)))
  {
    hide Honest, Balanced, Responded;
    var t := s.(forwarding := s.forwarding - {id});
    assert Inv(t);
    if !sent {
      RespondedKeeps(t, s.tracks[id].conn, id, false, None);
    }
  }

  lemma Undelivered(s: Daemon, d: Delivery)
    requires Inv(s)
    ensures Inv(s.(deliveries := s.deliveries - multiset{d}))
  {
    hide Honest, Balanced, Waits;
    assert forall e :: e in s.deliveries - multiset{d} ==> e in s.deliveries;
    forall c | c in s.clients ensures ClientOk(s.(deliveries := s.deliveries - multiset{d}), c, s.clients[c]) {
      StillOk(s, c, d);
    }
  }

  lemma StillOk(s: Daemon, c: nat, d: Delivery)
    requires Inv(s) && c in s.clients
    ensures ClientOk(s.(deliveries := s.deliveries - multiset{d}), c, s.clients[c])
  {
    assert ClientOk(s, c, s.clients[c]);
  }

  lemma DeliverKeeps(s: Daemon, d: Delivery)
    requires Inv(s) && Legal(s, Deliver(d))
    ensures Inv(After(s, Deliver(d)))
  {
    hide Honest, Balanced, Responded, ClientsOk, ListOk;
    Undelivered(s, d);
    RespondedKeeps(s.(deliveries := s.deliveries - multiset{d}), d.conn, d.id, d.more, Some(d.g));
  }

  lemma StepKeeps(s: Daemon, e: Event)
    requires Inv(s) && Legal(s, e)
    ensures Inv(After(s, e))
  {
    hide Inv, After, Legal;
    match e
    case Connect(pid) => ConnectKeeps(s, pid);
    case Close(conn) => CloseKeeps(s, conn);
    case Arrive(pid, amount) => ArriveKeeps(s, pid, amount);
    case Enter(id) => EnterKeeps(s, id);
    case Forward(id, sent) => ForwardKeeps(s, id, sent);
    case Lookup(conn, id, g, more) => LookupKeeps(s, conn, id, g, more);
    case Deliver(d) => DeliverKeeps(s, d);
  }

  // ---------------------------------------------------------------- all runs

  /** `s` is reached by the events, each of them possible when it happens. */
  ghost predicate Reaches(events: seq<Event>, s: Daemon) {
    if events == [] then s == Start
    else
      var n := |events| - 1;
      exists before: Daemon :: Reaches(events[..n], before) && Legal(before, events[n]) && s == After(before, events[n])
  }

  lemma {:induction false} RunKeeps(events: seq<Event>, s: Daemon)
    requires Reaches(events, s)
    ensures Inv(s)
  {
    hide Inv, After, Legal;
    if events == [] {
      StartOk();
    } else {
      var n := |events| - 1;
      var before: Daemon :| Reaches(events[..n], before) && Legal(before, events[n]) && s == After(before, events[n]);
      RunKeeps(events[..n], before);
      StepKeeps(before, events[n]);
    }
  }

  lemma StartOk()
    ensures Inv(Start)
  {
  }

  predicate WaitsFor(s: Daemon, conn: nat, id: nat) {
    conn in s.clients && s.clients[conn].pending.Some? && s.clients[conn].pending.value.id == id
  }

  /** What a thread has begun it can go on with: requests and responses never lose their client's state. */
  lemma NothingIsStuck(events: seq<Event>, s: Daemon)
    requires Reaches(events, s)
    ensures forall id :: id in s.arrived ==> Legal(s, Enter(id))
    ensures forall id, sent :: id in s.forwarding ==> Legal(s, Forward(id, sent))
    ensures forall d :: d in s.deliveries ==> Legal(s, Deliver(d))
    ensures forall pid, amount :: pid in s.listed ==> Legal(s, Arrive(pid, amount))
  {
    hide Reaches, Honest, ClientsOk;
    RunKeeps(events, s);
  }

  /**
   * In every run a request is answered at most once, over the connection of the client it was
   * made for, with the sum of everything collected for it, and that is at most its rounded size.
   */
  lemma AnswersAreHonest(events: seq<Event>, s: Daemon, id: nat)
    requires Reaches(events, s) && id in s.tracks && s.tracks[id].answers != []
    ensures var t := s.tracks[id];
      && t.answers == [Answer(t.conn, Total(t.collected))]
      && NextMultiple(t.amount).Some? && Total(t.collected) <= NextMultiple(t.amount).value
    ensures forall c :: !WaitsFor(s, c, id)
  {
    hide Reaches, Total, NextMultiple;
    RunKeeps(events, s);
    assert Honest(s.tracks[id]);
    forall c ensures !WaitsFor(s, c, id) {
      assert c in s.clients ==> ClientOk(s, c, s.clients[c]);
    }
  }

  /**
   * In every run the books of each pending request balance, no two clients wait for the same id,
   * and a response on its way has only one client that could take it: the one it was looked up for.
   */
  lemma ResponsesReachTheirOwner(events: seq<Event>, s: Daemon)
    requires Reaches(events, s)
    ensures forall c :: c in s.clients ==> Balanced(s.clients[c])
    ensures forall c, d, id :: WaitsFor(s, c, id) && WaitsFor(s, d, id) ==> c == d
    ensures forall m, c :: m in s.deliveries && WaitsFor(s, c, m.id) ==> c == m.conn
  {
    hide Reaches, Balanced, Honest, ListOk;
    RunKeeps(events, s);
    assert forall c :: c in s.clients ==> ClientOk(s, c, s.clients[c]);
  }

  // ---------------------------------------------------------------- a pending request

  /** The events lead from `s` to `t`. */
  ghost predicate Leads(s: Daemon, events: seq<Event>, t: Daemon) {
    if events == [] then s == t
    else
      var n := |events| - 1;
      exists mid: Daemon :: Leads(s, events[..n], mid) && Legal(mid, events[n]) && t == After(mid, events[n])
  }

  /** The client still waits for the same request, and has lost nothing of what it collected. */
  predicate StillWaits(t: Daemon, conn: nat, p: Pending) {
    && conn in t.clients && t.clients[conn].pending.Some?
    && t.clients[conn].pending.value.id == p.id && t.clients[conn].pending.value.requested == p.requested
    && p.granted <= t.clients[conn].pending.value.granted
  }

  /** The request has been answered, with at least what had been collected. */
  predicate AnsweredWith(t: Daemon, p: Pending) {
    p.id in t.tracks && t.tracks[p.id].answers != [] && p.granted <= t.tracks[p.id].collected
  }

  lemma WaitStep(s: Daemon, e: Event, conn: nat, p: Pending)
    requires Inv(s) && Legal(s, e) && (StillWaits(s, conn, p) || AnsweredWith(s, p))
    ensures StillWaits(After(s, e), conn, p) || AnsweredWith(After(s, e), p)
  {
    hide TracksOk, Balanced, Respond, Admit, Honest, Inv;
    WaitKnown(s, conn, p);
    match e
    case Arrive(pid, amount) => IdsKnown(s);
    case Connect(pid) => IdsKnown(s);
    case Enter(id) => AdmissionRefuses(s.clients[s.tracks[id].conn], id, s.tracks[id].amount);
    case Forward(id, sent) =>
      if !sent {
        WaitRespond(s.(forwarding := s.forwarding - {id}), conn, p, s.tracks[id].conn, id, false, None);
      }
    case Deliver(d) =>
      WaitRespond(s.(deliveries := s.deliveries - multiset{d}), conn, p, d.conn, d.id, d.more, Some(d.g));
    case _ =>
  }

  lemma IdsKnown(s: Daemon)
    requires Inv(s)
    ensures s.nextId !in s.tracks && s.nextConn !in s.clients
  {
  }

  /** What a waiting client has collected is what its request has. */
  lemma WaitKnown(s: Daemon, conn: nat, p: Pending)
    requires Inv(s)
    ensures StillWaits(s, conn, p) ==>
      p.id in s.tracks && s.tracks[p.id].conn == conn &&
      s.tracks[p.id].collected == s.clients[conn].pending.value.granted
  {
    if StillWaits(s, conn, p) {
      assert ClientOk(s, conn, s.clients[conn]);
    }
  }

  lemma WaitRespond(s: Daemon, conn: nat, p: Pending, to: nat, id: nat, more: bool, g: Option<Granted>)
    requires (StillWaits(s, conn, p) || AnsweredWith(s, p)) && to in s.clients && id in s.tracks
    requires StillWaits(s, conn, p) ==>
      p.id in s.tracks && s.tracks[p.id].conn == conn &&
      s.tracks[p.id].collected == s.clients[conn].pending.value.granted
    ensures StillWaits(Responded(s, to, id, more, g), conn, p) || AnsweredWith(Responded(s, to, id, more, g), p)
  {
    hide Keep, Total;
  }

  /**
   * A pending request stays pending under its id, with its collected responses only growing,
   * until it is answered; nothing else, and no other request, takes its place.
   */
  lemma {:induction false} PendingUntilAnswered(s: Daemon, events: seq<Event>, t: Daemon, conn: nat, p: Pending)
    requires Inv(s) && Leads(s, events, t) && conn in s.clients && s.clients[conn].pending == Some(p)
    ensures Inv(t) && (StillWaits(t, conn, p) || AnsweredWith(t, p))
  {
    hide Inv, After, Legal;
    if events != [] {
      var n := |events| - 1;
      var mid: Daemon :| Leads(s, events[..n], mid) && Legal(mid, events[n]) && t == After(mid, events[n]);
      PendingUntilAnswered(s, events[..n], mid, conn, p);
      StepKeeps(mid, events[n]);
      WaitStep(mid, events[n], conn, p);
    }
  }

  /** A request that cannot be forwarded does not stay pending: its client is told, with nothing collected lost. */
  lemma FailureIsAnswered(s: Daemon, id: nat)
    requires Inv(s) && Legal(s, Forward(id, false))
    ensures var conn, t := s.tracks[id].conn, After(s, Forward(id, false));
      && !WaitsFor(t, conn, id)
      && (WaitsFor(s, conn, id) ==>
            t.tracks[id].answers == s.tracks[id].answers + [Answer(conn, s.clients[conn].pending.value.received)])
  {
    hide TracksOk, ListOk, Keep, Total;
    assert ClientOk(s, s.tracks[id].conn, s.clients[s.tracks[id].conn]);
  }

  // ---------------------------------------------------------------- the client list

  /** How many connections were made before. */
  function Connections(events: seq<Event>): nat {
    if events == [] then 0 else Connections(events[..|events| - 1]) + if events[|events| - 1].Connect? then 1 else 0
  }

  /** `conn` is the most recent connection of `pid`, and it has not closed. */
  ghost predicate Current(events: seq<Event>, pid: nat, conn: nat) {
    exists k :: 0 <= k < |events| && MadeAt(events, k, pid, conn)
  }

  ghost predicate MadeAt(events: seq<Event>, k: int, pid: nat, conn: nat)
    requires 0 <= k < |events|
  {
    && events[k] == Connect(pid) && conn == 1 + Connections(events[..k])
    && (forall j :: k < j < |events| ==> events[j] != Connect(pid) && events[j] != Close(conn))
  }

  lemma {:induction false} ConnectionsAre(events: seq<Event>, s: Daemon)
    requires Reaches(events, s)
    ensures s.nextConn == 1 + Connections(events)
  {
    hide Legal, After;
    if events != [] {
      var n := |events| - 1;
      var before: Daemon :| Reaches(events[..n], before) && Legal(before, events[n]) && s == After(before, events[n]);
      ConnectionsAre(events[..n], before);
      ConnectionsMove(before, events[n]);
    }
  }

  lemma ConnectionsMove(s: Daemon, e: Event)
    requires Legal(s, e)
    ensures After(s, e).nextConn == s.nextConn + if e.Connect? then 1 else 0
  {
  }

  lemma CurrentNext(events: seq<Event>, e: Event, pid: nat, conn: nat)
    ensures Current(events + [e], pid, conn) <==>
      (e == Connect(pid) && conn == 1 + Connections(events)) ||
      (e != Connect(pid) && e != Close(conn) && Current(events, pid, conn))
  {
    var all, n := events + [e], |events|;
    assert all[..n] == events;
    forall k | 0 <= k < n
      ensures MadeAt(all, k, pid, conn) <==> MadeAt(events, k, pid, conn) && e != Connect(pid) && e != Close(conn)
    {
      assert all[..k] == events[..k];
      assert forall j :: 0 <= j < n ==> all[j] == events[j];
      assert all[n] == e;
    }
    assert MadeAt(all, n, pid, conn) <==> e == Connect(pid) && conn == 1 + Connections(events);
  }

  /**
   * In every interleaving of registrations and closes the listed client of a process is its most
   * recent connection unless that very connection has closed: a late close of an older one
   * changes nothing.
   */
  lemma {:induction false} ListedIsCurrent(events: seq<Event>, s: Daemon, pid: nat, conn: nat)
    requires Reaches(events, s)
    ensures pid in s.listed && s.listed[pid] == conn <==> Current(events, pid, conn)
  {
    hide Current, Inv, TracksOk, ClientsOk, Connections;
    if events != [] {
      var n := |events| - 1;
      var before: Daemon :| Reaches(events[..n], before) && Legal(before, events[n]) && s == After(before, events[n]);
      RunKeeps(events[..n], before);
      ConnectionsAre(events[..n], before);
      ListedIsCurrent(events[..n], before, pid, conn);
      assert events == events[..n] + [events[n]];
      CurrentNext(events[..n], events[n], pid, conn);
      ListMoves(before, events[n], pid, conn);
    } else {
      NothingCurrent(pid, conn);
    }
  }

  lemma NothingCurrent(pid: nat, conn: nat)
    ensures !Current([], pid, conn)
  {
  }

  lemma ListMoves(s: Daemon, e: Event, pid: nat, conn: nat)
    requires Inv(s) && Legal(s, e)
    ensures var t := After(s, e);
      (pid in t.listed && t.listed[pid] == conn) <==>
      (e == Connect(pid) && conn == s.nextConn) ||
      (e != Connect(pid) && e != Close(conn) && pid in s.listed && s.listed[pid] == conn)
  {
    hide TracksOk, ClientsOk, Respond, Admit;
  }
}
