/**
 * The list of clients of ephemerald, as objects. Each operation on it is a step of the state
 * machine, so what holds in every run of the machine holds of the objects.
 */
module ClientRegistry {
  import opened Granularity
  import opened Collections
  import opened Ephemerald
  import opened EphemeraldRuns

  class ClientList {
    var clients: map<nat, Client>
    /** The source of connection ids. */
    var nextConnection: nat
    /** Every client ever registered, by connection: threads may still hold one that is not listed. */
    ghost var known: map<nat, Client>

    constructor ()
      ensures Valid() && Shows(Start)
    {
      clients, nextConnection, known := map[], 1, map[];
    }

    ghost predicate Valid()
      reads this
    {
      && (forall c :: c in known ==> known[c].connection == c && c < nextConnection)
      && (forall pid :: pid in clients ==> clients[pid].pid == pid && Known(clients[pid]))
    }

    ghost predicate Known(client: Client)
      reads this
    {
      client.connection in known && known[client.connection] == client
    }

    /** The list and the clients are those of the daemon state `s`. */
    ghost predicate Shows(s: Daemon)
      reads this, known.Values
    {
      s.listed == Listed(clients) && s.pids == Pids(known) && s.clients == States(known) && s.nextConn == nextConnection
    }

    /** The assignments of `register_client`. */
    method Insert(pid: nat) returns (client: Client)
      requires Valid()
      modifies this
      ensures Valid() && fresh(client) && Known(client) && pid in clients && clients[pid] == client
      ensures client.pid == pid && client.connection == old(nextConnection)
      ensures client.State() == ClientState(None, map[])
      ensures nextConnection == old(nextConnection) + 1 && clients == old(clients)[pid := client]
      ensures known == old(known)[old(nextConnection) := client]
    {
      client := new Client(pid, nextConnection);
      known := known[nextConnection := client];
      nextConnection := nextConnection + 1;
      clients := clients[pid := client];
    }

    /** `register_client`: the new connection replaces any other of the same process. */
    method Register(pid: nat, ghost s: Daemon) returns (client: Client)
      requires Valid() && Shows(s)
      modifies this
      ensures Valid() && Legal(s, Connect(pid)) && Shows(After(s, Connect(pid)))
      ensures fresh(client) && pid in clients && clients[pid] == client
    {
      hide Listed, Pids, States, Valid, Known;
      client := Insert(pid);
      ListedWith(old(clients), client);
      KnownWith(old(known), client);
    }

    /** The close handler: only the connection that is listed takes its entry away. */
    method Close(client: Client, ghost s: Daemon)
      requires Valid() && Shows(s) && Known(client)
      modifies this`clients
      ensures Valid() && Legal(s, EphemeraldRuns.Event.Close(client.connection))
      ensures Shows(After(s, EphemeraldRuns.Event.Close(client.connection)))
    {
      assert client.connection in Pids(known) && Pids(known)[client.connection] == client.pid;
      var isCurrent := client.pid in clients && clients[client.pid].connection == client.connection;
      assert isCurrent <==> client.pid in Listed(clients) && Listed(clients)[client.pid] == client.connection;
      if isCurrent {
        clients := clients - {client.pid};
      }
    }

    /**
     * The search of `handle_eph_mem_response`: a client found is one to which the response may be
     * handed; if none is found, nobody listed waits for it.
     */
    method Find(id: nat, g: Granted, more: bool, ghost s: Daemon) returns (found: Client?)
      requires Valid() && Shows(s) && 0 < g.size
      ensures found != null ==> Known(found) && Legal(s, Lookup(found.connection, id, g, more))
      ensures found == null ==> forall conn :: !Legal(s, Lookup(conn, id, g, more))
    {
      hide Ascending;
      found := null;
      var pids := Ascending(clients.Keys);
      for i := 0 to |pids|
        invariant forall j :: 0 <= j < i ==> pids[j] in clients
        invariant forall j :: 0 <= j < i ==> clients[pids[j]].pending.None? || clients[pids[j]].pending.value.id != id
      {
        assert pids[i] in Elems(pids);
        var client := clients[pids[i]];
        if client.pending.Some? && client.pending.value.id == id {
          assert s.listed[pids[i]] == client.connection;
          return client;
        }
      }
      forall pid | pid in clients ensures clients[pid].pending.None? || clients[pid].pending.value.id != id {
        assert pid in Elems(pids);
      }
    }

    /** `handle_eph_mem_request` up to the point where the request is forwarded. */
    method Enter(client: Client, id: nat, amount: nat, ghost s: Daemon) returns (forward: bool)
      requires Valid() && Shows(s) && Known(client) && Inv(s) && id in s.arrived
      requires s.tracks[id].conn == client.connection && s.tracks[id].amount == amount
      modifies client`pending
      ensures Valid() && Legal(s, EphemeraldRuns.Event.Enter(id)) && Shows(After(s, EphemeraldRuns.Event.Enter(id)))
      ensures forward <==> id in After(s, EphemeraldRuns.Event.Enter(id)).forwarding
    {
      hide Admit, Balanced, ClientsOk;
      StateOf(client);
      forward := client.AcceptRequest(id, amount);
      assert States(known) == old(States(known))[client.connection := client.State()];
    }

    /** `send_eph_mem_response` on a client that was found before, listed or not by now. */
    method Deliver(client: Client, id: nat, g: Granted, more: bool, ghost s: Daemon) returns (outcome: Outcome)
      requires Valid() && Shows(s) && Known(client) && Inv(s)
      requires Delivery(client.connection, id, g, more) in s.deliveries
      modifies client`pending, client`kept
      ensures Valid() && Legal(s, EphemeraldRuns.Event.Deliver(Delivery(client.connection, id, g, more)))
      ensures Shows(After(s, EphemeraldRuns.Event.Deliver(Delivery(client.connection, id, g, more))))
      ensures outcome == Respond(s.clients[client.connection], id, more, Some(g)).1
    {
      hide Respond, Balanced, TracksOk;
      StateOf(client);
      DeliveryKnown(s, Delivery(client.connection, id, g, more));
      assert ClientOk(s, client.connection, s.clients[client.connection]);
      outcome := client.SendEphMemResponse(id, more, Some(g));
      assert States(known) == old(States(known))[client.connection := client.State()];
    }

    lemma StateOf(client: Client)
      requires Known(client)
      ensures client.connection in States(known) && States(known)[client.connection] == client.State()
    {
    }
  }

  ghost function Listed(clients: map<nat, Client>): map<nat, nat> {
    map pid | pid in clients :: clients[pid].connection
  }

  ghost function Pids(known: map<nat, Client>): map<nat, nat> {
    map c | c in known :: known[c].pid
  }

  ghost function States(known: map<nat, Client>): map<nat, ClientState>
    reads known.Values
  {
    map c | c in known :: known[c].State()
  }

  lemma ListedWith(clients: map<nat, Client>, client: Client)
    ensures Listed(clients[client.pid := client]) == Listed(clients)[client.pid := client.connection]
  {
  }

  lemma KnownWith(known: map<nat, Client>, client: Client)
    ensures Pids(known[client.connection := client]) == Pids(known)[client.connection := client.pid]
    ensures States(known[client.connection := client]) == States(known)[client.connection := client.State()]
  {
  }

  lemma DeliveryKnown(s: Daemon, d: Delivery)
    requires Inv(s) && d in s.deliveries
    ensures d.conn in s.clients && d.id in s.tracks
  {
  }
}
