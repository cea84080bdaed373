/**
 * ephemerald inside a consumer VM: it forwards one request per client to the orchestrator and
 * folds the many responses into a single reply.
 */
module Ephemerald {
  import opened Granularity

  /** One response of the orchestrator: where the memory is in the device, and how much. */
  datatype Granted = Granted(offset: nat, size: nat)

  datatype Pending = Pending(id: nat, requested: nat, received: nat, granted: seq<Granted>)

  /** What the lock of a client protects: its pending request and its set of allocations. */
  datatype ClientState = ClientState(pending: Option<Pending>, kept: map<nat, Granted>)

  /** How one call of `send_eph_mem_response` ends. */
  datatype Outcome = NoPending | WrongId | TooLarge | Collected | Answered(amount: nat)

  function Total(granted: seq<Granted>): nat {
    if granted == [] then 0 else Total(granted[..|granted| - 1]) + granted[|granted| - 1].size
  }

  /** Extending a set ordered by offset: an element with a known offset is dropped. */
  function Keep(kept: map<nat, Granted>, granted: seq<Granted>): map<nat, Granted> {
    if granted == [] then kept
    else
      var last := granted[|granted| - 1];
      var before := Keep(kept, granted[..|granted| - 1]);
      if last.offset in before then before else before[last.offset := last]
  }

  predicate AtOffset(granted: seq<Granted>, o: nat) {
    exists g :: g in granted && g.offset == o
  }

  /** Nothing known is replaced, and every granted offset is known afterwards. */
  lemma {:induction false} KeepKeeps(kept: map<nat, Granted>, granted: seq<Granted>)
    ensures forall o :: o in kept ==> o in Keep(kept, granted) && Keep(kept, granted)[o] == kept[o]
    ensures forall o :: o in Keep(kept, granted) <==> o in kept || AtOffset(granted, o)
    ensures forall o :: o in Keep(kept, granted) && o !in kept ==>
      Keep(kept, granted)[o] in granted && Keep(kept, granted)[o].offset == o
  {
    if granted != [] {
      var n := |granted| - 1;
      KeepKeeps(kept, granted[..n]);
      assert granted == granted[..n] + [granted[n]];
      forall o ensures AtOffset(granted, o) <==> AtOffset(granted[..n], o) || granted[n].offset == o {
        assert granted[n] in granted;
      }
    }
  }

  /** The locked section of `send_eph_mem_response`, and what it decides to do. */
  function Respond(c: ClientState, id: nat, more: bool, g: Option<Granted>): (ClientState, Outcome) {
    if c.pending.None? then (c, NoPending)
    else
      var p := c.pending.value;
      if p.id != id then (c, WrongId)
      else if g.Some? && g.value.size > SaturatingSub(p.requested, p.received) then (c, TooLarge)
      else
        var q := if g.None? then p else p.(received := p.received + g.value.size, granted := p.granted + [g.value]);
        if more then (c.(pending := Some(q)), Collected)
        else (ClientState(None, Keep(c.kept, q.granted)), Answered(q.received))
  }

  /** The locked section of `handle_eph_mem_request`; the flag says whether the request is forwarded. */
  function Admit(c: ClientState, id: nat, amount: nat): (ClientState, bool) {
    var rounded := NextMultiple(amount);
    if rounded.None? || rounded.value == 0 || c.pending.Some? then (c, false)
    else (c.(pending := Some(Pending(id, rounded.value, 0, []))), true)
  }

  /** The books of a pending request: what was received is what was collected, and no more than asked for. */
  predicate Balanced(c: ClientState) {
    c.pending.Some? ==> var p := c.pending.value;
      p.received == Total(p.granted) && p.received <= p.requested && 0 < p.requested && Whole(p.requested)
  }

  /** The response is for the pending request but would bring more than was asked for. */
  predicate Exceeds(c: ClientState, id: nat, g: Option<Granted>) {
    && c.pending.Some? && c.pending.value.id == id && g.Some?
    && Total(c.pending.value.granted + [g.value]) > c.pending.value.requested
  }

  /** Both locked sections keep the books, and an answer is the sum of everything collected. */
  lemma ResponseIsBalanced(c: ClientState, id: nat, more: bool, g: Option<Granted>)
    requires Balanced(c)
    ensures Balanced(Respond(c, id, more, g).0)
    ensures var outcome := Respond(c, id, more, g).1;
      outcome.Answered? ==> c.pending.Some? && outcome.amount <= c.pending.value.requested
    ensures var outcome := Respond(c, id, more, g).1;
      outcome.Answered? ==> outcome.amount == Total(c.pending.value.granted + if g.Some? then [g.value] else [])
    ensures Respond(c, id, more, g).1.TooLarge? <==> Exceeds(c, id, g)
    ensures var (d, outcome) := Respond(c, id, more, g);
      outcome.NoPending? || outcome.WrongId? || outcome.TooLarge? ==> d == c
  {
    hide Whole;
    if c.pending.Some? && g.Some? {
      assert (c.pending.value.granted + [g.value])[..|c.pending.value.granted|] == c.pending.value.granted;
    }
    assert c.pending.Some? ==> c.pending.value.granted + [] == c.pending.value.granted;
  }

  /** A request is taken only if none is pending; a refusal changes nothing. */
  lemma AdmissionRefuses(c: ClientState, id: nat, amount: nat)
    ensures var (d, forward) := Admit(c, id, amount);
      && (c.pending.Some? ==> !forward) && (!forward ==> d == c)
      && (forward <==> c.pending.None? && 0 < amount && NextMultiple(amount).Some?)
      && (forward ==> d.kept == c.kept && d.pending == Some(Pending(id, NextMultiple(amount).value, 0, [])))
  {
    RoundsToZero(amount);
  }

  lemma RoundsToZero(amount: nat)
    ensures NextMultiple(amount) == Some(0) <==> amount == 0
  {
  }

  lemma AdmissionIsBalanced(c: ClientState, id: nat, amount: nat)
    requires Balanced(c)
    ensures Balanced(Admit(c, id, amount).0)
  {
  }

  // ---------------------------------------------------------------- the daemon's objects

  class Client {
    const pid: nat
    const connection: nat
    var pending: Option<Pending>
    var kept: map<nat, Granted>

    constructor (pid: nat, connection: nat)
      ensures this.pid == pid && this.connection == connection && State() == ClientState(None, map[])
    {
      this.pid, this.connection := pid, connection;
      pending, kept := None, map[];
    }

    function State(): ClientState
      reads this
    {
      ClientState(pending, kept)
    }

    /** `mut_state.allocations.extend(...)`. */
    method Extend(granted: seq<Granted>)
      modifies this`kept
      ensures kept == Keep(old(kept), granted)
    {
      for i := 0 to |granted|
        invariant kept == Keep(old(kept), granted[..i])
      {
        assert granted[..i + 1][..i] == granted[..i];
        if granted[i].offset !in kept {
          kept := kept[granted[i].offset := granted[i]];
        }
      }
      assert granted[..|granted|] == granted;
    }

    /** `send_eph_mem_response`; the subtraction cannot underflow. */
    method SendEphMemResponse(id: nat, more: bool, allocation: Option<Granted>) returns (outcome: Outcome)
      requires Balanced(State())
      modifies this`pending, this`kept
      ensures (State(), outcome) == Respond(old(State()), id, more, allocation)
    {
      hide Total, Keep;
      if pending == None {
        return NoPending;
      }
      if pending.value.id != id {
        return WrongId;
      }
      if allocation.Some? {
        var remaining: nat := pending.value.requested - pending.value.received;
        if allocation.value.size > remaining {
          return TooLarge;
        }
        var p := pending.value;
        pending := Some(p.(received := p.received + allocation.value.size, granted := p.granted + [allocation.value]));
      }
      if more {
        return Collected;
      }
      var taken := pending.value;
      pending := None;
      Extend(taken.granted);
      return Answered(taken.received);
    }

    /** `handle_eph_mem_request` up to the point where the request is forwarded. */
    method AcceptRequest(id: nat, amount: nat) returns (forward: bool)
      modifies this`pending
      ensures (State(), forward) == Admit(old(State()), id, amount)
      ensures old(pending).Some? ==> !forward
      ensures !forward ==> State() == old(State())
      ensures forward ==> pending.Some? && pending.value.id == id && pending.value.granted == [] && kept == old(kept)
      ensures forward <==> old(pending).None? && 0 < amount && NextMultiple(amount).Some?
    {
      RoundsToZero(amount);
      var rounded := NextMultiple(amount);
      if rounded == None || rounded.value == 0 || pending.Some? {
        return false;
      }
      pending := Some(Pending(id, rounded.value, 0, []));
      return true;
    }
  }
}
