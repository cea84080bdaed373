/**
 * Handing a list of allocations back: they are grouped by consumer and by donor region, while
 * other threads may commit, claim and abandon the same allocations.
 */
module Grouping {
  import opened Granularity
  import opened Collections
  import opened Allocation

  // ---------------------------------------------------------------- grouping by key

  /** The positions whose key is `k`, in order. */
  function Picks<K(==)>(keys: seq<Option<K>>, k: K): seq<nat> {
    if keys == [] then []
    else
      var n := |keys| - 1;
      Picks(keys[..n], k) + if keys[n] == Some(k) then [n] else []
  }

  /** The elements whose key is `k`, in order. */
  function Group<K(==), T>(items: seq<T>, keys: seq<Option<K>>, k: K): seq<T>
    requires |items| == |keys|
  {
    if keys == [] then []
    else
      var n := |keys| - 1;
      Group(items[..n], keys[..n], k) + if keys[n] == Some(k) then [items[n]] else []
  }

  /** `groups` holds the elements with each key, and nothing for keys that do not occur. */
  ghost predicate Grouped<K(!new), T>(groups: map<K, seq<T>>, items: seq<T>, keys: seq<Option<K>>) {
    |items| == |keys| &&
    forall k :: (k in groups <==> Some(k) in keys) && (k in groups ==> groups[k] == Group(items, keys, k))
  }

  lemma {:induction false} PicksAre<K>(keys: seq<Option<K>>, k: K)
    ensures StrictlyAscending(Picks(keys, k))
    ensures forall i: nat :: i in Picks(keys, k) <==> i < |keys| && keys[i] == Some(k)
  {
    if keys != [] {
      var n := |keys| - 1;
      PicksAre(keys[..n], k);
      LastPick(Picks(keys[..n], k), n);
    }
  }

  lemma LastPick(before: seq<nat>, n: nat)
    requires StrictlyAscending(before) && forall i: nat :: i in before ==> i < n
    ensures StrictlyAscending(before + [n])
  {
    assert forall i :: 0 <= i < |before| ==> before[i] in before;
  }

  lemma {:induction false} GroupIsPicked<K, T>(items: seq<T>, keys: seq<Option<K>>, k: K)
    requires |items| == |keys|
    ensures |Group(items, keys, k)| == |Picks(keys, k)|
    ensures forall j :: 0 <= j < |Picks(keys, k)| ==>
      0 <= Picks(keys, k)[j] < |items| && Group(items, keys, k)[j] == items[Picks(keys, k)[j]]
  {
    if keys != [] {
      GroupIsPicked(items[..|keys| - 1], keys[..|keys| - 1], k);
    }
  }

  /**
   * The grouping is an order-preserving partition of the elements that have a key: each position
   * is picked for exactly its own key, and each group lists its elements in their first order.
   */
  lemma {:induction false} GroupsPartition<K(!new), T>(groups: map<K, seq<T>>, items: seq<T>, keys: seq<Option<K>>)
    requires Grouped(groups, items, keys)
    ensures forall i: nat, k :: i < |keys| ==> (k in groups && i in Picks(keys, k) <==> keys[i] == Some(k))
    ensures forall k :: k in groups ==> StrictlyAscending(Picks(keys, k)) && |groups[k]| == |Picks(keys, k)|
    ensures forall k, j :: k in groups && 0 <= j < |groups[k]| ==>
      0 <= Picks(keys, k)[j] < |items| && groups[k][j] == items[Picks(keys, k)[j]]
  {
    forall k
      ensures StrictlyAscending(Picks(keys, k))
      ensures forall i: nat :: i in Picks(keys, k) <==> i < |keys| && keys[i] == Some(k)
      ensures |Group(items, keys, k)| == |Picks(keys, k)|
      ensures forall j :: 0 <= j < |Picks(keys, k)| ==>
        0 <= Picks(keys, k)[j] < |items| && Group(items, keys, k)[j] == items[Picks(keys, k)[j]]
    {
      PicksAre(keys, k);
      GroupIsPicked(items, keys, k);
    }
  }

  lemma NothingGrouped<K(!new), T>(groups: map<K, seq<T>>, items: seq<T>, keys: seq<Option<K>>)
    requires groups == map[] && items == [] && keys == []
    ensures Grouped(groups, items, keys)
  {
  }

  /** What `entry(k).or_default().push(item)` does to the groups, or its absence. */
  function Pushed<K, T>(groups: map<K, seq<T>>, key: Option<K>, item: T): map<K, seq<T>> {
    match key
    case None => groups
    case Some(k) => groups[k := (if k in groups then groups[k] else []) + [item]]
  }

  lemma PushedGroups<K(!new), T>(groups: map<K, seq<T>>, items: seq<T>, keys: seq<Option<K>>, key: Option<K>, item: T)
    requires Grouped(groups, items, keys)
    ensures Grouped(Pushed(groups, key, item), items + [item], keys + [key])
  {
    var more := keys + [key];
    assert more[..|keys|] == keys && (items + [item])[..|items|] == items;
    forall k ensures Group(items + [item], more, k) == Group(items, keys, k) + if key == Some(k) then [item] else [] {
    }
    forall k | Some(k) !in keys ensures Group(items, keys, k) == [] {
      NoGroup(items, keys, k);
    }
  }

  lemma {:induction false} NoGroup<K, T>(items: seq<T>, keys: seq<Option<K>>, k: K)
    requires |items| == |keys| && Some(k) !in keys
    ensures Group(items, keys, k) == []
  {
    if keys != [] {
      NoGroup(items[..|keys| - 1], keys[..|keys| - 1], k);
    }
  }

  // ---------------------------------------------------------------- virtual machines

  class Vm {
    const path: nat
    const isDonor: bool
    const isConsumer: bool
    /** Set once, when the VM leaves. */
    var exited: bool
    /** No strong reference is left, so weak references to it no longer upgrade. */
    var dropped: bool

    constructor (path: nat, isDonor: bool, isConsumer: bool)
      ensures this.path == path && this.isDonor == isDonor && this.isConsumer == isConsumer && !exited && !dropped
    {
      this.path, this.isDonor, this.isConsumer := path, isDonor, isConsumer;
      exited, dropped := false, false;
    }
  }

  /** The VM at `p` can still be reached, has not exited and is a consumer. */
  predicate ConsumerAt(vms: map<nat, Vm>, p: nat)
    reads vms.Values
  {
    p in vms && !vms[p].dropped && !vms[p].exited && vms[p].isConsumer
  }

  predicate DonorAt(vms: map<nat, Vm>, p: nat)
    reads vms.Values
  {
    p in vms && !vms[p].dropped && !vms[p].exited && vms[p].isDonor
  }

  ghost predicate Paths(vms: map<nat, Vm>) {
    forall p :: p in vms ==> vms[p].path == p
  }

  /** The donor is recorded before an allocation is committed. */
  ghost predicate DonorKnown(a: EphAllocation)
    reads a
  {
    a.state.Committed? || a.state.PendingRelease? ==> a.donorInfo.Some?
  }

  ghost predicate AllKnown(allocs: seq<EphAllocation>)
    reads allocs
  {
    forall i :: 0 <= i < |allocs| ==> DonorKnown(allocs[i])
  }

  // ---------------------------------------------------------------- the loop

  /** What one allocation shows, and what can be seen of the VMs. */
  datatype Seen = Seen(state: AllocState, donor: Option<DonorAllocation>)

  datatype World = World(consumers: set<nat>, donors: set<nat>)

  ghost function See(allocs: seq<EphAllocation>): (s: seq<Seen>)
    reads allocs
    ensures |s| == |allocs|
  {
    seq(|allocs|, k requires 0 <= k < |allocs| reads allocs => Seen(allocs[k].state, allocs[k].donorInfo))
  }

  /** The paths under which a consumer, or a donor, can still be reached. */
  ghost function Look(vms: map<nat, Vm>): World
    reads vms.Values
  {
    World(set p | p in vms && ConsumerAt(vms, p), set p | p in vms && DonorAt(vms, p))
  }

  /** A VM counts while it can be reached, has not exited, and has the state in question. */
  lemma LookSees(vms: map<nat, Vm>, p: nat)
    ensures p in Look(vms).consumers <==> p in vms && !vms[p].dropped && !vms[p].exited && vms[p].isConsumer
    ensures p in Look(vms).donors <==> p in vms && !vms[p].dropped && !vms[p].exited && vms[p].isDonor
  {
  }

  /** Other threads: VMs only leave, abandonment is final, and a donor once recorded stays. */
  ghost predicate Later(s: seq<Seen>, t: seq<Seen>) {
    |s| == |t| && forall k :: 0 <= k < |s| ==>
      (s[k].state.Abandoned? ==> t[k].state.Abandoned?) && (s[k].donor.Some? ==> t[k].donor == s[k].donor)
  }

  ghost predicate Fewer(v: World, w: World) {
    w.consumers <= v.consumers && w.donors <= v.donors
  }

  /** The threads that abandoned something took exactly `taken`; what was committed stays so otherwise. */
  ghost predicate TookOnly(allocs: seq<EphAllocation>, s: seq<Seen>, t: seq<Seen>, taken: set<EphAllocation>) {
    |allocs| == |s| == |t| && forall k :: 0 <= k < |s| ==>
      if allocs[k] in taken then !s[k].state.Abandoned? && t[k].state.Abandoned?
      else (t[k].state.Abandoned? ==> s[k].state.Abandoned?) && (Abandon(s[k].state).1 ==> Abandon(t[k].state).1)
  }

  /**
   * What other threads may do between two turns, and which allocations they abandoned; nothing
   * at all if `quiet`.
   */
  method Interfere(vms: map<nat, Vm>, allocs: seq<EphAllocation>,
                   ghost quiet: bool) returns (ghost taken: set<EphAllocation>)
    requires AllKnown(allocs)
    modifies vms.Values`exited, vms.Values`dropped, allocs`state, allocs`donorInfo
    ensures AllKnown(allocs)
    ensures Fewer(old(Look(vms)), Look(vms)) && Later(old(See(allocs)), See(allocs))
    ensures TookOnly(allocs, old(See(allocs)), See(allocs), taken)
    ensures quiet ==> Look(vms) == old(Look(vms)) && See(allocs) == old(See(allocs)) && taken == {}
  {
    taken := {};
  }

  /** The map of VMs met so far repeats entries of the VM list. */
  ghost predicate Within(vmMap: map<nat, Vm>, vms: map<nat, Vm>) {
    forall p :: p in vmMap ==> p in vms && vmMap[p] == vms[p]
  }

  ghost function ConsumerKey(w: World, a: EphAllocation): Option<nat> {
    if a.consumerVm in w.consumers then Some(a.consumerVm) else None
  }

  /** What an abandonment now is told: the donor whose memory its caller must return, if any. */
  ghost function Won(s: Seen): Option<DonorAllocation> {
    if Abandon(s.state).1 then s.donor else None
  }

  /** The donor group of an allocation that is abandoned now: the abandonment must win it. */
  ghost function DonorKey(w: World, s: Seen): Option<DonorAllocation> {
    if Won(s).Some? && Won(s).value.vm in w.donors then Won(s) else None
  }

  /** Every group has its VM at hand, and the VM has the state that the group is for. */
  ghost predicate Served(consumers: set<nat>, donors: set<DonorAllocation>, vmMap: map<nat, Vm>) {
    && (forall p :: p in consumers ==> p in vmMap && vmMap[p].isConsumer)
    && (forall d :: d in donors ==> d.vm in vmMap && vmMap[d.vm].isDonor)
  }

  /** One turn of the loop. */
  method FileOne(vms: map<nat, Vm>, a: EphAllocation, consumers: map<nat, seq<EphAllocation>>,
                 donors: map<DonorAllocation, seq<EphAllocation>>, vmMap: map<nat, Vm>)
    returns (consumers': map<nat, seq<EphAllocation>>, donors': map<DonorAllocation, seq<EphAllocation>>,
             vmMap': map<nat, Vm>, ghost won: Option<DonorAllocation>)
    requires Paths(vms) && Within(vmMap, vms) && Served(consumers.Keys, donors.Keys, vmMap)
    modifies {a}`state
    ensures a.state == Abandoned && won == Won(old(Seen(a.state, a.donorInfo)))
    ensures consumers' == Pushed(consumers, ConsumerKey(old(Look(vms)), a), a)
    ensures donors' == Pushed(donors, DonorKey(old(Look(vms)), old(Seen(a.state, a.donorInfo))), a)
    ensures won == if old(a.state) == Committed || old(a.state) == PendingRelease then old(a.donorInfo) else None
    ensures Within(vmMap', vms) && Served(consumers'.Keys, donors'.Keys, vmMap')
  {
    consumers', donors', vmMap' := consumers, donors, vmMap;
    if ConsumerAt(vms, a.consumerVm) {
      var path := vms[a.consumerVm].path;
      vmMap' := vmMap'[path := vms[a.consumerVm]];
      consumers' := consumers'[path := (if path in consumers' then consumers'[path] else []) + [a]];
    }
    var donor := a.AbandonOrTakeDonor();
    won := donor;
    if donor.Some? && DonorAt(vms, donor.value.vm) {
      var path := vms[donor.value.vm].path;
      vmMap' := vmMap'[path := vms[donor.value.vm]];
      var key := DonorAllocation(path, donor.value.qomPath);
      donors' := donors'[key := (if key in donors' then donors'[key] else []) + [a]];
    }
  }

  // ---------------------------------------------------------------- the whole list

  /** What the keys used so far say, from the start `(v, s)` to now `(w, t)`. */
  ghost predicate Fair(allocs: seq<EphAllocation>, v: World, s: seq<Seen>, w: World, t: seq<Seen>,
                       consumerKeys: seq<Option<nat>>, donorKeys: seq<Option<DonorAllocation>>, n: nat)
  {
    && n <= |allocs| == |s| && |consumerKeys| == |donorKeys| == n && Fewer(v, w) && Later(s, t)
    && (forall i :: 0 <= i < n ==> t[i].state.Abandoned?)
    && (forall i :: 0 <= i < n ==> ConsumerFair(v, w, allocs[i], consumerKeys[i]))
    && (forall i :: 0 <= i < n && donorKeys[i].Some? ==> DonorFair(v, s[i], t[i], donorKeys[i].value))
    && (forall i, j :: 0 <= i < j < n && allocs[i] == allocs[j] ==> donorKeys[j].None?)
  }

  /** A consumer that has left before is not used; one that is still there has been. */
  ghost predicate ConsumerFair(v: World, w: World, a: EphAllocation, key: Option<nat>) {
    && (key.Some? ==> key.value == a.consumerVm && a.consumerVm in v.consumers)
    && (a.consumerVm in w.consumers ==> key.Some?)
  }

  /** The donor key is the recorded donor, still there at the start, of an allocation not yet abandoned then. */
  ghost predicate DonorFair(v: World, s: Seen, t: Seen, key: DonorAllocation) {
    t.donor == Some(key) && !s.state.Abandoned? && key.vm in v.donors
  }

  lemma FairLater(allocs: seq<EphAllocation>, v: World, s: seq<Seen>, w: World, t: seq<Seen>, w': World, t': seq<Seen>,
                  consumerKeys: seq<Option<nat>>, donorKeys: seq<Option<DonorAllocation>>, n: nat)
    requires Fair(allocs, v, s, w, t, consumerKeys, donorKeys, n) && Fewer(w, w') && Later(t, t')
    ensures Fair(allocs, v, s, w', t', consumerKeys, donorKeys, n)
  {
  }

  lemma FairNext(allocs: seq<EphAllocation>, v: World, s: seq<Seen>, w: World, t: seq<Seen>, t': seq<Seen>,
                 consumerKeys: seq<Option<nat>>, donorKeys: seq<Option<DonorAllocation>>, n: nat)
    requires Fair(allocs, v, s, w, t, consumerKeys, donorKeys, n) && n < |allocs|
    requires forall i, j :: 0 <= i < j < |t| && allocs[i] == allocs[j] ==> t[i] == t[j]
    requires Later(t, t') && t'[n].state.Abandoned?
    ensures Fair(allocs, v, s, w, t', consumerKeys + [ConsumerKey(w, allocs[n])],
                 donorKeys + [DonorKey(w, t[n])], n + 1)
  {
  }

  /**
   * The duties: `won` is what this call's abandonments were told, `others` what other threads
   * abandoned during the call. Every duty won is filed unless its donor has left; each allocation
   * is won at most once, and one that was committed from the start is won here or by another thread.
   */
  ghost predicate Duties(allocs: seq<EphAllocation>, s: seq<Seen>, w: World, t: seq<Seen>,
                         donorKeys: seq<Option<DonorAllocation>>,
                         won: seq<Option<DonorAllocation>>, others: set<EphAllocation>, n: nat)
  {
    && n <= |allocs| == |s| == |t| && |won| == |donorKeys| == n
    && (forall i :: 0 <= i < n ==> Filed(w, donorKeys[i], won[i]))
    && (forall i :: 0 <= i < n && won[i].Some? ==>
          won[i] == t[i].donor && !s[i].state.Abandoned? && allocs[i] !in others)
    && (forall i :: 0 <= i < n && allocs[i] in allocs[..i] ==> won[i].None?)
    && (forall i :: 0 <= i < n && allocs[i] !in allocs[..i] && allocs[i] !in others && Abandon(s[i].state).1 ==>
          won[i].Some?)
  }

  ghost predicate Filed(w: World, key: Option<DonorAllocation>, won: Option<DonorAllocation>) {
    (key.Some? ==> won == key) && (won.Some? && won.value.vm in w.donors ==> key == won)
  }

  /** How the allocations stand that neither this call nor another thread has abandoned. */
  ghost predicate Standing(allocs: seq<EphAllocation>, s: seq<Seen>, t: seq<Seen>, others: set<EphAllocation>, n: nat) {
    && n <= |allocs| == |s| == |t|
    && (forall k :: 0 <= k < |allocs| && (allocs[k] in allocs[..n] || allocs[k] in others) ==> t[k].state.Abandoned?)
    && (forall k :: 0 <= k < |allocs| && s[k].state.Abandoned? ==> t[k].state.Abandoned? && allocs[k] !in others)
    && (forall k :: 0 <= k < |allocs| && allocs[k] !in allocs[..n] && allocs[k] !in others && Abandon(s[k].state).1 ==>
          Abandon(t[k].state).1)
  }

  lemma NoDuties(allocs: seq<EphAllocation>, s: seq<Seen>, w: World)
    requires |allocs| == |s|
    ensures Duties(allocs, s, w, s, [], [], {}, 0) && Standing(allocs, s, s, {}, 0)
  {
  }

  lemma DutiesLater(allocs: seq<EphAllocation>, s: seq<Seen>, w: World, t: seq<Seen>, w': World, t': seq<Seen>,
                    donorKeys: seq<Option<DonorAllocation>>, won: seq<Option<DonorAllocation>>,
                    others: set<EphAllocation>, taken: set<EphAllocation>, n: nat)
    requires Duties(allocs, s, w, t, donorKeys, won, others, n) && Standing(allocs, s, t, others, n)
    requires Fewer(w, w') && Later(t, t') && TookOnly(allocs, t, t', taken)
    ensures Duties(allocs, s, w', t', donorKeys, won, others + taken, n) && Standing(allocs, s, t', others + taken, n)
  {
    hide Abandon;
    assert forall i :: 0 <= i < n ==> allocs[i] in allocs[..n];
  }

  lemma DutiesNext(allocs: seq<EphAllocation>, s: seq<Seen>, w: World, t: seq<Seen>, t': seq<Seen>,
                   donorKeys: seq<Option<DonorAllocation>>, won: seq<Option<DonorAllocation>>,
                   others: set<EphAllocation>, n: nat)
    requires Duties(allocs, s, w, t, donorKeys, won, others, n) && Standing(allocs, s, t, others, n)
    requires n < |allocs| == |t'|
    requires Later(t, t') && (Abandon(t[n].state).1 ==> t[n].donor.Some?)
    requires forall k :: 0 <= k < |t| ==> if allocs[k] == allocs[n] then t'[k].state.Abandoned? else t'[k] == t[k]
    ensures Duties(allocs, s, w, t', donorKeys + [DonorKey(w, t[n])], won + [Won(t[n])], others, n + 1)
    ensures Standing(allocs, s, t', others, n + 1)
  {
    assert allocs[..n + 1] == allocs[..n] + [allocs[n]];
    StandingNext(allocs, s, t, t', others, n);
    FoundAbandoned(t[n]);
  }

  lemma FoundAbandoned(s: Seen)
    ensures s.state.Abandoned? ==> Won(s).None?
    ensures Abandon(s.state).1 ==> !s.state.Abandoned?
  {
  }

  lemma StandingNext(allocs: seq<EphAllocation>, s: seq<Seen>, t: seq<Seen>, t': seq<Seen>, others: set<EphAllocation>,
                     n: nat)
    requires Standing(allocs, s, t, others, n) && n < |allocs| == |t'|
    requires forall k :: 0 <= k < |t| ==> if allocs[k] == allocs[n] then t'[k].state.Abandoned? else t'[k] == t[k]
    ensures Standing(allocs, s, t', others, n + 1)
  {
    hide Abandon;
    assert allocs[..n + 1] == allocs[..n] + [allocs[n]];
  }

  lemma Recorded(allocs: seq<EphAllocation>, n: nat)
    requires AllKnown(allocs) && n < |allocs|
    ensures Abandon(See(allocs)[n].state).1 ==> See(allocs)[n].donor.Some?
  {
    assert DonorKnown(allocs[n]);
  }

  /** The keys that an undisturbed call uses: an allocation listed twice is won only once. */
  ghost predicate Exact(allocs: seq<EphAllocation>, v: World, s: seq<Seen>,
                        consumerKeys: seq<Option<nat>>, donorKeys: seq<Option<DonorAllocation>>, n: nat)
  {
    n <= |allocs| == |s| && |consumerKeys| == |donorKeys| == n && forall i :: 0 <= i < n ==>
      consumerKeys[i] == ConsumerKey(v, allocs[i]) &&
      donorKeys[i] == if allocs[i] in allocs[..i] then None else DonorKey(v, s[i])
  }

  lemma ExactNext(allocs: seq<EphAllocation>, v: World, s: seq<Seen>, t: seq<Seen>,
                  consumerKeys: seq<Option<nat>>, donorKeys: seq<Option<DonorAllocation>>, n: nat)
    requires Exact(allocs, v, s, consumerKeys, donorKeys, n) && n < |allocs| && Untouched(allocs, s, t, n)
    ensures Exact(allocs, v, s, consumerKeys + [ConsumerKey(v, allocs[n])], donorKeys + [DonorKey(v, t[n])], n + 1)
  {
  }

  /** The first `n` have been abandoned; the others, if not among them, are as they were. */
  ghost predicate Untouched(allocs: seq<EphAllocation>, s: seq<Seen>, t: seq<Seen>, n: nat) {
    n <= |allocs| == |s| == |t| && forall k :: 0 <= k < |allocs| ==>
      if allocs[k] in allocs[..n] then t[k].state.Abandoned? else t[k] == s[k]
  }

  lemma UntouchedNext(allocs: seq<EphAllocation>, s: seq<Seen>, t: seq<Seen>, t': seq<Seen>, n: nat)
    requires Untouched(allocs, s, t, n) && n < |allocs| && |t'| == |t|
    requires forall k :: 0 <= k < |t| ==> if allocs[k] == allocs[n] then t'[k].state.Abandoned? else t'[k] == t[k]
    ensures Untouched(allocs, s, t', n + 1)
  {
    assert allocs[..n + 1] == allocs[..n] + [allocs[n]];
  }

  /** `FileOne` among the whole list. */
  method FileNext(vms: map<nat, Vm>, allocs: seq<EphAllocation>, n: nat, consumers: map<nat, seq<EphAllocation>>,
                  donors: map<DonorAllocation, seq<EphAllocation>>, vmMap: map<nat, Vm>)
    returns (consumers': map<nat, seq<EphAllocation>>, donors': map<DonorAllocation, seq<EphAllocation>>,
             vmMap': map<nat, Vm>, ghost won: Option<DonorAllocation>)
    requires n < |allocs| && Paths(vms) && Within(vmMap, vms) && Served(consumers.Keys, donors.Keys, vmMap)
    requires AllKnown(allocs)
    modifies {allocs[n]}`state
    ensures consumers' == Pushed(consumers, ConsumerKey(old(Look(vms)), allocs[n]), allocs[n])
    ensures donors' == Pushed(donors, DonorKey(old(Look(vms)), old(See(allocs))[n]), allocs[n])
    ensures Within(vmMap', vms) && Served(consumers'.Keys, donors'.Keys, vmMap')
    ensures AllKnown(allocs) && Look(vms) == old(Look(vms)) && Later(old(See(allocs)), See(allocs))
    ensures See(allocs)[n].state.Abandoned? && won == Won(old(See(allocs))[n])
    ensures forall k :: 0 <= k < |allocs| ==>
      if allocs[k] == allocs[n] then See(allocs)[k].state.Abandoned? else See(allocs)[k] == old(See(allocs))[k]
  {
    hide Within, Served, Pushed;
    consumers', donors', vmMap', won := FileOne(vms, allocs[n], consumers, donors, vmMap);
  }

  /**
   * The grouping loop of `return_eph_memory_from_consumer`. The keys say which group each
   * allocation went to; the groups are exactly those keys' groups, whatever other threads do.
   */
  method Organize(vms: map<nat, Vm>, allocs: seq<EphAllocation>, ghost quiet: bool)
    returns (consumers: map<nat, seq<EphAllocation>>, donors: map<DonorAllocation, seq<EphAllocation>>,
             vmMap: map<nat, Vm>, ghost consumerKeys: seq<Option<nat>>, ghost donorKeys: seq<Option<DonorAllocation>>,
             ghost won: seq<Option<DonorAllocation>>, ghost others: set<EphAllocation>)
    requires Paths(vms) && AllKnown(allocs)
    modifies vms.Values`exited, vms.Values`dropped, allocs`state, allocs`donorInfo
    ensures Grouped(consumers, allocs, consumerKeys) && Grouped(donors, allocs, donorKeys)
    ensures Fair(allocs, old(Look(vms)), old(See(allocs)), Look(vms), See(allocs), consumerKeys, donorKeys, |allocs|)
    ensures Duties(allocs, old(See(allocs)), Look(vms), See(allocs), donorKeys, won, others, |allocs|)
    ensures quiet ==> others == {} && Exact(allocs, old(Look(vms)), old(See(allocs)), consumerKeys, donorKeys, |allocs|)
    ensures Served(consumers.Keys, donors.Keys, vmMap)
  {
    hide Grouped, Fair, Exact, Within, Served, Pushed, Look, See, Later, Fewer, Untouched, ConsumerKey,
      DonorKey, AllKnown, Duties, Standing, TookOnly, Won, Abandon;
    ghost var v, s := Look(vms), See(allocs);
    consumers, donors, vmMap := map[], map[], map[];
    consumerKeys, donorKeys, won, others := [], [], [], {};
    assert consumers.Keys == {} && donors.Keys == {};
    Begin(vms, allocs, v, s);
    NoDuties(allocs, s, v);
    for i := 0 to |allocs|
      invariant AllKnown(allocs) && Within(vmMap, vms) && Served(consumers.Keys, donors.Keys, vmMap)
      invariant Grouped(consumers, allocs[..i], consumerKeys) && Grouped(donors, allocs[..i], donorKeys)
      invariant Fair(allocs, v, s, Look(vms), See(allocs), consumerKeys, donorKeys, i)
      invariant Duties(allocs, s, Look(vms), See(allocs), donorKeys, won, others, i)
      invariant Standing(allocs, s, See(allocs), others, i)
      invariant quiet ==> others == {} && Look(vms) == v && Untouched(allocs, s, See(allocs), i)
      invariant quiet ==> Exact(allocs, v, s, consumerKeys, donorKeys, i)
    {
      OneFurther(allocs, i);
      ghost var w, t := Look(vms), See(allocs);
      ghost var taken := Interfere(vms, allocs, quiet);
      FairLater(allocs, v, s, w, t, Look(vms), See(allocs), consumerKeys, donorKeys, i);
      DutiesLater(allocs, s, w, t, Look(vms), See(allocs), donorKeys, won, others, taken, i);
      others := others + taken;
      Recorded(allocs, i);
      w, t := Look(vms), See(allocs);
      SameSeen(allocs);
      PushedGroups(consumers, allocs[..i], consumerKeys, ConsumerKey(w, allocs[i]), allocs[i]);
      PushedGroups(donors, allocs[..i], donorKeys, DonorKey(w, t[i]), allocs[i]);
      ghost var duty;
      consumers, donors, vmMap, duty := FileNext(vms, allocs, i, consumers, donors, vmMap);
      DutiesNext(allocs, s, w, t, See(allocs), donorKeys, won, others, i);
      FairNext(allocs, v, s, w, t, See(allocs), consumerKeys, donorKeys, i);
      if quiet {
        ExactNext(allocs, v, s, t, consumerKeys, donorKeys, i);
        UntouchedNext(allocs, s, t, See(allocs), i);
      }
      consumerKeys := consumerKeys + [ConsumerKey(w, allocs[i])];
      donorKeys, won := donorKeys + [DonorKey(w, t[i])], won + [duty];
    }
    assert allocs[..|allocs|] == allocs;
  }

  lemma OneFurther(allocs: seq<EphAllocation>, n: nat)
    requires n < |allocs|
    ensures allocs[..n + 1] == allocs[..n] + [allocs[n]]
  {
  }

  lemma SameSeen(allocs: seq<EphAllocation>)
    ensures forall i, j :: 0 <= i < j < |allocs| && allocs[i] == allocs[j] ==> See(allocs)[i] == See(allocs)[j]
  {
  }

  lemma Begin(vms: map<nat, Vm>, allocs: seq<EphAllocation>, v: World, s: seq<Seen>)
    requires |s| == |allocs|
    ensures Within(map[], vms) && Served({}, {}, map[])
    ensures Grouped<nat, EphAllocation>(map[], [], []) && Grouped<DonorAllocation, EphAllocation>(map[], [], [])
    ensures Fair(allocs, v, s, v, s, [], [], 0) && Untouched(allocs, s, s, 0) && Exact(allocs, v, s, [], [], 0)
  {
    NothingGrouped<nat, EphAllocation>(map[], [], []);
    NothingGrouped<DonorAllocation, EphAllocation>(map[], [], []);
  }

  // ---------------------------------------------------------------- the return commands

  /** One call of `return_and_bookkeep_eph_memory`: the donor and region, the bytes, and for whom. */
  datatype ReturnCommand = ReturnCommand(donor: DonorAllocation, bytes: nat, members: seq<EphAllocation>)

  /** One command for each group, of G for each member; in no particular order. */
  ghost predicate Sent(commands: seq<ReturnCommand>, donors: map<DonorAllocation, seq<EphAllocation>>) {
    && (forall c :: 0 <= c < |commands| ==> commands[c].donor in donors)
    && (forall c :: 0 <= c < |commands| ==>
          commands[c].members == donors[commands[c].donor] && commands[c].bytes == G * |commands[c].members|)
    && (forall c, d :: 0 <= c < d < |commands| ==> commands[c].donor != commands[d].donor)
    && (forall k :: k in donors ==> exists c :: 0 <= c < |commands| && commands[c].donor == k)
  }

  /** The donors' half of `return_eph_memory_from_consumer`; its threads may run in any order. */
  method ReturnToDonors(donors: map<DonorAllocation, seq<EphAllocation>>) returns (commands: seq<ReturnCommand>)
    ensures Sent(commands, donors)
  {
    commands := [];
    var rest := donors.Keys;
    while rest != {}
      invariant rest <= donors.Keys && forall c :: 0 <= c < |commands| ==> commands[c].donor in donors.Keys - rest
      invariant forall c :: 0 <= c < |commands| ==>
        commands[c].members == donors[commands[c].donor] && commands[c].bytes == G * |commands[c].members|
      invariant forall c, d :: 0 <= c < d < |commands| ==> commands[c].donor != commands[d].donor
      invariant forall k :: k in donors && k !in rest ==> exists c :: 0 <= c < |commands| && commands[c].donor == k
    {
      var k :| k in rest;
      ghost var before := commands;
      commands := commands + [ReturnCommand(k, G * |donors[k]|, donors[k])];
      rest := rest - {k};
      assert commands[|before|].donor == k;
      assert forall c :: 0 <= c < |before| ==> commands[c] == before[c];
    }
  }

  /** An element listed twice has a key at its first position only. */
  ghost predicate KeyedOnce<K, T>(items: seq<T>, keys: seq<Option<K>>) {
    |items| == |keys| && forall i, j :: 0 <= i < j < |items| && items[i] == items[j] ==> keys[j].None?
  }

  lemma InGroup<K(!new), T>(groups: map<K, seq<T>>, items: seq<T>, keys: seq<Option<K>>, i: nat, k: K)
    requires Grouped(groups, items, keys) && i < |keys| && keys[i] == Some(k)
    ensures k in groups && items[i] in groups[k]
  {
    hide Grouped, Picks;
    GroupsPartition(groups, items, keys);
    var j :| 0 <= j < |Picks(keys, k)| && Picks(keys, k)[j] == i;
    assert groups[k][j] == items[i];
  }

  lemma FromGroup<K(!new), T>(groups: map<K, seq<T>>, items: seq<T>, keys: seq<Option<K>>, k: K, a: T) returns (i: nat)
    requires Grouped(groups, items, keys) && k in groups && a in groups[k]
    ensures i < |items| == |keys| && items[i] == a && keys[i] == Some(k)
  {
    hide Picks, Group;
    GroupsPartition(groups, items, keys);
    var j :| 0 <= j < |groups[k]| && groups[k][j] == a;
    i := Picks(keys, k)[j];
    assert i in Picks(keys, k);
  }

  lemma GroupDistinct<K(!new), T>(groups: map<K, seq<T>>, items: seq<T>, keys: seq<Option<K>>, k: K)
    requires Grouped(groups, items, keys) && KeyedOnce(items, keys) && k in groups
    ensures Distinct(groups[k])
  {
    hide Picks, Group;
    GroupsPartition(groups, items, keys);
    forall i, j | 0 <= i < j < |groups[k]| ensures groups[k][i] != groups[k][j] {
      var p, q := Picks(keys, k)[i], Picks(keys, k)[j];
      assert p < q && q in Picks(keys, k);
    }
  }

  lemma GroupsApart<K(!new), T>(groups: map<K, seq<T>>, items: seq<T>, keys: seq<Option<K>>, k: K, l: K)
    requires Grouped(groups, items, keys) && KeyedOnce(items, keys) && k in groups && l in groups && k != l
    ensures forall a :: a in groups[k] ==> a !in groups[l]
  {
    hide Grouped;
    forall a | a in groups[k] ensures a !in groups[l] {
      var i := FromGroup(groups, items, keys, k, a);
      if a in groups[l] {
        var j := FromGroup(groups, items, keys, l, a);
        assert false;
      }
    }
  }

  lemma DutiesKeyedOnce(allocs: seq<EphAllocation>, s: seq<Seen>, w: World, t: seq<Seen>,
                        donorKeys: seq<Option<DonorAllocation>>, won: seq<Option<DonorAllocation>>,
                        others: set<EphAllocation>)
    requires Duties(allocs, s, w, t, donorKeys, won, others, |allocs|)
    ensures KeyedOnce(allocs, donorKeys)
  {
    hide Abandon;
    forall i, j | 0 <= i < j < |allocs| && allocs[i] == allocs[j] ensures donorKeys[j].None? {
      assert allocs[j] in allocs[..j] by { assert allocs[..j][i] == allocs[j]; }
      assert Filed(w, donorKeys[j], won[j]);
    }
  }

  /** The command `c` returns the allocation to the donor `d`. */
  ghost predicate Returns(commands: seq<ReturnCommand>, c: int, a: EphAllocation, d: DonorAllocation) {
    0 <= c < |commands| && commands[c].donor == d && a in commands[c].members
  }

  /** The call won the allocation from the donor `d`. */
  ghost predicate WonFrom(allocs: seq<EphAllocation>, won: seq<Option<DonorAllocation>>, a: EphAllocation,
                          d: DonorAllocation) {
    exists i :: 0 <= i < |allocs| && i < |won| && allocs[i] == a && won[i] == Some(d)
  }

  /**
   * Every duty won towards a donor that stays is in exactly one return command, once, of G for
   * each member; and every member of a command is a duty that this call won.
   */
  lemma EveryDutyIsReturned(allocs: seq<EphAllocation>, s: seq<Seen>, w: World, t: seq<Seen>,
                            donorKeys: seq<Option<DonorAllocation>>, won: seq<Option<DonorAllocation>>,
                            others: set<EphAllocation>, donors: map<DonorAllocation, seq<EphAllocation>>,
                            commands: seq<ReturnCommand>)
    requires Duties(allocs, s, w, t, donorKeys, won, others, |allocs|) && Grouped(donors, allocs, donorKeys)
    requires Sent(commands, donors)
    ensures forall i :: 0 <= i < |allocs| && won[i].Some? && won[i].value.vm in w.donors ==>
      exists c :: Returns(commands, c, allocs[i], won[i].value)
    ensures forall c :: 0 <= c < |commands| ==> commands[c].bytes == G * |commands[c].members|
    ensures forall c, a :: 0 <= c < |commands| && a in commands[c].members ==>
      WonFrom(allocs, won, a, commands[c].donor)
    ensures forall c :: 0 <= c < |commands| ==> Distinct(commands[c].members)
    ensures forall c, d, a :: 0 <= c < d < |commands| && a in commands[c].members ==> a !in commands[d].members
  {
    hide Group, Abandon, Grouped, Distinct, KeyedOnce;
    DutiesKeyedOnce(allocs, s, w, t, donorKeys, won, others);
    forall i | 0 <= i < |allocs| && won[i].Some? && won[i].value.vm in w.donors
      ensures exists c :: Returns(commands, c, allocs[i], won[i].value)
    {
      assert Filed(w, donorKeys[i], won[i]);
      InGroup(donors, allocs, donorKeys, i, won[i].value);
      var c :| 0 <= c < |commands| && commands[c].donor == won[i].value;
      assert Returns(commands, c, allocs[i], won[i].value);
    }
    forall c, a | 0 <= c < |commands| && a in commands[c].members ensures WonFrom(allocs, won, a, commands[c].donor) {
      var i := FromGroup(donors, allocs, donorKeys, commands[c].donor, a);
      assert Filed(w, donorKeys[i], won[i]);
    }
    forall c | 0 <= c < |commands| ensures Distinct(commands[c].members) {
      GroupDistinct(donors, allocs, donorKeys, commands[c].donor);
    }
    forall c, d | 0 <= c < d < |commands|
      ensures forall a :: a in commands[c].members ==> a !in commands[d].members
    {
      GroupsApart(donors, allocs, donorKeys, commands[c].donor, commands[d].donor);
    }
  }

  /**
   * `return_eph_memory_from_consumer` up to the answers of consumers and donors: the groups that
   * the consumers release, and the commands that the donors are sent.
   */
  method ReturnFromConsumer(vms: map<nat, Vm>, allocs: seq<EphAllocation>, ghost quiet: bool)
    returns (consumers: map<nat, seq<EphAllocation>>, commands: seq<ReturnCommand>,
             ghost consumerKeys: seq<Option<nat>>, ghost won: seq<Option<DonorAllocation>>,
             ghost others: set<EphAllocation>)
    requires Paths(vms) && AllKnown(allocs)
    modifies vms.Values`exited, vms.Values`dropped, allocs`state, allocs`donorInfo
    ensures |won| == |allocs| && forall i :: 0 <= i < |allocs| ==> allocs[i].state == Abandoned
    ensures Grouped(consumers, allocs, consumerKeys) && ConsumersFair(old(Look(vms)), Look(vms), allocs, consumerKeys)
    ensures forall i :: 0 <= i < |allocs| && won[i].Some? && won[i].value.vm in Look(vms).donors ==>
      exists c :: Returns(commands, c, allocs[i], won[i].value)
    ensures forall c :: 0 <= c < |commands| ==> commands[c].bytes == G * |commands[c].members|
    ensures forall c, a :: 0 <= c < |commands| && a in commands[c].members ==>
      WonFrom(allocs, won, a, commands[c].donor)
    ensures forall c :: 0 <= c < |commands| ==> Distinct(commands[c].members)
    ensures forall c, d, a :: 0 <= c < d < |commands| && a in commands[c].members ==> a !in commands[d].members
    ensures WonOrTaken(allocs, old(See(allocs)), won, others) && (quiet ==> others == {})
  {
    hide Grouped, Fair, Exact, Served, Duties, Distinct, Sent, Look, See;
    var donors, vmMap;
    ghost var donorKeys;
    ghost var v, s := Look(vms), See(allocs);
    consumers, donors, vmMap, consumerKeys, donorKeys, won, others := Organize(vms, allocs, quiet);
    commands := ReturnToDonors(donors);
    EveryDutyIsReturned(allocs, s, Look(vms), See(allocs), donorKeys, won, others, donors, commands);
    DutiesMean(allocs, s, Look(vms), See(allocs), donorKeys, won, others);
    FairMeans(vms, allocs, v, s, consumerKeys, donorKeys);
  }

  ghost predicate ConsumersFair(v: World, w: World, allocs: seq<EphAllocation>, consumerKeys: seq<Option<nat>>) {
    |consumerKeys| == |allocs| && forall i :: 0 <= i < |allocs| ==> ConsumerFair(v, w, allocs[i], consumerKeys[i])
  }

  /** What was committed from the start is won, once, by this call or taken by another thread. */
  ghost predicate WonOrTaken(allocs: seq<EphAllocation>, s: seq<Seen>, won: seq<Option<DonorAllocation>>,
                             others: set<EphAllocation>)
  {
    && |allocs| == |s| == |won|
    && (forall i :: 0 <= i < |allocs| && won[i].Some? ==> allocs[i] !in allocs[..i] && allocs[i] !in others)
    && (forall i :: 0 <= i < |allocs| && allocs[i] !in allocs[..i] && allocs[i] !in others && Abandon(s[i].state).1 ==>
          won[i].Some?)
  }

  lemma DutiesMean(allocs: seq<EphAllocation>, s: seq<Seen>, w: World, t: seq<Seen>,
                   donorKeys: seq<Option<DonorAllocation>>,
                   won: seq<Option<DonorAllocation>>, others: set<EphAllocation>)
    requires Duties(allocs, s, w, t, donorKeys, won, others, |allocs|)
    ensures WonOrTaken(allocs, s, won, others)
  {
  }

  lemma FairMeans(vms: map<nat, Vm>, allocs: seq<EphAllocation>, v: World, s: seq<Seen>, consumerKeys: seq<Option<nat>>,
                  donorKeys: seq<Option<DonorAllocation>>)
    requires Fair(allocs, v, s, Look(vms), See(allocs), consumerKeys, donorKeys, |allocs|)
    ensures forall i :: 0 <= i < |allocs| ==> allocs[i].state == Abandoned
    ensures ConsumersFair(v, Look(vms), allocs, consumerKeys)
  {
    forall i | 0 <= i < |allocs| ensures allocs[i].state == Abandoned {
      assert See(allocs)[i].state.Abandoned?;
    }
  }
}
