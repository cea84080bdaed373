/**
 * One 256 MiB allocation: its state machine, its write-once fields, and the
 * question of who must hand its memory back to the donor.
 */
module Allocation {
  import opened Granularity

  datatype AllocState = PendingCommit | Committed | PendingRelease | Abandoned

  /** The donor VM (by socket path) and the memory device on it. */
  datatype DonorAllocation = DonorAllocation(vm: nat, qomPath: string)

  /** Kept: the commit returned true. Refused: it returned false. Panicked: it aborted. */
  datatype CommitOutcome = Kept | Refused | Panicked

  // ---------------------------------------------------------------- lock sections

  /** The lock section at the end of `commit_allocation`. */
  function LockCommit(s: AllocState): (AllocState, CommitOutcome) {
    match s
    case PendingCommit => (Committed, Kept)
    case Abandoned => (Abandoned, Refused)
    case Committed | PendingRelease => (s, Panicked)
  }

  /** `try_claim_for_revoke`; the flag says whether the claim was won. */
  function Claim(s: AllocState): (AllocState, bool) {
    if s.Committed? then (PendingRelease, true) else (s, false)
  }

  /** `abandon_or_take_donor`; the flag says whether the donor is looked up. */
  function Abandon(s: AllocState): (AllocState, bool) {
    (Abandoned, s.Committed? || s.PendingRelease?)
  }

  class EphAllocation {
    const id: nat
    const consumerOffset: nat
    /** The socket path of the consumer VM that asked for this allocation. */
    const consumerVm: nat
    var state: AllocState
    var donorInfo: Option<DonorAllocation>
    var dcdSet: bool
    var releaseRequested: bool

    constructor (id: nat, consumerOffset: nat, consumerVm: nat)
      ensures this.id == id && this.consumerOffset == consumerOffset && this.consumerVm == consumerVm
      ensures state == PendingCommit && donorInfo == None && !dcdSet && !releaseRequested
    {
      this.id, this.consumerOffset, this.consumerVm := id, consumerOffset, consumerVm;
      state, donorInfo, dcdSet, releaseRequested := PendingCommit, None, false, false;
    }

    /** First half of `commit_allocation`: the donor is recorded before the lock is taken. */
    method RecordDonor(donor: DonorAllocation) returns (panicked: bool)
      modifies this`donorInfo
      ensures panicked == old(donorInfo).Some?
      ensures donorInfo == if panicked then old(donorInfo) else Some(donor)
    {
      panicked := donorInfo.Some?;
      if !panicked {
        donorInfo := Some(donor);
      }
    }

    /** Second half of `commit_allocation`. */
    method CommitLocked() returns (outcome: CommitOutcome)
      modifies this`state
      ensures (state, outcome) == LockCommit(old(state))
    {
      match state {
        case PendingCommit => state := Committed; outcome := Kept;
        case Abandoned => outcome := Refused;
        case Committed => outcome := Panicked;
        case PendingRelease => outcome := Panicked;
      }
    }

    method TryClaimForRevoke() returns (won: bool)
      modifies this`state
      ensures (state, won) == Claim(old(state))
    {
      if state == Committed {
        state := PendingRelease;
        won := true;
      } else {
        won := false;
      }
    }

    method AbandonOrTakeDonor() returns (donor: Option<DonorAllocation>)
      modifies this`state
      ensures state == Abandon(old(state)).0
      ensures donor == if Abandon(old(state)).1 then donorInfo else None
    {
      match state {
        case Committed => state := Abandoned; donor := donorInfo;
        case PendingRelease => state := Abandoned; donor := donorInfo;
        case PendingCommit => state := Abandoned; donor := None;
        case Abandoned => donor := None;
      }
    }
  }

  // ---------------------------------------------------------------- all interleavings

  /** How far the single `commit_allocation` of an allocation has come. */
  datatype Progress = NotStarted | Recorded | Finished

  datatype Event = RecordEvent | LockEvent | ClaimEvent | AbandonEvent

  /** The allocation together with a count of what each kind of caller was told. */
  datatype History = History(
    state: AllocState, progress: Progress,
    refusals: nat, taken: nat, abandons: nat, claims: nat, panics: nat)
  {
    /** Number of callers told to return the donor's memory. */
    function Duties(): nat { refusals + taken }
  }

  const Fresh: History := History(PendingCommit, NotStarted, 0, 0, 0, 0, 0)

  function After(h: History, e: Event): History {
    match e
    case RecordEvent => h.(progress := Recorded, panics := h.panics + if h.progress.NotStarted? then 0 else 1)
    case LockEvent =>
      var (s, outcome) := LockCommit(h.state);
      h.(state := s, progress := Finished,
         refusals := h.refusals + if outcome.Refused? then 1 else 0,
         panics := h.panics + if outcome.Panicked? then 1 else 0)
    case ClaimEvent =>
      var (s, won) := Claim(h.state);
      h.(state := s, claims := h.claims + if won then 1 else 0)
    case AbandonEvent =>
      var (s, look) := Abandon(h.state);
      // The donor found is whatever has been recorded by then.
      h.(state := s, abandons := h.abandons + 1,
         taken := h.taken + if look && !h.progress.NotStarted? then 1 else 0)
  }

  /** One commit per allocation, in its two steps; claims and abandonments at any time. */
  predicate Allowed(h: History, e: Event) {
    (e.RecordEvent? ==> h.progress.NotStarted?) && (e.LockEvent? ==> h.progress.Recorded?)
  }

  function Run(events: seq<Event>): History {
    if events == [] then Fresh else After(Run(events[..|events| - 1]), events[|events| - 1])
  }

  predicate Interleaving(events: seq<Event>) {
    events == [] ||
    (Interleaving(events[..|events| - 1]) && Allowed(Run(events[..|events| - 1]), events[|events| - 1]))
  }

  /** What every interleaving keeps true of an allocation. */
  predicate Sound(h: History) {
    && h.panics == 0
    && h.claims <= 1
    && (h.state.PendingRelease? ==> h.claims == 1)
    && (h.state.Committed? ==> h.claims == 0)
    && (h.state.PendingCommit? ==> !h.progress.Finished? && h.claims == 0)
    && (h.state.Committed? || h.state.PendingRelease? ==> h.progress.Finished?)
    && (h.state.Abandoned? <==> h.abandons > 0)
    && (!h.progress.Finished? ==> h.claims == 0)
    && h.Duties() == (if h.progress.Finished? && h.abandons > 0 then 1 else 0)
  }

  lemma FreshSound(h: History)
    requires h == Fresh
    ensures Sound(h)
  {
  }

  lemma SoundStep(h: History, e: Event)
    requires Sound(h) && Allowed(h, e)
    ensures Sound(After(h, e))
  {
  }

  lemma {:induction false} SoundRun(events: seq<Event>)
    requires Interleaving(events)
    ensures Sound(Run(events))
  {
    if events != [] {
      var before, last := events[..|events| - 1], events[|events| - 1];
      SoundRun(before);
      SoundStep(Run(before), last);
      assert Run(events) == After(Run(before), last);
    }
  }

  /**
   * Exactly-once return. In every interleaving nobody panics, at most one revoke wins the
   * allocation, and the duty to return the donor's memory is held by nobody until both the
   * commit and some abandonment have completed, and by exactly one caller from then on.
   */
  lemma {:induction false} ExactlyOneReturner(events: seq<Event>, h: History)
    requires Interleaving(events) && h == Run(events)
    ensures h.panics == 0 && h.claims <= 1
    ensures h.Duties() == (if h.progress.Finished? && h.abandons > 0 then 1 else 0)
  {
    SoundRun(events);
  }

  /** Which caller it is: the commit if an abandonment came before its lock, else an abandonment. */
  lemma {:induction false} OrderPicksTheReturner(events: seq<Event>, k: nat)
    requires Interleaving(events) && k < |events| && events[k] == LockEvent
    ensures Run(events).refusals == (if AbandonEvent in events[..k] then 1 else 0)
  {
    hide After, Sound;
    var n := |events| - 1;
    var before := events[..n];
    assert Run(events) == After(Run(before), events[n]);
    if k == n {
      assert events[..k] == before;
      LockDecides(before);
    } else {
      assert events[..k] == before[..k];
      OrderPicksTheReturner(before, k);
      FinishedStays(before, k);
      NothingAfterFinished(Run(before), events[n]);
    }
  }

  lemma LockDecides(before: seq<Event>)
    requires Interleaving(before) && Run(before).progress.Recorded?
    ensures After(Run(before), LockEvent).refusals == (if AbandonEvent in before then 1 else 0)
  {
    hide Run, Interleaving;
    SoundRun(before);
    AbandonedIffSeen(before);
  }

  lemma NothingAfterFinished(h: History, e: Event)
    requires h.progress.Finished? && Allowed(h, e)
    ensures After(h, e).refusals == h.refusals && After(h, e).progress.Finished?
  {
  }

  lemma {:induction false} AbandonedIffSeen(events: seq<Event>)
    requires Interleaving(events)
    ensures (Run(events).abandons > 0) <==> AbandonEvent in events
  {
    if events != [] {
      AbandonedIffSeen(events[..|events| - 1]);
      assert events == events[..|events| - 1] + [events[|events| - 1]];
    }
  }

  lemma {:induction false} FinishedStays(events: seq<Event>, k: nat)
    requires Interleaving(events) && k < |events| && events[k] == LockEvent
    ensures Run(events).progress.Finished?
  {
    if k < |events| - 1 {
      FinishedStays(events[..|events| - 1], k);
    }
  }
}
