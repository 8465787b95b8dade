/**
 The state an outbound authority keeps under its mutex, and the critical sections
 that change it.

 Every `function` below is one critical section of the lease protocol as a state
 transformer; the classes run the same sections in place.  Poisoned mutexes are
 taken over by the source, so a section always runs.
 */
module AuthorityState {
  import opened Wrappers
  import SchedulerLatch

  datatype Health = Persisted | FailClosedDefault | FailClosedUncertain

  datatype Capability =
    | GmailAuthorize
    | GmailSync
    | GmailRevoke
    | ReceiptImageFetch
    | PhotoKitMaterialize
    | OpenAiRecommendation
    | OpenAiReceiptIntelligence
    | OpenAiTryOn

  datatype Snapshot = Snapshot(localOnly: bool, revision: nat, health: Health)

  datatype AuthorityError = Denied | TransitionInProgress

  /** The mutex-protected record. */
  datatype Shared = Shared(snapshot: Snapshot, transitioning: bool, activeLeases: nat)

  /** `usize::MAX` on the 64-bit targets: `checked_add` panics beyond it. */
  const MAX_LEASES: nat := 0xFFFF_FFFF_FFFF_FFFF

  /** A lease, a refusal, or the panic of the bounded lease counter. */
  datatype AcquireOutcome = Leased | Refused(error: AuthorityError) | CounterPanic

  /** A transition is refused, opens at once, or sleeps until the leases drain. */
  datatype BeginOutcome = NotBegun(error: AuthorityError) | Opened(prior: Snapshot) | Draining

  /** `None` asks for a local cleanup lease, which the mode does not restrict. */
  function AcquireOutcomeOf(s: Shared, capability: Option<Capability>): AcquireOutcome {
    if s.transitioning then Refused(TransitionInProgress)
    else if capability.Some? && s.snapshot.localOnly then Refused(Denied)
    else if s.activeLeases == MAX_LEASES then CounterPanic
    else Leased
  }

  function AfterAcquire(s: Shared, capability: Option<Capability>): Shared {
    if AcquireOutcomeOf(s, capability).Leased? then s.(activeLeases := s.activeLeases + 1) else s
  }

  function AfterRelease(s: Shared): Shared {
    s.(activeLeases := if s.activeLeases == 0 then 0 else s.activeLeases - 1)
  }

  function BeginOutcomeOf(s: Shared): BeginOutcome {
    if s.transitioning then NotBegun(TransitionInProgress)
    else if s.activeLeases == 0 then Opened(s.snapshot)
    else Draining
  }

  function AfterBegin(s: Shared): Shared {
    s.(transitioning := true)
  }

  function RecheckOutcomeOf(s: Shared): BeginOutcome {
    if s.activeLeases == 0 then Opened(s.snapshot) else Draining
  }

  /** The snapshot an unproven publication leaves behind. */
  function FailClosedSnapshot(prior: Snapshot): Snapshot {
    Snapshot(true, prior.revision, if prior.revision == 0 then FailClosedDefault else FailClosedUncertain)
  }

  function AfterClose(s: Shared, next: Snapshot): Shared {
    s.(snapshot := next, transitioning := false)
  }

  class OutboundAuthority {
    var snapshot: Snapshot
    var transitioning: bool
    var activeLeases: nat

    ghost function State(): Shared
      reads this
    {
      Shared(snapshot, transitioning, activeLeases)
    }

    constructor (initial: Snapshot)
      ensures State() == Shared(initial, false, 0)
    {
      snapshot := initial;
      transitioning := false;
      activeLeases := 0;
    }

    method Acquire(capability: Capability) returns (outcome: AcquireOutcome)
      modifies this
      ensures outcome == AcquireOutcomeOf(old(State()), Some(capability))
      ensures State() == AfterAcquire(old(State()), Some(capability))
      ensures outcome == Refused(TransitionInProgress) <==> old(transitioning)
      ensures outcome == Refused(Denied) <==> !old(transitioning) && old(snapshot).localOnly
      ensures outcome.Leased? <==>
              !old(transitioning) && !old(snapshot).localOnly && old(activeLeases) != MAX_LEASES
      ensures activeLeases == old(activeLeases) + (if outcome.Leased? then 1 else 0)
      ensures snapshot == old(snapshot) && transitioning == old(transitioning)
    {
      if transitioning {
        return Refused(TransitionInProgress);
      }
      if snapshot.localOnly {
        return Refused(Denied);
      }
      if activeLeases == MAX_LEASES {
        return CounterPanic;
      }
      activeLeases := activeLeases + 1;
      return Leased;
    }

    method AcquireLocalCleanup() returns (outcome: AcquireOutcome)
      modifies this
      ensures outcome == AcquireOutcomeOf(old(State()), None)
      ensures State() == AfterAcquire(old(State()), None)
      ensures outcome == Refused(TransitionInProgress) <==> old(transitioning)
      ensures outcome != Refused(Denied)
      ensures outcome.Leased? <==> !old(transitioning) && old(activeLeases) != MAX_LEASES
      ensures activeLeases == old(activeLeases) + (if outcome.Leased? then 1 else 0)
      ensures snapshot == old(snapshot) && transitioning == old(transitioning)
    {
      if transitioning {
        return Refused(TransitionInProgress);
      }
      if activeLeases == MAX_LEASES {
        return CounterPanic;
      }
      activeLeases := activeLeases + 1;
      return Leased;
    }

    /** `OutboundLease::drop`; `notify` says whether the condition variable is signalled. */
    method ReleaseLease() returns (notify: bool)
      modifies this
      ensures State() == AfterRelease(old(State()))
      ensures old(activeLeases) > 0 ==> activeLeases == old(activeLeases) - 1
      ensures old(activeLeases) == 0 ==> activeLeases == 0
      ensures snapshot == old(snapshot) && transitioning == old(transitioning)
      ensures notify <==> activeLeases == 0
    {
      if activeLeases > 0 {
        activeLeases := activeLeases - 1;
      }
      notify := activeLeases == 0;
    }

    /** `begin_transition` up to its first wait, which gives the mutex back. */
    method BeginTransition() returns (outcome: BeginOutcome)
      modifies this
      ensures outcome == BeginOutcomeOf(old(State()))
      ensures State() == AfterBegin(old(State()))
      ensures outcome == NotBegun(TransitionInProgress) <==> old(transitioning)
      ensures outcome.Draining? <==> !old(transitioning) && old(activeLeases) > 0
      ensures outcome == Opened(old(snapshot)) <==> !old(transitioning) && old(activeLeases) == 0
      ensures transitioning && snapshot == old(snapshot) && activeLeases == old(activeLeases)
    {
      if transitioning {
        return NotBegun(TransitionInProgress);
      }
      transitioning := true;
      outcome := RecheckIdle();
    }

    /** One turn of the wait loop, entered with the mutex held again. */
    method RecheckIdle() returns (outcome: BeginOutcome)
      ensures outcome == RecheckOutcomeOf(State())
      ensures outcome == if activeLeases == 0 then Opened(snapshot) else Draining
    {
      outcome := if activeLeases != 0 then Draining else Opened(snapshot);
    }
  }

  /** The guard object of an open transition. */
  class OutboundTransition {
    const authority: OutboundAuthority
    const prior: Snapshot
    var completed: bool

    constructor (authority: OutboundAuthority, prior: Snapshot)
      ensures this.authority == authority && this.prior == prior && !completed
    {
      this.authority := authority;
      this.prior := prior;
      completed := false;
    }

    method Publish(next: Snapshot)
      modifies this, authority
      ensures completed && authority.State() == AfterClose(old(authority.State()), next)
      ensures authority.snapshot == next && !authority.transitioning
      ensures authority.activeLeases == old(authority.activeLeases)
    {
      authority.snapshot := next;
      authority.transitioning := false;
      completed := true;
    }

    method FailClosed()
      modifies this, authority
      ensures completed
      ensures authority.State() == AfterClose(old(authority.State()), FailClosedSnapshot(prior))
      ensures authority.snapshot.localOnly && authority.snapshot.revision == prior.revision
      ensures authority.snapshot.health == FailClosedDefault <==> prior.revision == 0
      ensures authority.snapshot.health == FailClosedUncertain <==> prior.revision != 0
      ensures !authority.transitioning && authority.activeLeases == old(authority.activeLeases)
    {
      authority.snapshot :=
        Snapshot(true, prior.revision, if prior.revision == 0 then FailClosedDefault else FailClosedUncertain);
      authority.transitioning := false;
      completed := true;
    }

    /** Rolls back only when neither `Publish` nor `FailClosed` ran. */
    method Drop()
      modifies authority
      ensures authority.State() ==
              if completed then old(authority.State()) else AfterClose(old(authority.State()), prior)
      ensures !completed ==> authority.snapshot == prior && !authority.transitioning
      ensures authority.activeLeases == old(authority.activeLeases)
    {
      if completed {
        return;
      }
      authority.snapshot := prior;
      authority.transitioning := false;
    }
  }

  /** What the durable mode store reports to the handler of a mode change. */
  datatype StoreOutcome =
    | Acknowledged(response: Snapshot)
    | UnknownButProven(response: Snapshot)
    | UnknownUnproven
    | PlatformFailure

  /** The snapshot in force once `handle_set_local_only` has let go of its transition. */
  function ResolvedSnapshot(prior: Snapshot, outcome: StoreOutcome): Snapshot {
    match outcome
    case Acknowledged(response) => response
    case UnknownButProven(response) => response
    case UnknownUnproven => FailClosedSnapshot(prior)
    case PlatformFailure => prior
  }

  /**
   The part of `handle_set_local_only` after the transition is open.  The queued try-on
   wake is cancelled exactly when the outcome is decisive and leaves the mode local-only.
   */
  method ResolveTransition(transition: OutboundTransition, latch: SchedulerLatch.TryOnSchedulerLatch,
                           outcome: StoreOutcome)
    requires !transition.completed && latch.Valid()
    modifies transition, transition.authority, latch
    ensures transition.authority.State() ==
            AfterClose(old(transition.authority.State()), ResolvedSnapshot(transition.prior, outcome))
    ensures latch.Valid()
    ensures latch.world ==
            if !outcome.PlatformFailure? && ResolvedSnapshot(transition.prior, outcome).localOnly
            then SchedulerLatch.Next(old(latch.world), SchedulerLatch.CancelQueued)
            else old(latch.world)
  {
    match outcome {
      case Acknowledged(response) =>
        if response.localOnly {
          latch.CancelQueued();
        }
        transition.Publish(response);
      case UnknownButProven(response) =>
        if response.localOnly {
          latch.CancelQueued();
        }
        transition.Publish(response);
      case UnknownUnproven =>
        latch.CancelQueued();
        transition.FailClosed();
      case PlatformFailure =>
    }
    transition.Drop();
  }
}
