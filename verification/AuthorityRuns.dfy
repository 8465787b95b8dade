/**
 The lease protocol as many threads run it.

 A `World` is the shared record plus who holds what: live leases, threads asleep or
 awake in the drain loop, and open transitions.  An `Action` is one critical section
 (or one wake-up) of one thread; a run is any sequence of enabled actions.
 */
module AuthorityRuns {
  import opened Wrappers
  import opened AuthorityState

  type Thread = nat
  type LeaseId = nat

  datatype Lease = Lease(owner: Thread, capability: Option<Capability>)

  datatype Waiter = Asleep | Awake

  datatype World = World(
    shared: Shared,
    leases: map<LeaseId, Lease>,
    waiting: map<Thread, Waiter>,
    open: map<Thread, Snapshot>,
    nextLease: LeaseId)

  datatype Action =
    | Acquire(thread: Thread, capability: Option<Capability>)
    | Release(lease: LeaseId)
    | Hand(lease: LeaseId, to: Thread)
    | Begin(thread: Thread)
    | SpuriousWake(thread: Thread)
    | Recheck(thread: Thread)
    | Resolve(thread: Thread, outcome: StoreOutcome)

  function Init(snapshot: Snapshot): World {
    World(Shared(snapshot, false, 0), map[], map[], map[], 0)
  }

  /**
   A thread asleep in, or resuming from, the drain loop can do nothing else.  A lease may
   be handed from one running thread to another, which then has to drop it.
   */
  predicate Enabled(w: World, a: Action) {
    match a
    case Acquire(t, _) => t !in w.waiting
    case Release(l) => l in w.leases && w.leases[l].owner !in w.waiting
    case Hand(l, to) => l in w.leases && w.leases[l].owner !in w.waiting && to !in w.waiting
    case Begin(t) => t !in w.waiting
    case SpuriousWake(t) => t in w.waiting
    case Recheck(t) => t in w.waiting && w.waiting[t].Awake?
    case Resolve(t, _) => t in w.open && t !in w.waiting
  }

  function WakeAll(waiting: map<Thread, Waiter>): map<Thread, Waiter> {
    map t | t in waiting :: Awake
  }

  /** A draining thread sleeps, an opened one holds the transition and its prior snapshot. */
  function Settle(w: World, t: Thread, outcome: BeginOutcome): World {
    match outcome
    case NotBegun(_) => w
    case Draining => w.(waiting := w.waiting[t := Asleep])
    case Opened(prior) => w.(waiting := w.waiting - {t}, open := w.open[t := prior])
  }

  function Next(w: World, a: Action): World
    requires Enabled(w, a)
  {
    match a
    case Acquire(t, c) =>
      if AcquireOutcomeOf(w.shared, c).Leased? then
        w.(shared := AfterAcquire(w.shared, c),
           leases := w.leases[w.nextLease := Lease(t, c)],
           nextLease := w.nextLease + 1)
      else w
    case Release(l) =>
      var shared := AfterRelease(w.shared);
      w.(shared := shared,
         leases := w.leases - {l},
         waiting := if shared.activeLeases == 0 then WakeAll(w.waiting) else w.waiting)
    case Hand(l, to) =>
      w.(leases := w.leases[l := w.leases[l].(owner := to)])
    case Begin(t) =>
      Settle(w.(shared := AfterBegin(w.shared)), t, BeginOutcomeOf(w.shared))
    case SpuriousWake(t) =>
      w.(waiting := w.waiting[t := Awake])
    case Recheck(t) =>
      Settle(w, t, RecheckOutcomeOf(w.shared))
    case Resolve(t, outcome) =>
      w.(shared := AfterClose(w.shared, ResolvedSnapshot(w.open[t], outcome)),
         open := w.open - {t},
         waiting := WakeAll(w.waiting))
  }

  predicate IsRun(w: World, run: seq<Action>)
    decreases |run|
  {
    run == [] || (Enabled(w, run[0]) && IsRun(Next(w, run[0]), run[1..]))
  }

  function Exec(w: World, run: seq<Action>): World
    requires IsRun(w, run)
    decreases |run|
  {
    if run == [] then w else Exec(Next(w, run[0]), run[1..])
  }

  // ----- what every interleaving keeps

  /** Threads that closed the door: one exactly while the flag is up, otherwise none. */
  predicate DoorInv(w: World) {
    && (!w.shared.transitioning ==> w.waiting == map[] && w.open == map[])
    && (w.shared.transitioning ==> |w.waiting| + |w.open| == 1)
  }

  predicate LeaseInv(w: World) {
    && w.shared.activeLeases == |w.leases| <= MAX_LEASES
    && (forall l <- w.leases :: l < w.nextLease)
    && (w.open != map[] ==> w.leases == map[])
    && (w.shared.snapshot.localOnly ==> forall l <- w.leases :: w.leases[l].capability.None?)
  }

  /** No thread sleeps through a finished drain, and an open transition remembers the mode in force. */
  predicate WaitInv(w: World) {
    && (forall t <- w.waiting :: w.waiting[t].Asleep? ==> w.leases != map[])
    && (forall t <- w.open :: w.open[t] == w.shared.snapshot)
  }

  predicate Inv(w: World) {
    DoorInv(w) && LeaseInv(w) && WaitInv(w)
  }

  lemma SingletonMap<V>(m: map<Thread, V>, t: Thread)
    requires t in m && |m| == 1
    ensures m.Keys == {t} && m - {t} == map[]
  {
    var rest := m.Keys - {t};
    assert |rest| == 0;
    assert m.Keys == {t} + rest;
  }

  lemma RemoveOne<V>(m: map<nat, V>, k: nat)
    requires k in m
    ensures |m - {k}| == |m| - 1
  {
  }

  lemma SameKeysSameSize<V>(m: map<nat, V>, n: map<nat, V>)
    requires m.Keys == n.Keys
    ensures |m| == |n|
  {
  }

  /** An open transition excludes a waiting one, and either is alone. */
  lemma Alone(w: World, t: Thread)
    requires DoorInv(w)
    ensures t in w.open ==> w.open - {t} == map[] && w.waiting == map[]
    ensures t in w.waiting ==> w.waiting.Keys == {t} && w.waiting - {t} == map[] && w.open == map[]
  {
    if t in w.open {
      SingletonMapOrMore(w.open, t);
      SingletonMap(w.open, t);
    }
    if t in w.waiting {
      SingletonMapOrMore(w.waiting, t);
      SingletonMap(w.waiting, t);
    }
  }

  lemma SingletonMapOrMore<V>(m: map<Thread, V>, t: Thread)
    requires t in m
    ensures |m| >= 1
  {
  }

  lemma AcquireKeepsInv(w: World, t: Thread, c: Option<Capability>)
    requires Inv(w) && Enabled(w, Acquire(t, c))
    ensures Inv(Next(w, Acquire(t, c)))
  {
  }

  lemma ReleaseKeepsInv(w: World, l: LeaseId)
    requires Inv(w) && Enabled(w, Release(l))
    ensures Inv(Next(w, Release(l)))
  {
    RemoveOne(w.leases, l);
    SameKeysSameSize(w.waiting, Next(w, Release(l)).waiting);
  }

  lemma HandKeepsInv(w: World, l: LeaseId, to: Thread)
    requires Inv(w) && Enabled(w, Hand(l, to))
    ensures Inv(Next(w, Hand(l, to)))
  {
  }

  lemma BeginKeepsInv(w: World, t: Thread)
    requires Inv(w) && Enabled(w, Begin(t))
    ensures Inv(Next(w, Begin(t)))
  {
  }

  lemma WakeKeepsInv(w: World, t: Thread)
    requires Inv(w) && Enabled(w, SpuriousWake(t))
    ensures Inv(Next(w, SpuriousWake(t)))
  {
  }

  lemma RecheckKeepsInv(w: World, t: Thread)
    requires Inv(w) && Enabled(w, Recheck(t))
    ensures Inv(Next(w, Recheck(t)))
  {
  }

  lemma ResolveKeepsInv(w: World, t: Thread, outcome: StoreOutcome)
    requires Inv(w) && Enabled(w, Resolve(t, outcome))
    ensures Inv(Next(w, Resolve(t, outcome)))
  {
    Alone(w, t);
    assert WakeAll(w.waiting) == map[];
  }

  /** Every action of every thread keeps the protocol's invariant. */
  lemma StepKeepsInv(w: World, a: Action)
    requires Inv(w) && Enabled(w, a)
    ensures Inv(Next(w, a))
  {
    match a
    case Acquire(t, c) => AcquireKeepsInv(w, t, c);
    case Release(l) => ReleaseKeepsInv(w, l);
    case Hand(l, to) => HandKeepsInv(w, l, to);
    case Begin(t) => BeginKeepsInv(w, t);
    case SpuriousWake(t) => WakeKeepsInv(w, t);
    case Recheck(t) => RecheckKeepsInv(w, t);
    case Resolve(t, outcome) => ResolveKeepsInv(w, t, outcome);
  }

  lemma {:induction false} InvAlways(w: World, run: seq<Action>)
    requires Inv(w) && IsRun(w, run)
    ensures Inv(Exec(w, run))
    decreases |run|
  {
    if run == [] {
    } else {
      StepKeepsInv(w, run[0]);
      InvAlways(Next(w, run[0]), run[1..]);
    }
  }

  /**
   Safety of every interleaving: in local-only mode no capability lease is live, the
   counter counts the live leases, and at most one thread is draining or deciding.
   */
  lemma AuthoritySafe(initial: Snapshot, run: seq<Action>)
    requires IsRun(Init(initial), run)
    ensures var w := Exec(Init(initial), run);
            && (w.shared.snapshot.localOnly ==> forall l <- w.leases :: w.leases[l].capability.None?)
            && w.shared.activeLeases == |w.leases|
            && |w.waiting| + |w.open| == (if w.shared.transitioning then 1 else 0)
            && (w.open != map[] ==> w.leases == map[])
  {
    InvAlways(Init(initial), run);
  }

  /** The saturating decrement of a lease drop never saturates. */
  lemma ReleaseNeverSaturates(initial: Snapshot, run: seq<Action>, l: LeaseId)
    requires IsRun(Init(initial), run)
    requires l in Exec(Init(initial), run).leases
    ensures Exec(Init(initial), run).shared.activeLeases >= 1
  {
    InvAlways(Init(initial), run);
    RemoveOne(Exec(Init(initial), run).leases, l);
  }

  /** The mode in force lets this request through: a cleanup lease always, a capability in live mode. */
  predicate ModeAllows(w: World, capability: Option<Capability>) {
    capability.None? || !w.shared.snapshot.localOnly
  }

  /**
   In every reachable state an acquire by a running thread adds exactly one lease, with its
   owner and capability, if and only if the door is open, the mode allows it and the
   counter has room; otherwise it changes nothing.
   */
  lemma AcquireLeasesIff(initial: Snapshot, run: seq<Action>, t: Thread, c: Option<Capability>)
    requires IsRun(Init(initial), run) && Enabled(Exec(Init(initial), run), Acquire(t, c))
    ensures var w := Exec(Init(initial), run);
            var w' := Next(w, Acquire(t, c));
            if |w.waiting| + |w.open| == 0 && ModeAllows(w, c) && |w.leases| < MAX_LEASES
            then exists l: LeaseId :: l !in w.leases && w'.leases == w.leases[l := Lease(t, c)]
                             && w'.shared == w.shared.(activeLeases := |w.leases| + 1)
            else w' == w
  {
    InvAlways(Init(initial), run);
    var w := Exec(Init(initial), run);
    assert w.nextLease !in w.leases;
  }

  /**
   In every reachable state a running thread that begins a transition closes the door if
   it was open, and then holds the transition with the mode in force when no lease is
   live, or waits for the leases otherwise; a closed door changes nothing.
   */
  lemma BeginClosesIff(initial: Snapshot, run: seq<Action>, t: Thread)
    requires IsRun(Init(initial), run) && Enabled(Exec(Init(initial), run), Begin(t))
    ensures var w := Exec(Init(initial), run);
            var w' := Next(w, Begin(t));
            && w'.leases == w.leases && w'.shared.snapshot == w.shared.snapshot
            && (|w.waiting| + |w.open| == 1 ==> w' == w)
            && (|w.waiting| + |w.open| == 0 ==>
                  && w'.shared.transitioning
                  && (w.leases == map[] ==> w'.open == map[t := w.shared.snapshot] && w'.waiting == map[])
                  && (w.leases != map[] ==> w'.waiting == map[t := Asleep] && w'.open == map[]))
  {
    InvAlways(Init(initial), run);
  }

  // ----- the mode during a lease

  lemma {:induction false} DroppedLeaseStaysDropped(w: World, run: seq<Action>, l: LeaseId)
    requires IsRun(w, run) && l !in w.leases && l < w.nextLease
    ensures l !in Exec(w, run).leases
    decreases |run|
  {
    if run == [] {
    } else {
      DroppedLeaseStaysDropped(Next(w, run[0]), run[1..], l);
    }
  }

  /** The published mode cannot change between two moments at which the same lease is live. */
  lemma {:induction false} ModeStableDuringLease(w: World, run: seq<Action>, l: LeaseId)
    requires Inv(w) && IsRun(w, run)
    requires l in w.leases && l in Exec(w, run).leases
    ensures Exec(w, run).shared.snapshot == w.shared.snapshot
    decreases |run|
  {
    if run == [] {
    } else {
      var w' := Next(w, run[0]);
      if l in w'.leases {
        StepKeepsInv(w, run[0]);
        ModeStableDuringLease(w', run[1..], l);
      } else {
        DroppedLeaseStaysDropped(w', run[1..], l);
      }
    }
  }

  datatype DisconnectCompletion = SkipRevocationLocalOnly | AttemptRevocation

  function CompletionFor(snapshot: Snapshot): DisconnectCompletion {
    if snapshot.localOnly then SkipRevocationLocalOnly else AttemptRevocation
  }

  /**
   `disconnect_gmail` under the handler's cleanup lease: whatever other threads do
   between reading the mode (`w`) and any later moment of the disconnect, the
   completion chosen from the reading is the one the mode in force asks for, and the
   inner revoke lease, tried only in live mode, is refused only because a transition
   has begun, never as denied.
   */
  lemma DisconnectKeepsItsMode(w: World, run: seq<Action>, cleanup: LeaseId)
    requires Inv(w) && IsRun(w, run)
    requires cleanup in w.leases && cleanup in Exec(w, run).leases
    ensures var now := Exec(w, run);
            && (CompletionFor(w.shared.snapshot).SkipRevocationLocalOnly? <==> now.shared.snapshot.localOnly)
            && (CompletionFor(w.shared.snapshot).AttemptRevocation? <==> !now.shared.snapshot.localOnly)
            && (CompletionFor(w.shared.snapshot).AttemptRevocation? ==>
                  var outcome := AcquireOutcomeOf(now.shared, Some(GmailRevoke));
                  && outcome != Refused(Denied)
                  && (outcome.Refused? <==> now.shared.transitioning))
  {
    ModeStableDuringLease(w, run, cleanup);
  }

  // ----- the mode over a whole history of mode changes

  /** The store outcomes of the transitions resolved along a run, oldest first. */
  function Resolutions(run: seq<Action>): seq<StoreOutcome> {
    if run == [] then []
    else if run[0].Resolve? then [run[0].outcome] + Resolutions(run[1..])
    else Resolutions(run[1..])
  }

  function Replay(snapshot: Snapshot, outcomes: seq<StoreOutcome>): Snapshot
    decreases |outcomes|
  {
    if outcomes == [] then snapshot else Replay(ResolvedSnapshot(snapshot, outcomes[0]), outcomes[1..])
  }

  /** Any interleaving publishes the modes its resolutions would publish one after another. */
  lemma {:induction false} ModeIsReplay(w: World, run: seq<Action>)
    requires Inv(w) && IsRun(w, run)
    ensures Exec(w, run).shared.snapshot == Replay(w.shared.snapshot, Resolutions(run))
    decreases |run|
  {
    if run == [] {
    } else {
      StepKeepsInv(w, run[0]);
      ModeIsReplay(Next(w, run[0]), run[1..]);
      if run[0].Resolve? {
        assert Resolutions(run)[1..] == Resolutions(run[1..]);
      }
    }
  }

  /** The last outcome that is not a plain platform failure. */
  function LastDecisive(outcomes: seq<StoreOutcome>): Option<StoreOutcome> {
    if outcomes == [] then None
    else
      var later := LastDecisive(outcomes[1..]);
      if later.Some? then later
      else if outcomes[0].PlatformFailure? then None
      else Some(outcomes[0])
  }

  /** The mode that one decisive outcome leaves, whatever came before it. */
  predicate LeftBy(outcome: StoreOutcome, mode: Snapshot) {
    match outcome
    case Acknowledged(response) => mode == response
    case UnknownButProven(response) => mode == response
    case UnknownUnproven => mode.localOnly && !mode.health.Persisted?
    case PlatformFailure => false
  }

  lemma {:induction false} ReplayIsLastDecisive(snapshot: Snapshot, outcomes: seq<StoreOutcome>)
    ensures match LastDecisive(outcomes)
            case None => Replay(snapshot, outcomes) == snapshot
            case Some(outcome) => LeftBy(outcome, Replay(snapshot, outcomes))
    decreases |outcomes|
  {
    if outcomes == [] {
    } else {
      ReplayIsLastDecisive(ResolvedSnapshot(snapshot, outcomes[0]), outcomes[1..]);
    }
  }

  /**
   Whatever the interleaving, the mode in force is the initial one as long as every
   change failed at the platform, and otherwise what the latest decisive outcome left:
   the acknowledged or proven answer itself, or closed.
   */
  lemma ModeIsLastDecisive(initial: Snapshot, run: seq<Action>)
    requires IsRun(Init(initial), run)
    ensures var mode := Exec(Init(initial), run).shared.snapshot;
            match LastDecisive(Resolutions(run))
            case None => mode == initial
            case Some(outcome) => LeftBy(outcome, mode)
  {
    ModeIsReplay(Init(initial), run);
    ReplayIsLastDecisive(initial, Resolutions(run));
  }

  predicate AnswersLive(outcome: StoreOutcome) {
    (outcome.Acknowledged? || outcome.UnknownButProven?) && !outcome.response.localOnly
  }

  /**
   Outbound work is possible exactly when the latest decisive outcome was an
   acknowledged or proven answer with the mode off, or there was none and the process
   started live.
   */
  lemma LiveIffLatestAnswerLive(initial: Snapshot, run: seq<Action>)
    requires IsRun(Init(initial), run)
    ensures !Exec(Init(initial), run).shared.snapshot.localOnly <==>
            match LastDecisive(Resolutions(run))
            case None => !initial.localOnly
            case Some(outcome) => AnswersLive(outcome)
  {
    ModeIsLastDecisive(initial, run);
    DecisiveIsNotFailure(Resolutions(run));
  }

  lemma {:induction false} DecisiveIsNotFailure(outcomes: seq<StoreOutcome>)
    ensures LastDecisive(outcomes).Some? ==> !LastDecisive(outcomes).value.PlatformFailure?
  {
    if outcomes == [] {
    } else {
      DecisiveIsNotFailure(outcomes[1..]);
    }
  }

  /** An unproven publication closes the authority at the revision that was in force. */
  lemma UnprovenEndsClosed(initial: Snapshot, run: seq<Action>, t: Thread)
    requires IsRun(Init(initial), run)
    requires Enabled(Exec(Init(initial), run), Resolve(t, UnknownUnproven))
    ensures var w := Exec(Init(initial), run);
            var w' := Next(w, Resolve(t, UnknownUnproven));
            && w'.shared.snapshot.localOnly
            && w'.shared.snapshot.revision == w.shared.snapshot.revision
            && w'.shared.snapshot.health ==
               (if w.shared.snapshot.revision == 0 then FailClosedDefault else FailClosedUncertain)
            && !w'.shared.transitioning && w'.leases == map[]
  {
    InvAlways(Init(initial), run);
  }

  // ----- draining

  /** `t` is draining at the start of the run and after each of its steps. */
  predicate WaitsThroughout(w: World, run: seq<Action>, t: Thread)
    requires IsRun(w, run)
    decreases |run|
  {
    t in w.waiting && (run == [] || WaitsThroughout(Next(w, run[0]), run[1..], t))
  }

  function Releases(run: seq<Action>): nat {
    if run == [] then 0 else (if run[0].Release? then 1 else 0) + Releases(run[1..])
  }

  /**
   While a thread drains no lease is added: the live leases are those of the start
   less one per drop, so the lease count bounds the drops still to come.
   */
  lemma {:induction false} DrainOnlyShrinks(w: World, run: seq<Action>, t: Thread)
    requires Inv(w) && IsRun(w, run) && WaitsThroughout(w, run, t)
    ensures Exec(w, run).leases.Keys <= w.leases.Keys
    ensures |Exec(w, run).leases| + Releases(run) == |w.leases|
    decreases |run|
  {
    if run == [] {
    } else {
      StepKeepsInv(w, run[0]);
      Alone(w, t);
      if run[0].Release? {
        RemoveOne(w.leases, run[0].lease);
      }
      DrainOnlyShrinks(Next(w, run[0]), run[1..], t);
    }
  }

  /** An acquire during a drain, nested or not, is refused on the spot and changes nothing. */
  lemma DrainRefusesAcquire(w: World, t: Thread, u: Thread, c: Option<Capability>)
    requires Inv(w) && t in w.waiting && u != t
    ensures Enabled(w, Acquire(u, c))
    ensures AcquireOutcomeOf(w.shared, c) == Refused(TransitionInProgress)
    ensures Next(w, Acquire(u, c)) == w
  {
    Alone(w, t);
  }

  predicate HoldsLease(w: World, t: Thread) {
    exists l <- w.leases :: w.leases[l].owner == t
  }

  /** The drain can finish: one drop per live lease, then one turn of the wait loop. */
  lemma {:induction false} DrainCompletes(w: World, t: Thread) returns (run: seq<Action>)
    requires Inv(w) && t in w.waiting && !HoldsLease(w, t)
    ensures IsRun(w, run) && |run| == |w.leases| + 1
    ensures t in Exec(w, run).open
    decreases |w.leases|
  {
    Alone(w, t);
    if w.leases == map[] {
      run := [Recheck(t)];
      assert run[1..] == [];
    } else {
      var l :| l in w.leases;
      var a := Release(l);
      assert w.leases[l].owner != t;
      StepKeepsInv(w, a);
      RemoveOne(w.leases, l);
      var rest := DrainCompletes(Next(w, a), t);
      run := [a] + rest;
      assert run[1..] == rest;
    }
  }

  lemma {:induction false} OwnLeaseBlocksDrain(w: World, run: seq<Action>, t: Thread, l: LeaseId)
    requires Inv(w) && IsRun(w, run)
    requires t in w.waiting && l in w.leases && w.leases[l].owner == t
    ensures t in Exec(w, run).waiting
    decreases |run|
  {
    if run == [] {
    } else {
      StepKeepsInv(w, run[0]);
      Alone(w, t);
      OwnLeaseBlocksDrain(Next(w, run[0]), run[1..], t, l);
    }
  }

  /** A drain can finish exactly when the draining thread holds no lease of its own. */
  lemma DrainsIffNoOwnLease(w: World, t: Thread)
    requires Inv(w) && t in w.waiting
    ensures (exists run :: IsRun(w, run) && t in Exec(w, run).open) <==> !HoldsLease(w, t)
  {
    if HoldsLease(w, t) {
      var l :| l in w.leases && w.leases[l].owner == t;
      forall run | IsRun(w, run)
        ensures t !in Exec(w, run).open
      {
        OwnLeaseBlocksDrain(w, run, t, l);
        InvAlways(w, run);
        Alone(Exec(w, run), t);
      }
    } else {
      var run := DrainCompletes(w, t);
    }
  }

  /** The discipline of `handle_set_local_only`: a transition is begun without a lease in hand. */
  predicate BeginsUnleased(w: World, run: seq<Action>)
    requires IsRun(w, run)
    decreases |run|
  {
    run != [] ==>
      && (run[0].Begin? ==> !HoldsLease(w, run[0].thread))
      && BeginsUnleased(Next(w, run[0]), run[1..])
  }

  lemma {:induction false} WaitersHoldNothing(w: World, run: seq<Action>)
    requires IsRun(w, run) && BeginsUnleased(w, run)
    requires forall t <- w.waiting :: !HoldsLease(w, t)
    ensures forall t <- Exec(w, run).waiting :: !HoldsLease(Exec(w, run), t)
    decreases |run|
  {
    if run == [] {
    } else {
      WaitersHoldNothing(Next(w, run[0]), run[1..]);
    }
  }

  /** Under that discipline no reachable state is stuck: every draining thread can still open. */
  lemma NoDeadlock(initial: Snapshot, run: seq<Action>, t: Thread)
    requires IsRun(Init(initial), run) && BeginsUnleased(Init(initial), run)
    requires t in Exec(Init(initial), run).waiting
    ensures exists rest ::
              IsRun(Exec(Init(initial), run), rest) && t in Exec(Exec(Init(initial), run), rest).open
  {
    InvAlways(Init(initial), run);
    WaitersHoldNothing(Init(initial), run);
    var rest := DrainCompletes(Exec(Init(initial), run), t);
  }
}
