/**
 The try-on scheduler latch: two atomics that coalesce wake-ups onto one runner.

 An activity is one `trigger` call together with the runner it may spawn.  Each
 `Action` is one atomic operation of one activity, so a run interleaves activities at
 the grain of single loads, stores and exchanges (taken as sequentially consistent).
 */
module SchedulerLatch {

  type Activity = nat
  type RequestId = nat

  /** Where an activity stands, named after the operation it performs next. */
  datatype Pc =
    | Idle
    | AboutToStart                    // wake stored, exchange on `active` pending
    | AboutToBegin                    // owns the pass loop, `begin_pass` pending
    | InPass                          // owns the pass loop, `finish_pass` pending
    | AboutToSwap                     // `active` cleared, swap of `wake` pending
    | AboutToRetake(begunSince: bool) // took a wake; `begunSince`: a pass began after that

  /** `pending` holds the requests whose wake store no `begin_pass` has followed yet. */
  datatype World = World(
    active: bool,
    wake: bool,
    pcs: map<Activity, Pc>,
    pending: set<RequestId>,
    nextRequest: RequestId)

  datatype Action =
    | StoreWake(activity: Activity)
    | TryStart(activity: Activity)
    | BeginPass(activity: Activity)
    | ClearActive(activity: Activity)
    | SwapWake(activity: Activity)
    | Retake(activity: Activity)
    | CancelQueued

  const INITIAL: World := World(false, false, map[], {}, 0)

  function PcOf(w: World, t: Activity): Pc {
    if t in w.pcs then w.pcs[t] else Idle
  }

  function At(w: World, t: Activity, pc: Pc): World {
    w.(pcs := w.pcs[t := pc])
  }

  /** Every activity holding a taken wake learns that a pass has begun. */
  function MarkBegun(pcs: map<Activity, Pc>): map<Activity, Pc> {
    map t | t in pcs :: if pcs[t].AboutToRetake? then AboutToRetake(true) else pcs[t]
  }

  predicate Enabled(w: World, a: Action) {
    match a
    case StoreWake(t) => PcOf(w, t).Idle?
    case TryStart(t) => PcOf(w, t).AboutToStart?
    case BeginPass(t) => PcOf(w, t).AboutToBegin?
    case ClearActive(t) => PcOf(w, t).InPass?
    case SwapWake(t) => PcOf(w, t).AboutToSwap?
    case Retake(t) => PcOf(w, t).AboutToRetake?
    case CancelQueued => true
  }

  function Next(w: World, a: Action): World
    requires Enabled(w, a)
  {
    match a
    case StoreWake(t) =>
      At(w, t, AboutToStart).(
      wake := true,
      pending := w.pending + {w.nextRequest},
      nextRequest := w.nextRequest + 1)
    case TryStart(t) =>
      if w.active then At(w, t, Idle) else At(w, t, AboutToBegin).(active := true)
    case BeginPass(t) =>
      At(w.(pcs := MarkBegun(w.pcs)), t, InPass).(wake := false, pending := {})
    case ClearActive(t) =>
      At(w, t, AboutToSwap).(active := false)
    case SwapWake(t) =>
      At(w, t, if w.wake then AboutToRetake(false) else Idle).(wake := false)
    case Retake(t) =>
      if w.active then At(w, t, Idle) else At(w, t, AboutToBegin).(active := true)
    case CancelQueued =>
      w.(wake := false)
  }

  predicate IsRun(w: World, run: seq<Action>)
    decreases |run|
  {
    run == [] || (Enabled(w, run[0]) && IsRun(Next(w, run[0]), run[1..]))
  }

  function Exec(w: World, run: seq<Action>): World
    requires IsRun(w, run)
    decreases |run|
  {
    if run == [] then w else Exec(Next(w, run[0]), run[1..])
  }

  // ----- one owner of the pass loop

  predicate Owns(w: World, t: Activity) {
    PcOf(w, t).AboutToBegin? || PcOf(w, t).InPass?
  }

  ghost predicate OneOwner(w: World) {
    && (w.active <==> exists t :: Owns(w, t))
    && (forall t, u :: Owns(w, t) && Owns(w, u) ==> t == u)
  }

  lemma OwnerStep(w: World, a: Action)
    requires OneOwner(w) && Enabled(w, a)
    ensures OneOwner(Next(w, a))
  {
    var w' := Next(w, a);
    if a.CancelQueued? {
      assert forall u :: Owns(w', u) == Owns(w, u);
    } else {
      var t := a.activity;
      assert forall u :: u != t ==> Owns(w', u) == Owns(w, u);
      assert Owns(w, t) ==> w.active;
      assert Owns(w', t) ==> w'.active;
      if Owns(w, t) {
        assert w'.active ==> Owns(w', t);
      } else if w.active {
        var o :| Owns(w, o);
        assert Owns(w', o) && !Owns(w', t);
      } else {
        assert w'.active ==> Owns(w', t);
      }
    }
  }

  lemma {:induction false} OwnerAlways(w: World, run: seq<Action>)
    requires OneOwner(w) && IsRun(w, run)
    ensures OneOwner(Exec(w, run))
    decreases |run|
  {
    if run == [] {
    } else {
      OwnerStep(w, run[0]);
      OwnerAlways(Next(w, run[0]), run[1..]);
    }
  }

  /** At the grain of single atomic operations `active` is up exactly while one activity owns the loop. */
  lemma MutualExclusion(run: seq<Action>)
    requires IsRun(INITIAL, run)
    ensures var w := Exec(INITIAL, run);
            && (w.active <==> exists t :: Owns(w, t))
            && (forall t, u :: Owns(w, t) && Owns(w, u) ==> t == u)
  {
    OwnerAlways(INITIAL, run);
  }

  // ----- which wakes get lost

  predicate HoldsWake(w: World, t: Activity) {
    PcOf(w, t) == AboutToRetake(false)
  }

  /** Some wake will still be acted on: stored, taken by an activity, or about to begin a pass. */
  ghost predicate WakeInFlight(w: World) {
    w.wake || (exists t :: HoldsWake(w, t) || PcOf(w, t).AboutToBegin?)
  }

  ghost predicate Lost(w: World) {
    w.pending != {} && !WakeInFlight(w)
  }

  /** Some activity will look at a stored wake. */
  predicate WillLook(w: World, t: Activity) {
    var pc := PcOf(w, t);
    pc.AboutToStart? || pc.AboutToBegin? || pc.InPass? || pc.AboutToSwap?
  }

  ghost predicate WakeInv(w: World) {
    && (w.wake ==> w.pending != {} && exists t :: WillLook(w, t))
    && (forall t :: HoldsWake(w, t) ==> w.pending != {})
  }

  ghost predicate Inv(w: World) {
    OneOwner(w) && WakeInv(w)
  }

  /**
   The step that throws the last wake away: a runner gives up a wake it took because
   another runner is already past its `begin_pass`, or a queue cancellation.
   */
  ghost predicate DropsLastWake(w: World, a: Action) {
    match a
    case Retake(t) =>
      && HoldsWake(w, t) && w.active && !w.wake
      && (forall u :: !PcOf(w, u).AboutToBegin?)
      && (forall u :: HoldsWake(w, u) ==> u == t)
    case CancelQueued =>
      w.wake && (forall u :: !PcOf(w, u).AboutToBegin? && !HoldsWake(w, u))
    case _ => false
  }

  lemma WakeInvStep(w: World, a: Action)
    requires Inv(w) && Enabled(w, a)
    ensures WakeInv(Next(w, a))
  {
    var w' := Next(w, a);
    if !a.CancelQueued? {
      var t := a.activity;
      assert forall u :: u != t ==> WillLook(w', u) == WillLook(w, u);
      assert forall u :: u != t ==> HoldsWake(w', u) ==> HoldsWake(w, u);
      if w'.wake {
        if WillLook(w', t) {
        } else if a.TryStart? {
          var o :| Owns(w, o);
          assert WillLook(w', o);
        } else {
          assert a.Retake?;
          var u :| WillLook(w, u);
          assert WillLook(w', u);
        }
      }
    } else {
      assert forall u :: HoldsWake(w', u) == HoldsWake(w, u);
    }
  }

  /** A step that puts a wake in flight whatever was lost before. */
  predicate Revives(w: World, a: Action) {
    a.StoreWake? || a.BeginPass? || ((a.TryStart? || a.Retake?) && !w.active)
  }

  /** A step leaves requests lost exactly when it drops the last wake or inherits the loss. */
  lemma LostStep(w: World, a: Action)
    requires Inv(w) && Enabled(w, a)
    ensures Lost(Next(w, a)) <==> DropsLastWake(w, a) || (Lost(w) && !Revives(w, a))
  {
    var w' := Next(w, a);
    match a
    case StoreWake(t) =>
    case BeginPass(t) =>
    case CancelQueued =>
      assert forall u :: PcOf(w', u) == PcOf(w, u);
    case ClearActive(t) =>
      assert forall u :: u != t ==> PcOf(w', u) == PcOf(w, u);
      assert forall u :: HoldsWake(w', u) == HoldsWake(w, u);
    case SwapWake(t) =>
      assert forall u :: u != t ==> PcOf(w', u) == PcOf(w, u);
      if w.wake {
        assert HoldsWake(w', t);
      } else {
        assert forall u :: HoldsWake(w', u) == HoldsWake(w, u);
      }
    case TryStart(t) => ExchangeLostStep(w, a);
    case Retake(t) => ExchangeLostStep(w, a);
  }

  lemma ExchangeLostStep(w: World, a: Action)
    requires Inv(w) && Enabled(w, a) && (a.TryStart? || a.Retake?)
    ensures Lost(Next(w, a)) <==> DropsLastWake(w, a) || (Lost(w) && w.active)
  {
    var w', t := Next(w, a), a.activity;
    assert forall u :: u != t ==> PcOf(w', u) == PcOf(w, u);
    assert forall u :: u != t ==> HoldsWake(w', u) == HoldsWake(w, u);
    if !w.active {
      assert PcOf(w', t).AboutToBegin?;
    }
  }

  /** Whether the last step of the run that dropped the last wake was never made good. */
  ghost predicate UnrevivedDrop(w: World, run: seq<Action>, dropped: bool)
    requires IsRun(w, run)
    decreases |run|
  {
    if run == [] then dropped
    else UnrevivedDrop(Next(w, run[0]), run[1..], DropsLastWake(w, run[0]) || (dropped && !Revives(w, run[0])))
  }

  lemma {:induction false} LostIffUnrevived(w: World, run: seq<Action>)
    requires Inv(w) && IsRun(w, run)
    ensures Inv(Exec(w, run))
    ensures Lost(Exec(w, run)) <==> UnrevivedDrop(w, run, Lost(w))
    decreases |run|
  {
    if run == [] {
    } else {
      OwnerStep(w, run[0]);
      WakeInvStep(w, run[0]);
      LostStep(w, run[0]);
      LostIffUnrevived(Next(w, run[0]), run[1..]);
    }
  }

  ghost predicate Quiescent(w: World) {
    forall t :: PcOf(w, t).Idle?
  }

  /**
   When everything has come to rest, a request was left without a later pass exactly
   when the run dropped the last wake and nothing after that put one back in flight.
   */
  lemma RequestUnservedIff(run: seq<Action>)
    requires IsRun(INITIAL, run) && Quiescent(Exec(INITIAL, run))
    ensures Exec(INITIAL, run).pending != {} <==> UnrevivedDrop(INITIAL, run, false)
  {
    LostIffUnrevived(INITIAL, run);
  }

  /** No pass begins while another runner is still inside `finish_pass`, and nothing cancels the queue. */
  ghost predicate NoOverlap(w: World, run: seq<Action>)
    requires IsRun(w, run)
    decreases |run|
  {
    run != [] ==>
      && !run[0].CancelQueued?
      && (run[0].BeginPass? ==> forall u :: !Finishing(w, u))
      && NoOverlap(Next(w, run[0]), run[1..])
  }

  predicate Finishing(w: World, t: Activity) {
    PcOf(w, t).AboutToSwap? || PcOf(w, t).AboutToRetake?
  }

  ghost predicate PassAlone(w: World) {
    forall t, u :: PcOf(w, t).InPass? ==> !Finishing(w, u)
  }

  lemma AloneStep(w: World, a: Action)
    requires Inv(w) && Enabled(w, a) && PassAlone(w) && !a.CancelQueued?
    requires a.BeginPass? ==> forall u :: !Finishing(w, u)
    ensures PassAlone(Next(w, a)) && !DropsLastWake(w, a)
  {
    var w', t := Next(w, a), a.activity;
    assert forall u :: u != t ==> Finishing(w', u) == Finishing(w, u) && PcOf(w', u).InPass? == PcOf(w, u).InPass?;
    forall v, u | PcOf(w', v).InPass?
      ensures !Finishing(w', u)
    {
      if a.ClearActive? {
        assert v != t && Owns(w, v) && Owns(w, t);
      } else if v != t {
        assert PcOf(w, v).InPass?;
        assert !Finishing(w, u) && !Finishing(w, t);
      } else {
        assert a.BeginPass?;
      }
    }
    if DropsLastWake(w, a) {
      var o :| Owns(w, o);
      assert PcOf(w, o).InPass? && Finishing(w, t);
      assert false;
    }
  }

  lemma {:induction false} NothingLostAlone(w: World, run: seq<Action>)
    requires Inv(w) && IsRun(w, run) && PassAlone(w) && NoOverlap(w, run) && !Lost(w)
    ensures !Lost(Exec(w, run))
    decreases |run|
  {
    if run == [] {
    } else {
      OwnerStep(w, run[0]);
      WakeInvStep(w, run[0]);
      LostStep(w, run[0]);
      AloneStep(w, run[0]);
      NothingLostAlone(Next(w, run[0]), run[1..]);
    }
  }

  /**
   At the grain of single operations, and whatever else interleaves: as long as no runner
   begins a pass while another is between the operations of its `finish_pass`, every
   request of a run that comes to rest has been served.
   */
  lemma ServedWithoutOverlap(run: seq<Action>)
    requires IsRun(INITIAL, run) && NoOverlap(INITIAL, run)
    ensures !Lost(Exec(INITIAL, run))
    ensures Quiescent(Exec(INITIAL, run)) ==> Exec(INITIAL, run).pending == {}
  {
    NothingLostAlone(INITIAL, run);
    LostIffUnrevived(INITIAL, run);
  }

  lemma Prepend(w: World, a: Action, rest: seq<Action>) returns (run: seq<Action>)
    requires Enabled(w, a) && IsRun(Next(w, a), rest)
    ensures run == [a] + rest && IsRun(w, run) && Exec(w, run) == Exec(Next(w, a), rest)
  {
    run := [a] + rest;
    assert run[1..] == rest;
  }

  /** Runner 0 is inside `finish_pass` while runner 1 is in its pass. */
  const TWO_RUNNERS: World := World(true, false, map[0 := AboutToSwap, 1 := InPass], {}, 2)

  lemma LateWakeSwallowed() returns (run: seq<Action>)
    ensures IsRun(TWO_RUNNERS, run) && forall a <- run :: !a.CancelQueued?
    ensures Quiescent(Exec(TWO_RUNNERS, run)) && Exec(TWO_RUNNERS, run).pending == {2}
  {
    var w1 := Next(TWO_RUNNERS, StoreWake(2));
    var w2 := Next(w1, TryStart(2));
    var w3 := Next(w2, SwapWake(0));
    var w4 := Next(w3, Retake(0));
    var w5 := Next(w4, ClearActive(1));
    run := Prepend(w5, SwapWake(1), []);
    run := Prepend(w4, ClearActive(1), run);
    run := Prepend(w3, Retake(0), run);
    run := Prepend(w2, SwapWake(0), run);
    run := Prepend(w1, TryStart(2), run);
    run := Prepend(TWO_RUNNERS, StoreWake(2), run);
    assert Next(w5, SwapWake(1)).pcs == map[0 := Idle, 1 := Idle, 2 := Idle];
  }

  /**
   The latch can lose a wake: runner 0 has cleared `active` when runner 1 starts and
   begins; request 2 stores its wake and finds runner 1 active; runner 0 takes that
   wake, cannot take `active` back, and drops it; runner 1 then finds none.
   */
  lemma WakeCanBeLost() returns (run: seq<Action>)
    ensures IsRun(INITIAL, run) && forall a <- run :: !a.CancelQueued?
    ensures Quiescent(Exec(INITIAL, run)) && Exec(INITIAL, run).pending == {2}
  {
    var w1 := Next(INITIAL, StoreWake(0));
    var w2 := Next(w1, TryStart(0));
    var w3 := Next(w2, BeginPass(0));
    var w4 := Next(w3, ClearActive(0));
    var w5 := Next(w4, StoreWake(1));
    var w6 := Next(w5, TryStart(1));
    assert Next(w6, BeginPass(1)).pcs == TWO_RUNNERS.pcs;
    run := LateWakeSwallowed();
    run := Prepend(w6, BeginPass(1), run);
    run := Prepend(w5, TryStart(1), run);
    run := Prepend(w4, StoreWake(1), run);
    run := Prepend(w3, ClearActive(0), run);
    run := Prepend(w2, BeginPass(0), run);
    run := Prepend(w1, TryStart(0), run);
    run := Prepend(INITIAL, StoreWake(0), run);
  }

  // ----- with `finish_pass` as one step

  /** `finish_pass` without interruption: clear, swap, and take back after a wake. */
  function Finish(w: World, t: Activity): World
    requires PcOf(w, t).InPass?
  {
    var swapped := Next(Next(w, ClearActive(t)), SwapWake(t));
    if PcOf(swapped, t).Idle? then swapped else Next(swapped, Retake(t))
  }

  datatype WholeAction =
    | Ask(activity: Activity)
    | Start(activity: Activity)
    | Pass(activity: Activity)
    | Done(activity: Activity)

  predicate WholeEnabled(w: World, a: WholeAction) {
    match a
    case Ask(t) => PcOf(w, t).Idle?
    case Start(t) => PcOf(w, t).AboutToStart?
    case Pass(t) => PcOf(w, t).AboutToBegin?
    case Done(t) => PcOf(w, t).InPass?
  }

  function WholeNext(w: World, a: WholeAction): World
    requires WholeEnabled(w, a)
  {
    match a
    case Ask(t) => Next(w, StoreWake(t))
    case Start(t) => Next(w, TryStart(t))
    case Pass(t) => Next(w, BeginPass(t))
    case Done(t) => Finish(w, t)
  }

  predicate IsWholeRun(w: World, run: seq<WholeAction>)
    decreases |run|
  {
    run == [] || (WholeEnabled(w, run[0]) && IsWholeRun(WholeNext(w, run[0]), run[1..]))
  }

  function WholeExec(w: World, run: seq<WholeAction>): World
    requires IsWholeRun(w, run)
    decreases |run|
  {
    if run == [] then w else WholeExec(WholeNext(w, run[0]), run[1..])
  }

  /** Nothing is caught inside `finish_pass`, and every unserved request has a wake in flight. */
  ghost predicate WholeInv(w: World) {
    && Inv(w) && !Lost(w)
    && (forall t :: !PcOf(w, t).AboutToSwap? && !PcOf(w, t).AboutToRetake?)
  }

  lemma FinishOutcome(w: World, t: Activity)
    requires PcOf(w, t).InPass?
    ensures Finish(w, t) ==
            if w.wake then At(w, t, AboutToBegin).(wake := false, active := true)
            else At(w, t, Idle).(active := false)
  {
  }

  lemma WholeStep(w: World, a: WholeAction)
    requires WholeInv(w) && WholeEnabled(w, a)
    ensures WholeInv(WholeNext(w, a))
  {
    var w' := WholeNext(w, a);
    assert !a.Pass? ==> forall u :: u != a.activity ==> PcOf(w', u) == PcOf(w, u) by {
      if a.Done? {
        FinishOutcome(w, a.activity);
      }
    }
    match a
    case Ask(t) =>
      OwnerStep(w, StoreWake(t));
      WakeInvStep(w, StoreWake(t));
      LostStep(w, StoreWake(t));
    case Start(t) =>
      OwnerStep(w, TryStart(t));
      WakeInvStep(w, TryStart(t));
      LostStep(w, TryStart(t));
    case Pass(t) =>
      assert forall u :: PcOf(w', u) == if u == t then InPass else PcOf(w, u);
      OwnerStep(w, BeginPass(t));
      WakeInvStep(w, BeginPass(t));
      LostStep(w, BeginPass(t));
    case Done(t) =>
      FinishKeepsInv(w, t);
  }

  lemma FinishKeepsInv(w: World, t: Activity)
    requires WholeInv(w) && PcOf(w, t).InPass?
    ensures WholeInv(Finish(w, t))
  {
    FinishOutcome(w, t);
    var w' := Finish(w, t);
    assert Owns(w, t);
    assert forall u :: u != t ==> PcOf(w', u) == PcOf(w, u);
    assert forall u :: Owns(w', u) ==> Owns(w, u);
    assert Owns(w', t) == w.wake;
    forall u
      ensures !PcOf(w, u).AboutToBegin?
    {
      assert Owns(w, u) ==> u == t;
    }
  }

  lemma {:induction false} WholeInvAlways(w: World, run: seq<WholeAction>)
    requires WholeInv(w) && IsWholeRun(w, run)
    ensures WholeInv(WholeExec(w, run))
    decreases |run|
  {
    if run == [] {
    } else {
      WholeStep(w, run[0]);
      WholeInvAlways(WholeNext(w, run[0]), run[1..]);
    }
  }

  /** With an uninterrupted `finish_pass` every run that comes to rest has served every request. */
  lemma EveryRequestServed(run: seq<WholeAction>)
    requires IsWholeRun(INITIAL, run) && Quiescent(WholeExec(INITIAL, run))
    ensures WholeExec(INITIAL, run).pending == {}
  {
    WholeInvAlways(INITIAL, run);
  }

  /** Steps the owning runner takes along a run. */
  function RunnerSteps(run: seq<WholeAction>): nat {
    if run == [] then 0
    else (if run[0].Pass? || run[0].Done? then 1 else 0) + RunnerSteps(run[1..])
  }

  /**
   A request cannot be overtaken: as long as it is unserved the runner takes at most
   one step (the `finish_pass` that sees its wake), however the other activities
   interleave; and some activity can always move.
   */
  lemma {:induction false} ServedWithinTwoRunnerSteps(w: World, run: seq<WholeAction>, r: RequestId)
    requires WholeInv(w) && IsWholeRun(w, run)
    requires r in w.pending && r < w.nextRequest && r in WholeExec(w, run).pending
    ensures RunnerSteps(run) <= (if exists t :: PcOf(w, t).AboutToBegin? then 0 else 1)
    decreases |run|
  {
    if run == [] {
    } else {
      var a, w' := run[0], WholeNext(w, run[0]);
      WholeStep(w, a);
      assert w'.nextRequest >= w.nextRequest;
      if a.Pass? {
        ServedStaysServed(w', run[1..], r);
      } else {
        if a.Done? {
          FinishOutcome(w, a.activity);
          assert Owns(w, a.activity);
          assert forall t :: PcOf(w, t).AboutToBegin? ==> Owns(w, t);
          assert w.wake;
          assert PcOf(w', a.activity).AboutToBegin?;
        } else if exists t :: PcOf(w, t).AboutToBegin? {
          var t :| PcOf(w, t).AboutToBegin?;
          assert PcOf(w', t).AboutToBegin?;
        }
        ServedWithinTwoRunnerSteps(w', run[1..], r);
      }
    }
  }

  lemma {:induction false} ServedStaysServed(w: World, run: seq<WholeAction>, r: RequestId)
    requires IsWholeRun(w, run) && r !in w.pending && r < w.nextRequest
    ensures r !in WholeExec(w, run).pending
    decreases |run|
  {
    if run == [] {
    } else {
      if run[0].Done? {
        FinishOutcome(w, run[0].activity);
      }
      ServedStaysServed(WholeNext(w, run[0]), run[1..], r);
    }
  }

  /** An unserved request always leaves some activity a step that is not a new request. */
  lemma UnservedMeansProgress(w: World)
    requires WholeInv(w) && w.pending != {}
    ensures exists a :: WholeEnabled(w, a) && !a.Ask?
  {
    if t :| PcOf(w, t).AboutToBegin? {
      assert WholeEnabled(w, Pass(t));
    } else {
      assert w.wake;
      var t :| WillLook(w, t);
      if PcOf(w, t).InPass? {
        assert WholeEnabled(w, Done(t));
      } else {
        assert WholeEnabled(w, Start(t));
      }
    }
  }

  // ----- the latch itself

  /** The two flags, with a ghost view of the activities that share them. */
  class TryOnSchedulerLatch {
    var active: bool
    var wakeRequested: bool
    ghost var world: World

    ghost predicate Valid()
      reads this
    {
      world.active == active && world.wake == wakeRequested && Inv(world)
    }

    constructor ()
      ensures Valid() && world == INITIAL
    {
      active, wakeRequested, world := false, false, INITIAL;
    }

    method CompareExchangeActive() returns (won: bool)
      modifies this`active
      ensures won == !old(active) && active
    {
      won := !active;
      if won {
        active := true;
      }
    }

    ghost method Step(a: Action)
      requires Inv(world) && Enabled(world, a)
      modifies this`world
      ensures world == Next(old(world), a) && Inv(world)
    {
      OwnerStep(world, a);
      WakeInvStep(world, a);
      world := Next(world, a);
    }

    /** True exactly when the caller has to spawn the runner, which then owns the pass loop. */
    method RequestRun(ghost t: Activity) returns (spawn: bool)
      requires Valid() && PcOf(world, t).Idle?
      modifies this
      ensures Valid() && world == Next(Next(old(world), StoreWake(t)), TryStart(t))
      ensures spawn <==> PcOf(world, t).AboutToBegin?
      ensures spawn <==> !old(active)
      ensures wakeRequested && active
    {
      wakeRequested := true;
      Step(StoreWake(t));
      spawn := CompareExchangeActive();
      Step(TryStart(t));
    }

    method BeginPass(ghost t: Activity)
      requires Valid() && PcOf(world, t).AboutToBegin?
      modifies this
      ensures Valid() && world == Next(old(world), Action.BeginPass(t))
      ensures !wakeRequested && active == old(active)
    {
      wakeRequested := false;
      Step(Action.BeginPass(t));
    }

    /** Uninterrupted: the runner goes on, and stays the owner, exactly when a wake was stored. */
    method FinishPass(ghost t: Activity) returns (again: bool)
      requires Valid() && PcOf(world, t).InPass?
      modifies this
      ensures Valid() && world == Finish(old(world), t)
      ensures again <==> PcOf(world, t).AboutToBegin?
      ensures again <==> old(wakeRequested)
      ensures active == again && !wakeRequested
    {
      active := false;
      Step(ClearActive(t));
      var wake := wakeRequested;
      wakeRequested := false;
      Step(SwapWake(t));
      if !wake {
        return false;
      }
      again := CompareExchangeActive();
      Step(Retake(t));
    }

    /**
     Requests are left without a wake exactly when the one stored wake was all that was in
     flight for them, or they had none before; no running or starting pass is disturbed.
     */
    method CancelQueued()
      requires Valid()
      modifies this
      ensures Valid() && world == Next(old(world), Action.CancelQueued)
      ensures Lost(world) <==> Lost(old(world)) || DropsLastWake(old(world), Action.CancelQueued)
      ensures !wakeRequested && active == old(active) && forall t :: PcOf(world, t) == PcOf(old(world), t)
    {
      LostStep(world, Action.CancelQueued);
      wakeRequested := false;
      Step(Action.CancelQueued);
    }
  }
}
