/**
 `recover` as one call, and as the retries that follow any history of crashes: exactly
 when one can complete, what it leaves, and the start that no retry ever recovers from.
 */
module IsolationRecovery {
  import opened Wrappers
  import opened Isolation

  /** The entry passes all of `recover`'s checks. */
  predicate EntryRecoverable(d: Disk, r: Record, k: Kind) {
    var c, b := Current(d, k), Backup(d, k, r.token);
    && !c.Link?
    && (if !Had(r, k) then !Exists(b) else if Exists(b) then b.Tree? else Exists(c))
  }

  /** The entry after `recover`: the backup, if one exists, or nothing where there was nothing. */
  function EntryRecovered(d: Disk, r: Record, k: Kind): Disk {
    if !Had(r, k) then SetCurrent(d, k, Absent)
    else if Exists(Backup(d, k, r.token)) then MoveBack(d, k, r.token)
    else d
  }

  function DiskRecovered(d: Disk): Disk {
    if d.marker.None? then d
    else EntryRecovered(EntryRecovered(d, d.marker.value, Logs), d.marker.value, Data).(marker := None)
  }

  predicate DiskRecoverable(d: Disk) {
    d.marker.Some? ==> EntryRecoverable(d, d.marker.value, Logs) && EntryRecoverable(d, d.marker.value, Data)
  }

  lemma EntriesIndependent(d: Disk, r: Record)
    ensures EntryRecoverable(EntryRecovered(d, r, Logs), r, Data) == EntryRecoverable(d, r, Data)
  {
  }

  /** The registered groups that recovery has to, and cannot, terminate. */
  predicate AllTerminate(groups: seq<Group>, alive: set<Group>, killable: set<Group>) {
    forall g <- groups :: g in alive ==> g in killable
  }

  class PrivateAppIsolation {
    var disk: Disk
    var alive: set<Group>

    constructor (disk: Disk, alive: set<Group>)
      ensures this.disk == disk && this.alive == alive
    {
      this.disk := disk;
      this.alive := alive;
    }

    /**
     `killable` are the groups that authenticate and die when signalled.  The call
     completes exactly when the recorded groups can be terminated and both entries
     pass; a call that fails keeps the marker for the next one.
     */
    method Recover(killable: set<Group>) returns (ok: bool)
      modifies this
      ensures ok <==> old(disk.marker.None? || AllTerminate(disk.marker.value.groups, alive, killable)) &&
                      DiskRecoverable(old(disk))
      ensures ok ==> disk == DiskRecovered(old(disk))
      ensures ok && old(disk.marker.Some?) ==> forall g <- old(disk.marker.value.groups) :: g !in alive
      ensures !ok ==> disk.marker == old(disk.marker)
    {
      if disk.marker.None? {
        return true;
      }
      var r := disk.marker.value;
      ok := TerminateAll(r.groups, killable);
      if !ok {
        return;
      }
      EntriesIndependent(disk, r);
      ok := RecoverEntry(r, Logs);
      if !ok {
        return;
      }
      ok := RecoverEntry(r, Data);
      if !ok {
        return;
      }
      disk := disk.(marker := None);
    }

    method TerminateAll(groups: seq<Group>, killable: set<Group>) returns (ok: bool)
      modifies this`alive
      ensures ok <==> AllTerminate(groups, old(alive), killable)
      ensures ok ==> forall g <- groups :: g !in alive
    {
      var i := 0;
      while i < |groups|
        invariant 0 <= i <= |groups|
        invariant alive <= old(alive)
        invariant forall g :: g in old(alive) && g !in alive ==> g in killable
        invariant forall j :: 0 <= j < i ==> groups[j] !in alive && (groups[j] in old(alive) ==> groups[j] in killable)
      {
        if groups[i] in alive {
          if groups[i] !in killable {
            return false;
          }
          alive := alive - {groups[i]};
        }
        i := i + 1;
      }
      return true;
    }

    method RecoverEntry(r: Record, k: Kind) returns (ok: bool)
      modifies this`disk
      ensures ok <==> EntryRecoverable(old(disk), r, k)
      ensures ok ==> disk == EntryRecovered(old(disk), r, k)
      ensures disk.marker == old(disk.marker)
    {
      if Had(r, k) {
        var backup := Backup(disk, k, r.token);
        if Exists(backup) {
          if backup.Link? || Current(disk, k).Link? {
            return false;
          }
          disk := SetCurrent(disk, k, Absent);
          disk := MoveBack(disk, k, r.token);
        } else if !Exists(Current(disk, k)) || Current(disk, k).Link? {
          return false;
        }
      } else {
        if Current(disk, k).Link? {
          return false;
        }
        disk := SetCurrent(disk, k, Absent);
        if Exists(Backup(disk, k, r.token)) {
          return false;
        }
      }
      return true;
    }
  }

  lemma RecoveredIsOwed(w: World, k: Kind)
    requires Inv(w) && w.disk.marker.Some? && DiskRecoverable(w.disk)
    ensures Current(DiskRecovered(w.disk), k) == OriginalOf(w, k)
  {
  }

  /** In every reachable state, what `recover` leaves is what it owes the user. */
  lemma RecoveredIsOriginal(start: World, run: seq<Action>, k: Kind)
    requires Init(start) && IsRun(start, run)
    requires var w := Exec(start, run); w.disk.marker.Some? && DiskRecoverable(w.disk)
    ensures var w := Exec(start, run);
            Current(DiskRecovered(w.disk), k) == OriginalOf(w, k)
  {
    InitInv(start);
    InvAlways(start, run);
    RecoveredIsOwed(Exec(start, run), k);
  }

  /**
   Nothing stands in recovery's way: no current slot is a link, no stranger sits under
   the backup name of an entry that had no tree, and no tree still in place is gone.
   */
  predicate Unobstructed(d: Disk) {
    d.marker.Some? ==> forall k ::
        && !Current(d, k).Link?
        && (!Had(d.marker.value, k) ==> !Exists(Backup(d, k, d.marker.value.token)))
        && (InPlace(d, k) ==> Exists(Current(d, k)))
  }

  /** In every reachable state the remaining checks of `recover` hold by themselves. */
  lemma RecoverableIff(start: World, history: seq<Action>)
    requires Init(start) && IsRun(start, history)
    ensures var d := Exec(start, history).disk; DiskRecoverable(d) <==> Unobstructed(d)
  {
    InitInv(start);
    InvAlways(start, history);
    var w := Exec(start, history);
    if w.disk.marker.Some? {
      assert Kept(w, w.disk.marker.value, Data) && Kept(w, w.disk.marker.value, Logs);
      if DiskRecoverable(w.disk) {
        forall k
          ensures EntryRecoverable(w.disk, w.disk.marker.value, k)
        {
        }
      } else {
        assert exists k :: !EntryRecoverable(w.disk, w.disk.marker.value, k);
      }
    }
  }

  // ----- a retry completes

  function Alive(w: World): set<Group> {
    set g | g in w.groups && !w.groups[g].Dead?
  }

  /** A step of a retry: nobody but the driver moves, and only groups in `killable` die on request. */
  predicate RetryStep(w: World, a: Action, killable: set<Group>) {
    match a
    case Kill =>
      w.driver.Killing? && w.driver.next < |w.driver.record.groups| ==>
        var g := w.driver.record.groups[w.driver.next];
        g in Alive(w) ==> g in killable
    case Crash => true
    case StartDriver => true
    case Load => true
    case RefuseKill => true
    case Shrink(_) => true
    case RestoreEntry => true
    case Unlink => true
    case _ => false
  }

  /** Any number of attempts at recovery, each of which may crash or give up anywhere. */
  predicate Retries(w: World, run: seq<Action>, killable: set<Group>)
    requires IsRun(w, run)
    decreases |run|
  {
    run == [] || (RetryStep(w, run[0], killable) && Retries(Next(w, run[0]), run[1..], killable))
  }

  /** The steps of one call of `recover` that meets no refusal: no crash, and no driver started anew. */
  predicate Straight(run: seq<Action>) {
    forall a <- run :: a.Load? || a.Kill? || a.RestoreEntry? || a.Unlink?
  }

  lemma {:induction false} Extend(w: World, run: seq<Action>, a: Action, killable: set<Group>)
    requires IsRun(w, run) && Retries(w, run, killable)
    requires Enabled(Exec(w, run), a) && RetryStep(Exec(w, run), a, killable)
    ensures IsRun(w, run + [a]) && Exec(w, run + [a]) == Next(Exec(w, run), a) && Retries(w, run + [a], killable)
    decreases |run|
  {
    if run == [] {
      assert (run + [a])[1..] == [];
    } else {
      Extend(Next(w, run[0]), run[1..], a, killable);
      assert (run + [a])[1..] == run[1..] + [a];
    }
  }

  lemma KillAll(w: World, run: seq<Action>, killable: set<Group>) returns (longer: seq<Action>)
    requires IsRun(w, run) && Retries(w, run, killable) && Exec(w, run).driver.Killing?
    requires Exec(w, run).driver.next <= |Exec(w, run).driver.record.groups|
    requires AllTerminate(Exec(w, run).driver.record.groups, Alive(Exec(w, run)), killable) && Straight(run)
    ensures IsRun(w, longer) && Retries(w, longer, killable) && Straight(longer)
    ensures Exec(w, longer).disk == Exec(w, run).disk
    ensures Exec(w, longer).driver ==
            Restoring(Exec(w, run).driver.record, Logs, false, Exec(w, run).driver.after)
    decreases |Exec(w, run).driver.record.groups| - Exec(w, run).driver.next
  {
    Extend(w, run, Kill, killable);
    longer := run + [Kill];
    if Exec(w, run).driver.next < |Exec(w, run).driver.record.groups| {
      assert Alive(Exec(w, longer)) <= Alive(Exec(w, run));
      longer := KillAll(w, longer, killable);
    }
  }

  lemma RestoreOne(w: World, run: seq<Action>, killable: set<Group>) returns (longer: seq<Action>)
    requires IsRun(w, run) && Retries(w, run, killable)
    requires Exec(w, run).driver.Restoring? && !Exec(w, run).driver.removed && Straight(run)
    requires EntryRecoverable(Exec(w, run).disk, Exec(w, run).driver.record, Exec(w, run).driver.kind)
    ensures IsRun(w, longer) && Retries(w, longer, killable) && Straight(longer)
    ensures var d := Exec(w, run).driver;
            && Exec(w, longer).disk == EntryRecovered(Exec(w, run).disk, d.record, d.kind)
            && Exec(w, longer).driver == AfterEntry(d.record, d.kind, d.after)
  {
    Extend(w, run, RestoreEntry, killable);
    longer := run + [RestoreEntry];
    if Exec(w, longer).driver.Restoring? && Exec(w, longer).driver.removed {
      Extend(w, longer, RestoreEntry, killable);
      longer := longer + [RestoreEntry];
    }
  }

  /** A call of `recover` left alone, wherever it is made from. */
  lemma CompletingRecovery(w: World, killable: set<Group>) returns (run: seq<Action>)
    requires w.driver.Recovering? && w.disk.marker.Some? && DiskRecoverable(w.disk)
    requires AllTerminate(w.disk.marker.value.groups, Alive(w), killable)
    ensures IsRun(w, run) && Retries(w, run, killable) && Straight(run)
    ensures Exec(w, run).disk == DiskRecovered(w.disk) && Exec(w, run).driver == Proceed(w.driver.after)
  {
    EntriesIndependent(w.disk, w.disk.marker.value);
    run := [];
    Extend(w, run, Load, killable);
    run := run + [Load];
    run := KillAll(w, run, killable);
    run := RestoreOne(w, run, killable);
    run := RestoreOne(w, run, killable);
    Extend(w, run, Unlink, killable);
    run := run + [Unlink];
  }

  lemma CompletingRetry(w: World, killable: set<Group>) returns (run: seq<Action>)
    requires w.driver.Down? && w.disk.marker.Some? && DiskRecoverable(w.disk)
    requires AllTerminate(w.disk.marker.value.groups, Alive(w), killable)
    ensures IsRun(w, run) && Retries(w, run, killable)
    ensures Exec(w, run).disk == DiskRecovered(w.disk) && Exec(w, run).driver.Ready?
  {
    var started := Next(w, StartDriver);
    assert Alive(started) == Alive(w);
    var rest := CompletingRecovery(started, killable);
    run := [StartDriver] + rest;
    assert run[1..] == rest;
  }

  /**
   After any history of crashes, when every live recorded group can be terminated and
   nothing stands in the way: a retry completes, and both slots hold what they held
   before `__enter__`.
   */
  lemma RetryCompletes(start: World, history: seq<Action>, killable: set<Group>) returns (run: seq<Action>)
    requires Init(start) && IsRun(start, history)
    requires var w := Exec(start, history);
             && w.driver.Down? && w.disk.marker.Some? && Unobstructed(w.disk)
             && AllTerminate(w.disk.marker.value.groups, Alive(w), killable)
    ensures var w := Exec(start, history);
            && IsRun(w, run) && Retries(w, run, killable)
            && var done := Exec(w, run);
               && done.disk.marker.None? && done.driver.Ready?
               && (forall k :: Current(done.disk, k) == OriginalOf(w, k))
  {
    var w := Exec(start, history);
    RecoverableIff(start, history);
    run := CompletingRetry(w, killable);
    forall k
      ensures Current(DiskRecovered(w.disk), k) == OriginalOf(w, k)
    {
      RecoveredIsOriginal(start, history, k);
    }
  }

  /**
   Leaving the isolation recovers: after any history, from inside and with nothing in the
   way, there is a run that begins with `__exit__`, goes on with the steps of one `recover`
   alone, and ends with the driver gone, no marker, and both slots holding what is owed.
   */
  lemma LeaveRecovers(start: World, history: seq<Action>, killable: set<Group>) returns (run: seq<Action>)
    requires Init(start) && IsRun(start, history)
    requires var w := Exec(start, history);
             && w.driver.Inside? && w.disk.marker.Some? && Unobstructed(w.disk)
             && AllTerminate(w.disk.marker.value.groups, Alive(w), killable)
    ensures var w := Exec(start, history);
            && run != [] && run[0] == Leave && Straight(run[1..]) && IsRun(w, run)
            && var done := Exec(w, run);
               && done.driver.Down? && done.disk.marker.None?
               && (forall k :: Current(done.disk, k) == OriginalOf(w, k))
  {
    var w := Exec(start, history);
    RecoverableIff(start, history);
    var leaving := Next(w, Leave);
    assert Alive(leaving) == Alive(w);
    var rest := CompletingRecovery(leaving, killable);
    run := [Leave] + rest;
    assert run[1..] == rest;
    forall k
      ensures Current(DiskRecovered(w.disk), k) == OriginalOf(w, k)
    {
      RecoveredIsOriginal(start, history, k);
    }
  }

  /**
   A driver never just ends: in every reachable state, the step that ends it is a crash, a
   refused termination, an entry that fails a check, or the one that leaves no marker.
   */
  lemma EndsOnlyRecovered(start: World, history: seq<Action>, a: Action)
    requires Init(start) && IsRun(start, history)
    requires var w := Exec(start, history);
             !w.driver.Down? && Enabled(w, a) && Next(w, a).driver.Down?
    ensures var w := Exec(start, history);
            || a.Crash? || a.RefuseKill?
            || (a.RestoreEntry? && w.disk.marker.Some? && !EntryRecoverable(w.disk, w.disk.marker.value, w.driver.kind))
            || Next(w, a).disk.marker.None?
  {
    InitInv(start);
    InvAlways(start, history);
  }

  // ----- a whole smoke

  lemma {:induction false} Join(w: World, a: seq<Action>, b: seq<Action>)
    requires IsRun(w, a) && IsRun(Exec(w, a), b)
    ensures IsRun(w, a + b) && Exec(w, a + b) == Exec(Exec(w, a), b)
    decreases |a|
  {
    if a == [] {
      assert a + b == b;
    } else {
      Join(Next(w, a[0]), a[1..], b);
      assert (a + b)[1..] == a[1..] + b;
    }
  }

  lemma Step(w: World, a: Action)
    requires Enabled(w, a)
    ensures IsRun(w, [a]) && Exec(w, [a]) == Next(w, a)
  {
    assert [a][1..] == [];
  }

  /** `__enter__` over plain slots moves every tree aside and lets the smoke in. */
  lemma EnterMovesAside(w: World, token: Token)
    requires w.driver.Ready? && forall k :: !Current(w.disk, k).Link? && !Exists(Backup(w.disk, k, token))
    ensures IsRun(w, [Mark(token), MoveAside, MoveAside])
    ensures var inside := Exec(w, [Mark(token), MoveAside, MoveAside]);
            && inside.driver.Inside? && inside.driver.app.NoApp? && inside.groups == w.groups
            && inside.disk.marker == Some(inside.driver.record)
            && inside.driver.record.token == token && inside.driver.record.groups == []
            && (forall k :: Current(inside.disk, k) == Absent && OriginalOf(inside, k) == Current(w.disk, k))
            && (forall k :: Had(inside.driver.record, k) == Exists(Current(w.disk, k)))
            && (forall k :: if Exists(Current(w.disk, k)) then Backup(inside.disk, k, token) == Current(w.disk, k)
                            else !Exists(Backup(inside.disk, k, token)))
  {
    var w1 := Next(w, Mark(token));
    var w2 := Next(w1, MoveAside);
    Step(w2, MoveAside);
    assert [MoveAside, MoveAside][1..] == [MoveAside];
    assert [Mark(token), MoveAside, MoveAside][1..] == [MoveAside, MoveAside];
    assert IsRun(w1, [MoveAside, MoveAside]) && Exec(w1, [MoveAside, MoveAside]) == Next(w2, MoveAside);
  }

  /** A launch with room in the marker gets its application running, recorded and released. */
  lemma LaunchRuns(w: World, g: Group)
    requires w.driver.Inside? && w.driver.app.NoApp? && |w.driver.record.groups| < 2 && g !in w.groups
    ensures IsRun(w, [Launch(g), Register, OpenGate])
    ensures var running := Exec(w, [Launch(g), Register, OpenGate]);
            && running.driver.Inside? && running.driver.app == Running(g) && StateOf(running, g).Released?
            && running.driver.record == w.driver.record.(groups := w.driver.record.groups + [g])
            && running.disk == w.disk.(marker := Some(running.driver.record)) && running.original == w.original
            && running.groups == w.groups[g := Released]
  {
    var w1 := Next(w, Launch(g));
    var w2 := Next(w1, Register);
    Step(w2, OpenGate);
    assert [Register, OpenGate][1..] == [OpenGate] && [Launch(g), Register, OpenGate][1..] == [Register, OpenGate];
    assert IsRun(w1, [Register, OpenGate]) && Exec(w1, [Register, OpenGate]) == Next(w2, OpenGate);
  }

  /** Stopping it ends the application and takes it out of the marker. */
  lemma StopEnds(w: World, before: seq<Group>)
    requires w.driver.Inside? && w.driver.app.Running?
    requires w.driver.record.groups == before + [w.driver.app.group] && w.driver.app.group !in before
    ensures IsRun(w, [StopApp, Unregister])
    ensures var stopped := Exec(w, [StopApp, Unregister]);
            && stopped.driver.Inside? && stopped.driver.app.NoApp?
            && stopped.driver.record == w.driver.record.(groups := before)
            && stopped.disk == w.disk.(marker := Some(stopped.driver.record)) && stopped.original == w.original
            && stopped.groups == w.groups[w.driver.app.group := Dead]
  {
    var w1 := Next(w, StopApp);
    Step(w1, Unregister);
    assert [StopApp, Unregister][1..] == [Unregister];
    WithoutLast(before, w.driver.app.group);
  }

  lemma {:induction false} WithoutLast(before: seq<Group>, g: Group)
    requires g !in before
    ensures Without(before + [g], g) == before
  {
    if before == [] {
      assert (before + [g])[1..] == [];
    } else {
      assert (before + [g])[1..] == before[1..] + [g];
      WithoutLast(before[1..], g);
    }
  }

  /** One launch and its end leave the isolation as it was. */
  lemma LaunchAndStop(w: World, g: Group)
    requires w.driver.Inside? && w.driver.app.NoApp? && |w.driver.record.groups| < 2
    requires g !in w.groups && g !in w.driver.record.groups && w.disk.marker == Some(w.driver.record)
    ensures IsRun(w, LaunchOf(g) + [StopApp, Unregister])
    ensures Exec(w, LaunchOf(g) + [StopApp, Unregister]) == w.(groups := w.groups[g := Dead])
  {
    LaunchRuns(w, g);
    var running := Exec(w, LaunchOf(g));
    StopEnds(running, w.driver.record.groups);
    Join(w, LaunchOf(g), [StopApp, Unregister]);
    assert running.groups[g := Dead] == w.groups[g := Dead];
  }

  function LaunchOf(g: Group): seq<Action> {
    [Launch(g), Register, OpenGate]
  }

  /** A first driver that finds no marker is let in at once. */
  lemma FirstEnter(start: World, token: Token) returns (run: seq<Action>)
    requires Init(start) && forall k :: !Current(start.disk, k).Link? && !Exists(Backup(start.disk, k, token))
    ensures IsRun(start, run) && forall a <- run :: !a.Crash? && !a.UserEdit?
    ensures var inside := Exec(start, run);
            && inside.driver.Inside? && inside.driver.app.NoApp? && inside.groups == map[]
            && inside.disk.marker == Some(inside.driver.record) && inside.driver.record.groups == []
            && inside.driver.record.token == token
            && (forall k :: Current(inside.disk, k) == Absent && OriginalOf(inside, k) == Current(start.disk, k))
            && (forall k :: Had(inside.driver.record, k) == Exists(Current(start.disk, k)))
            && (forall k ::
                  if Exists(Current(start.disk, k)) then Backup(inside.disk, k, token) == Current(start.disk, k)
                  else !Exists(Backup(inside.disk, k, token)))
  {
    var ready := Next(Next(start, StartDriver), Load);
    Step(Next(start, StartDriver), Load);
    assert [StartDriver, Load][1..] == [Load];
    assert Exec(start, [StartDriver, Load]) == ready;
    EnterMovesAside(ready, token);
    Join(start, [StartDriver, Load], [Mark(token), MoveAside, MoveAside]);
    run := [StartDriver, Load] + [Mark(token), MoveAside, MoveAside];
  }

  /**
   A smoke without mishap, for every start with plain slots and an unused backup name: the
   trees are moved aside, two applications run one after the other, each recorded and
   released, and when the driver has left, the slots are as they were and no marker is left.
   `n` and `m` are the moments at which the applications run.
   */
  lemma WholeSmoke(start: World, token: Token, g: Group, h: Group) returns (run: seq<Action>, n: nat, m: nat)
    requires Init(start) && g != h
    requires forall k :: !Current(start.disk, k).Link? && !Exists(Backup(start.disk, k, token))
    ensures IsRun(start, run) && n <= m <= |run| && IsRun(start, run[..n]) && IsRun(start, run[..m])
    ensures AppRuns(Exec(start, run[..n]), g) && AppRuns(Exec(start, run[..m]), h)
    ensures Exec(start, run).driver.Down? && Exec(start, run).disk.marker.None?
    ensures forall k :: Current(Exec(start, run).disk, k) == Current(start.disk, k)
  {
    var enter := FirstEnter(start, token);
    var inside := Exec(start, enter);
    LaunchRuns(inside, g);
    Join(start, enter, LaunchOf(g));
    var first := enter + LaunchOf(g);
    LaunchAndStop(inside, g);
    Join(start, enter, LaunchOf(g) + [StopApp, Unregister]);
    var between := enter + (LaunchOf(g) + [StopApp, Unregister]);
    var w := Exec(start, between);
    LaunchRuns(w, h);
    Join(start, between, LaunchOf(h));
    var second := between + LaunchOf(h);
    LaunchAndStop(w, h);
    Join(start, between, LaunchOf(h) + [StopApp, Unregister]);
    var history := between + (LaunchOf(h) + [StopApp, Unregister]);
    AsideIsUnobstructed(inside, Exec(start, history));
    var rest := LeaveRecovers(start, history, {});
    Join(start, history, rest);
    run, n, m := history + rest, |first|, |second|;
    assert run[..n] == first && run[..m] == second;
  }

  /** The application is running, recorded in the durable marker, and released. */
  predicate AppRuns(w: World, g: Group) {
    && w.driver.Inside? && w.driver.app == Running(g) && StateOf(w, g).Released?
    && w.disk.marker.Some? && g in w.disk.marker.value.groups
  }

  lemma AsideIsUnobstructed(inside: World, w: World)
    requires inside.driver.Inside? && inside.disk.marker == Some(inside.driver.record)
    requires w.disk == inside.disk && forall k :: Current(w.disk, k) == Absent
    requires var r := inside.driver.record;
             forall k :: if Had(r, k) then Exists(Backup(w.disk, k, r.token)) else !Exists(Backup(w.disk, k, r.token))
    ensures Unobstructed(w.disk)
  {
  }

  // ----- and otherwise none does

  /** A live recorded group that will not die keeps every attempt in front of the trees. */
  predicate HeldByGroup(w: World, r: Record, g: Group) {
    && w.disk.marker == Some(r) && g in Alive(w) && g in r.groups
    && (w.driver.Down? || w.driver.Recovering? ||
        (w.driver.Killing? && w.driver.record == r && w.driver.next <= |r.groups| && g !in r.groups[..w.driver.next]))
  }

  lemma {:induction false} HeldStays(w: World, run: seq<Action>, killable: set<Group>, r: Record, g: Group)
    requires IsRun(w, run) && Retries(w, run, killable)
    requires HeldByGroup(w, r, g) && g !in killable
    ensures Exec(w, run).disk.marker == Some(r)
    decreases |run|
  {
    if run == [] {
    } else {
      if run[0].Kill? {
        var i := w.driver.next;
        assert r.groups[..|r.groups|] == r.groups;
        assert i < |r.groups|;
        assert r.groups[..i + 1] == r.groups[..i] + [r.groups[i]];
      }
      HeldStays(Next(w, run[0]), run[1..], killable, r, g);
    }
  }

  /** An entry that fails a check keeps every attempt from passing it. */
  predicate HeldByEntry(w: World, r: Record, k: Kind) {
    && w.disk.marker == Some(r) && !EntryRecoverable(w.disk, r, k)
    && match w.driver
       case Down => true
       case Recovering(_) => true
       case Killing(record, _, _) => record == r
       case Restoring(record, kind, removed, _) =>
         && record == r && (kind.Data? ==> k.Data?)
         && (kind == k && removed ==> !Had(r, k) && Exists(Backup(w.disk, k, r.token)))
       case _ => false
  }

  lemma {:induction false} BlockedStays(w: World, run: seq<Action>, killable: set<Group>, r: Record, k: Kind)
    requires IsRun(w, run) && Retries(w, run, killable) && HeldByEntry(w, r, k)
    ensures Exec(w, run).disk.marker == Some(r)
    decreases |run|
  {
    if run == [] {
    } else {
      BlockedStays(Next(w, run[0]), run[1..], killable, r, k);
    }
  }

  /**
   Whatever the history, some sequence of retries gets rid of the marker if and only if
   the live recorded groups can be terminated and nothing stands in the way.
   */
  lemma RetryPossibleIff(start: World, history: seq<Action>, killable: set<Group>)
    requires Init(start) && IsRun(start, history)
    requires Exec(start, history).driver.Down? && Exec(start, history).disk.marker.Some?
    ensures var w := Exec(start, history);
            (exists run :: IsRun(w, run) && Retries(w, run, killable) && Exec(w, run).disk.marker.None?) <==>
            AllTerminate(w.disk.marker.value.groups, Alive(w), killable) && Unobstructed(w.disk)
  {
    var w := Exec(start, history);
    var r := w.disk.marker.value;
    RecoverableIff(start, history);
    if AllTerminate(r.groups, Alive(w), killable) && Unobstructed(w.disk) {
      var run := CompletingRetry(w, killable);
    } else {
      forall run | IsRun(w, run) && Retries(w, run, killable)
        ensures Exec(w, run).disk.marker.Some?
      {
        if !AllTerminate(r.groups, Alive(w), killable) {
          var g :| g in r.groups && g in Alive(w) && g !in killable;
          HeldStays(w, run, killable, r, g);
        } else {
          var k :| !EntryRecoverable(w.disk, r, k);
          BlockedStays(w, run, killable, r, k);
        }
      }
    }
  }

  // ----- what `__enter__` has to find

  predicate NoEdit(run: seq<Action>) {
    forall a <- run :: !a.UserEdit?
  }

  /** The slot was a link when the marker was written, and no attempt has passed its entry. */
  predicate LinkedSince(w: World, k: Kind) {
    && w.disk.marker.Some? && OriginalOf(w, k).Link?
    && !w.driver.Unlinking?
    && (w.driver.Restoring? && k.Logs? ==> w.driver.kind.Logs?)
  }

  lemma LinkedStep(w: World, a: Action, k: Kind)
    requires Inv(w) && Enabled(w, a) && LinkedSince(w, k) && !a.UserEdit?
    ensures LinkedSince(Next(w, a), k)
  {
    assert Kept(w, w.disk.marker.value, k);
  }

  lemma {:induction false} LinkedStays(w: World, run: seq<Action>, k: Kind)
    requires Inv(w) && IsRun(w, run) && LinkedSince(w, k) && NoEdit(run)
    ensures LinkedSince(Exec(w, run), k)
    decreases |run|
  {
    if run == [] {
    } else {
      assert !run[0].UserEdit? && forall a <- run[1..] :: a in run;
      StepKeepsInv(w, run[0]);
      LinkedStep(w, run[0], k);
      LinkedStays(Next(w, run[0]), run[1..], k);
    }
  }

  /**
   `__enter__` writes its marker before it looks for symbolic links.  Once it has done so
   over a linked slot, no run of retries, crashes and applications ever removes the
   marker until the user does away with the link: every later `recover` raises.
   */
  lemma LinkedSlotNeverRecovers(start: World, before: seq<Action>, token: Token, k: Kind, during: seq<Action>)
    requires Init(start) && IsRun(start, before) && Enabled(Exec(start, before), Mark(token))
    requires Current(Exec(start, before).disk, k).Link?
    requires IsRun(Next(Exec(start, before), Mark(token)), during) && NoEdit(during)
    ensures var w := Exec(Next(Exec(start, before), Mark(token)), during);
            w.disk.marker.Some? && !DiskRecoverable(w.disk)
  {
    InitInv(start);
    InvAlways(start, before);
    StepKeepsInv(Exec(start, before), Mark(token));
    LinkedStays(Next(Exec(start, before), Mark(token)), during, k);
    InvAlways(Next(Exec(start, before), Mark(token)), during);
  }

  /** The first smoke dies right after its marker is written. */
  lemma FirstMark(start: World) returns (run: seq<Action>)
    requires Init(start) && forall k :: PlaceOf(start.disk, k).backups == map[]
    ensures run == [StartDriver, Load, Mark(0), Crash] && IsRun(start, run)
    ensures Exec(start, run) == Next(Next(Next(Next(start, StartDriver), Load), Mark(0)), Crash)
  {
    run := [StartDriver, Load, Mark(0), Crash];
    var w2 := Next(Next(start, StartDriver), Load);
    var w3 := Next(w2, Mark(0));
    assert run[1..][1..][1..] == [Crash] && [Crash][1..] == [];
    assert run[1..][1..] == [Mark(0), Crash];
    assert Exec(w3, [Crash]) == Next(w3, Crash);
    assert Exec(w2, [Mark(0), Crash]) == Next(w3, Crash);
  }

  /** Such a start: the data path is a link to an existing directory when the first smoke begins. */
  lemma LinkedStart() returns (start: World, run: seq<Action>)
    ensures Init(start) && Current(start.disk, Data) == Link(false)
    ensures IsRun(start, run) && run == [StartDriver, Load, Mark(0), Crash]
    ensures var w := Exec(start, run); w.driver.Down? && w.disk.marker.Some? && !DiskRecoverable(w.disk)
  {
    start := World(Disk(Place(Link(false), map[]), Place(Absent, map[]), None), map[], Down, map[]);
    run := FirstMark(start);
  }

  /** Nobody edits, and no application turns a slot into a link. */
  predicate Quiet(run: seq<Action>) {
    forall a <- run :: !a.UserEdit? && (a.AppWrite? ==> !a.slot.Link?)
  }

  /** Neither the slot, nor the name of a backup that is not to be, is taken by an obstacle. */
  predicate ClearSlot(w: World, r: Record, k: Kind) {
    !Current(w.disk, k).Link? && (!Had(r, k) ==> !Exists(Backup(w.disk, k, r.token)))
  }

  predicate ClearEntry(w: World, r: Record, k: Kind) {
    ClearSlot(w, r, k) && !OriginalOf(w, k).Link? && Had(r, k) == Exists(OriginalOf(w, k))
  }

  /** What a quiet run keeps: recovery's way is clear wherever the driver stands. */
  predicate Clear(w: World) {
    w.disk.marker.Some? ==> forall k :: ClearEntry(w, w.disk.marker.value, k)
  }

  lemma ClearSlotStep(w: World, a: Action, k: Kind)
    requires Inv(w) && Enabled(w, a) && w.disk.marker.Some? && !OriginalOf(w, k).Link?
    requires ClearSlot(w, w.disk.marker.value, k)
    requires !a.Mark? && !a.UserEdit? && (a.AppWrite? ==> !a.slot.Link?)
    ensures ClearSlot(Next(w, a), w.disk.marker.value, k)
  {
    assert Kept(w, w.disk.marker.value, k);
  }

  /** Between two markings the marker changes at most its groups, and what is owed stays. */
  lemma MarkerStep(w: World, a: Action)
    requires Inv(w) && Enabled(w, a) && !a.Mark? && !a.UserEdit? && Next(w, a).disk.marker.Some?
    ensures w.disk.marker.Some? && Next(w, a).original == w.original
    ensures var r, r' := w.disk.marker.value, Next(w, a).disk.marker.value;
            r'.token == r.token && r'.hadData == r.hadData && r'.hadLogs == r.hadLogs
  {
  }

  lemma ClearStep(w: World, a: Action)
    requires Inv(w) && Enabled(w, a) && Clear(w) && !a.Mark? && !a.UserEdit? && (a.AppWrite? ==> !a.slot.Link?)
    ensures Clear(Next(w, a))
  {
    var w' := Next(w, a);
    if w'.disk.marker.Some? {
      MarkerStep(w, a);
      forall k
        ensures ClearEntry(w', w'.disk.marker.value, k)
      {
        assert ClearEntry(w, w.disk.marker.value, k);
        ClearSlotStep(w, a, k);
      }
    }
  }

  lemma {:induction false} ClearStays(w: World, run: seq<Action>)
    requires Inv(w) && IsRun(w, run) && Clear(w) && NoMark(run) && Quiet(run)
    ensures Clear(Exec(w, run))
    decreases |run|
  {
    if run == [] {
    } else {
      var a := run[0];
      assert !a.Mark? && !a.UserEdit? && (a.AppWrite? ==> !a.slot.Link?);
      assert forall b <- run[1..] :: b in run;
      StepKeepsInv(w, a);
      ClearStep(w, a);
      ClearStays(Next(w, a), run[1..]);
    }
  }

  /**
   Whether a crashed isolation can be recovered was settled when `__enter__` began: with a
   backup name nothing bears, and as long as nobody else puts links into the slots,
   the way is clear after every crash if and only if neither slot was a link.
   */
  lemma RecoverableIffUnlinkedAtEnter(start: World, before: seq<Action>, token: Token, during: seq<Action>)
    requires Init(start) && IsRun(start, before) && Enabled(Exec(start, before), Mark(token))
    requires forall k :: !Exists(Backup(Exec(start, before).disk, k, token))
    requires NoMark(during) && Quiet(during) && IsRun(Next(Exec(start, before), Mark(token)), during)
    requires Exec(Next(Exec(start, before), Mark(token)), during).disk.marker.Some?
    ensures DiskRecoverable(Exec(Next(Exec(start, before), Mark(token)), during).disk) <==>
            forall k :: !Current(Exec(start, before).disk, k).Link?
  {
    var w, marked := Exec(start, before), Next(Exec(start, before), Mark(token));
    InitInv(start);
    InvAlways(start, before);
    StepKeepsInv(w, Mark(token));
    InvAlways(marked, during);
    if forall k :: !Current(w.disk, k).Link? {
      forall k
        ensures OriginalOf(marked, k) == Current(w.disk, k) == Current(marked.disk, k)
        ensures Had(marked.disk.marker.value, k) == Exists(Current(w.disk, k))
        ensures Backup(marked.disk, k, token) == Backup(w.disk, k, token)
      {
        assert k.Data? || k.Logs?;
      }
      ClearStays(marked, during);
      var now := Exec(marked, during);
      forall k
        ensures EntryRecoverable(now.disk, now.disk.marker.value, k)
      {
        assert Kept(now, now.disk.marker.value, k) && ClearEntry(now, now.disk.marker.value, k);
      }
    } else {
      var k :| Current(w.disk, k).Link?;
      LinkedSlotNeverRecovers(start, before, token, k, during);
    }
  }

  // ----- edits between a crash and its recovery

  /**
   Of what the user does after a crash, recovery keeps exactly the edits to a tree that
   had not been moved aside; elsewhere it brings back what was there before, or nothing.
   */
  lemma EditKeptIffInPlace(start: World, history: seq<Action>, k: Kind, slot: Slot)
    requires Init(start) && IsRun(start, history)
    requires var w := Exec(start, history);
             w.driver.Down? && w.disk.marker.Some? && DiskRecoverable(Next(w, UserEdit(k, slot)).disk)
    ensures var w := Exec(start, history);
            Current(DiskRecovered(Next(w, UserEdit(k, slot)).disk), k) ==
            if InPlace(w.disk, k) then slot else if Had(w.disk.marker.value, k) then OriginalOf(w, k) else Absent
  {
    InitInv(start);
    InvAlways(start, history);
    var w := Exec(start, history);
    StepKeepsInv(w, UserEdit(k, slot));
    RecoveredIsOwed(Next(w, UserEdit(k, slot)), k);
  }

  /** A tree the user makes where there was none, after a crash, does not outlive recovery. */
  lemma NewTreeIsDeleted(files: Files) returns (start: World, history: seq<Action>)
    ensures Init(start) && IsRun(start, history)
    ensures var w := Exec(start, history);
            && w.driver.Down? && w.disk.marker.Some?
            && var edited := Next(w, UserEdit(Data, Tree(files))).disk;
               DiskRecoverable(edited) && Current(DiskRecovered(edited), Data) == Absent
  {
    start := World(Disk(Place(Absent, map[]), Place(Absent, map[]), None), map[], Down, map[]);
    history := FirstMark(start);
  }
}
