/**
 The marker-file protocol that moves the user's private trees aside, runs the packaged
 application, and restores them, under process crashes at every point.

 The disk holds, for the data tree and the log tree, a current slot and backup slots
 named by a token, plus one marker.  Renames and marker writes are atomic; removing a
 tree is not.  The driver is the smoke process; application groups run beside it and
 outlive it.
 */
module Isolation {
  import opened Wrappers

  type Token = nat
  type Group = nat
  type Files = map<string, string>

  datatype Slot = Absent | Link(dangling: bool) | Tree(files: Files)

  /** `Path.exists` follows a symbolic link. */
  predicate Exists(s: Slot) {
    s.Tree? || (s.Link? && !s.dangling)
  }

  datatype Kind = Data | Logs

  datatype Place = Place(current: Slot, backups: map<Token, Slot>)

  /** The marker: which trees existed, the backup name, and the registered process groups. */
  datatype Record = Record(token: Token, hadData: bool, hadLogs: bool, groups: seq<Group>)

  datatype Disk = Disk(data: Place, logs: Place, marker: Option<Record>)

  function PlaceOf(d: Disk, k: Kind): Place {
    if k.Data? then d.data else d.logs
  }

  function WithPlace(d: Disk, k: Kind, p: Place): Disk {
    if k.Data? then d.(data := p) else d.(logs := p)
  }

  function Current(d: Disk, k: Kind): Slot {
    PlaceOf(d, k).current
  }

  function Backup(d: Disk, k: Kind, token: Token): Slot {
    var backups := PlaceOf(d, k).backups;
    if token in backups then backups[token] else Absent
  }

  function SetCurrent(d: Disk, k: Kind, s: Slot): Disk {
    WithPlace(d, k, PlaceOf(d, k).(current := s))
  }

  /** `os.replace(current, backup)`. */
  function MoveAway(d: Disk, k: Kind, token: Token): Disk {
    var p := PlaceOf(d, k);
    WithPlace(d, k, Place(Absent, p.backups[token := p.current]))
  }

  /** `os.replace(backup, current)`. */
  function MoveBack(d: Disk, k: Kind, token: Token): Disk {
    WithPlace(d, k, Place(Backup(d, k, token), PlaceOf(d, k).backups - {token}))
  }

  function Had(r: Record, k: Kind): bool {
    if k.Data? then r.hadData else r.hadLogs
  }

  /** A launched group waits at its gate until it is told to go, and may die at any time. */
  datatype GroupState = Gated | Released | Dead

  /** What the driver still has to do when `recover` returns. */
  datatype After = ThenEnter | ThenExit

  datatype App =
    | NoApp
    | Launched(group: Group)
    | Registered(group: Group)
    | Running(group: Group)
    | Stopped(group: Group)

  datatype Driver =
    | Down
    | Recovering(after: After)
    | Killing(record: Record, next: nat, after: After)
    | Restoring(record: Record, kind: Kind, removed: bool, after: After)
    | Unlinking(record: Record, after: After)
    | Ready
    | Moving(record: Record, kind: Kind)
    | Inside(record: Record, app: App)

  /**
   `original` is what recovery owes the user: the current slots at the latest marker
   creation, with the user's later edits to a tree that is still in place.
   */
  datatype World = World(disk: Disk, groups: map<Group, GroupState>, driver: Driver, original: map<Kind, Slot>)

  datatype Action =
    | Crash
    | StartDriver
    | Load
    | Kill
    | RefuseKill
    | Shrink(files: Files)
    | RestoreEntry
    | Unlink
    | Mark(token: Token)
    | MoveAside
    | Launch(group: Group)
    | Register
    | OpenGate
    | StopApp
    | Unregister
    | Leave
    | GroupExit(group: Group)
    | AppWrite(group: Group, kind: Kind, slot: Slot)
    | UserEdit(kind: Kind, slot: Slot)

  function OriginalOf(w: World, k: Kind): Slot {
    if k in w.original then w.original[k] else Absent
  }

  function StateOf(w: World, g: Group): GroupState {
    if g in w.groups then w.groups[g] else Dead
  }

  predicate SubTree(small: Files, big: Files) {
    forall f <- small :: f in big && big[f] == small[f]
  }

  /** `recover` is going to remove the current tree of this entry. */
  predicate Removes(d: Disk, r: Record, k: Kind) {
    Had(r, k) ==> Backup(d, k, r.token).Tree?
  }

  /** A random token names no backup that an existing tree could overwrite. */
  predicate FreshToken(d: Disk, token: Token) {
    forall k :: Exists(Current(d, k)) ==> !Exists(Backup(d, k, token))
  }

  predicate Enabled(w: World, a: Action) {
    match a
    case Crash => !w.driver.Down?
    case StartDriver => w.driver.Down?
    case Load => w.driver.Recovering?
    case Kill => w.driver.Killing?
    case RefuseKill =>
      && w.driver.Killing? && w.driver.next < |w.driver.record.groups|
      && !StateOf(w, w.driver.record.groups[w.driver.next]).Dead?
    case Shrink(files) =>
      && w.driver.Restoring? && !w.driver.removed
      && var current := Current(w.disk, w.driver.kind);
         current.Tree? && Removes(w.disk, w.driver.record, w.driver.kind) && SubTree(files, current.files)
    case RestoreEntry => w.driver.Restoring?
    case Unlink => w.driver.Unlinking?
    case Mark(token) => w.driver.Ready? && FreshToken(w.disk, token)
    case MoveAside => w.driver.Moving?
    case Launch(g) => w.driver.Inside? && w.driver.app.NoApp? && g !in w.groups
    case Register => w.driver.Inside? && w.driver.app.Launched?
    case OpenGate => w.driver.Inside? && w.driver.app.Registered?
    case StopApp => w.driver.Inside? && !w.driver.app.NoApp?
    case Unregister => w.driver.Inside? && w.driver.app.Stopped?
    case Leave => w.driver.Inside?
    case GroupExit(g) => g in w.groups
    case AppWrite(g, _, _) => StateOf(w, g).Released?
    case UserEdit(_, _) => w.driver.Down?
  }

  /** An uncaught failure ends the driver and leaves the disk to the next recovery. */
  function Raise(w: World): World {
    w.(driver := Down)
  }

  function Proceed(after: After): Driver {
    if after.ThenEnter? then Ready else Down
  }

  /** `recover` handles the entries in reverse order: logs, then data. */
  function AfterEntry(r: Record, k: Kind, after: After): Driver {
    if k.Logs? then Restoring(r, Data, false, after) else Unlinking(r, after)
  }

  /** One step of the entry at hand: the removal of the current tree, or what follows it. */
  function RestoreStep(w: World, r: Record, k: Kind, removed: bool, after: After): World {
    var current, backup := Current(w.disk, k), Backup(w.disk, k, r.token);
    if !removed then
      if Had(r, k) && !Exists(backup) then
        if !Exists(current) || current.Link? then Raise(w) else w.(driver := AfterEntry(r, k, after))
      else if (Had(r, k) && backup.Link?) || current.Link? then Raise(w)
      else w.(disk := SetCurrent(w.disk, k, Absent), driver := Restoring(r, k, true, after))
    else if Had(r, k) then
      w.(disk := MoveBack(w.disk, k, r.token), driver := AfterEntry(r, k, after))
    else if Exists(backup) then Raise(w)
    else w.(driver := AfterEntry(r, k, after))
  }

  function MoveStep(w: World, r: Record, k: Kind): World {
    if Current(w.disk, k).Link? || Exists(Backup(w.disk, k, r.token)) then w.(driver := Recovering(ThenExit))
    else
      w.(disk := if Had(r, k) then MoveAway(w.disk, k, r.token) else w.disk,
         driver := if k.Data? then Moving(r, Logs) else Inside(r, NoApp))
  }

  function Without(groups: seq<Group>, g: Group): seq<Group> {
    if groups == [] then []
    else (if groups[0] == g then [] else [groups[0]]) + Without(groups[1..], g)
  }

  function WriteMarker(w: World, r: Record, app: App): World {
    w.(disk := w.disk.(marker := Some(r)), driver := Inside(r, app))
  }

  /** The user's tree has not been moved aside. */
  predicate InPlace(d: Disk, k: Kind) {
    d.marker.None? || (Had(d.marker.value, k) && !Exists(Backup(d, k, d.marker.value.token)))
  }

  /** An edit changes what is owed only where the user's own tree is still in place. */
  function OwedAfterEdit(w: World, k: Kind, slot: Slot): Slot {
    if InPlace(w.disk, k) then slot
    else if Had(w.disk.marker.value, k) then OriginalOf(w, k)
    else Absent
  }

  function Next(w: World, a: Action): World
    requires Enabled(w, a)
  {
    match a
    case Crash => w.(driver := Down)
    case StartDriver => w.(driver := Recovering(ThenEnter))
    case Load =>
      var after := w.driver.after;
      w.(driver := if w.disk.marker.None? then Proceed(after) else Killing(w.disk.marker.value, 0, after))
    case Kill =>
      var Killing(r, i, after) := w.driver;
      if i < |r.groups| then w.(groups := w.groups[r.groups[i] := Dead], driver := Killing(r, i + 1, after))
      else w.(driver := Restoring(r, Logs, false, after))
    case RefuseKill => Raise(w)
    case Shrink(files) =>
      w.(disk := SetCurrent(w.disk, w.driver.kind, Tree(files)))
    case RestoreEntry =>
      RestoreStep(w, w.driver.record, w.driver.kind, w.driver.removed, w.driver.after)
    case Unlink =>
      w.(disk := w.disk.(marker := None), driver := Proceed(w.driver.after))
    case Mark(token) =>
      var r := Record(token, Exists(Current(w.disk, Data)), Exists(Current(w.disk, Logs)), []);
      w.(disk := w.disk.(marker := Some(r)),
         driver := Moving(r, Data),
         original := map[Data := Current(w.disk, Data), Logs := Current(w.disk, Logs)])
    case MoveAside => MoveStep(w, w.driver.record, w.driver.kind)
    case Launch(g) =>
      w.(groups := w.groups[g := Gated], driver := Inside(w.driver.record, Launched(g)))
    case Register =>
      var Inside(r, Launched(g)) := w.driver;
      if |r.groups| >= 2 then w.(driver := Recovering(ThenExit))
      else WriteMarker(w, r.(groups := r.groups + [g]), Registered(g))
    case OpenGate =>
      var Inside(r, Registered(g)) := w.driver;
      if StateOf(w, g).Gated? then w.(groups := w.groups[g := Released], driver := Inside(r, Running(g)))
      else w.(driver := Recovering(ThenExit))
    case StopApp =>
      var g := w.driver.app.group;
      w.(groups := w.groups[g := Dead], driver := Inside(w.driver.record, Stopped(g)))
    case Unregister =>
      var Inside(r, Stopped(g)) := w.driver;
      WriteMarker(w, r.(groups := Without(r.groups, g)), NoApp)
    case Leave => w.(driver := Recovering(ThenExit))
    case GroupExit(g) => w.(groups := w.groups[g := Dead])
    case AppWrite(_, k, slot) => w.(disk := SetCurrent(w.disk, k, slot))
    case UserEdit(k, slot) =>
      w.(disk := SetCurrent(w.disk, k, slot), original := w.original[k := OwedAfterEdit(w, k, slot)])
  }

  predicate IsRun(w: World, run: seq<Action>)
    decreases |run|
  {
    run == [] || (Enabled(w, run[0]) && IsRun(Next(w, run[0]), run[1..]))
  }

  function Exec(w: World, run: seq<Action>): World
    requires IsRun(w, run)
    decreases |run|
  {
    if run == [] then w else Exec(Next(w, run[0]), run[1..])
  }

  predicate Init(w: World) {
    w.disk.marker.None? && w.groups == map[] && w.driver.Down?
  }

  // ----- what every step keeps

  /** An original tree is in its current slot, or in the backup the marker names. */
  predicate Kept(w: World, r: Record, k: Kind) {
    var o, c, b := OriginalOf(w, k), Current(w.disk, k), Backup(w.disk, k, r.token);
    && (!Had(r, k) ==> !Exists(o))
    && (Had(r, k) ==> (c == o && !Exists(b)) || (b == o && o.Tree?))
    && (o.Link? ==> c == o)
  }

  /** The entry is ready for an application to use the current slot. */
  predicate Aside(w: World, r: Record, k: Kind) {
    var o := OriginalOf(w, k);
    !o.Link? && (Had(r, k) ==> o.Tree? && Backup(w.disk, k, r.token) == o)
  }

  /** The entry is as `__enter__` found it. */
  predicate Found(w: World, r: Record, k: Kind) {
    Current(w.disk, k) == OriginalOf(w, k) && Had(r, k) == Exists(OriginalOf(w, k))
  }

  predicate Restored(w: World, r: Record, k: Kind) {
    Current(w.disk, k) == OriginalOf(w, k) && !Exists(Backup(w.disk, k, r.token))
  }

  ghost predicate NoneReleased(w: World) {
    forall g :: !StateOf(w, g).Released?
  }

  /** Every released group that is alive is in the durable marker, and both trees are aside. */
  ghost predicate GateInv(w: World) {
    forall g :: StateOf(w, g).Released? ==>
      && w.disk.marker.Some?
      && g in w.disk.marker.value.groups
      && Aside(w, w.disk.marker.value, Data) && Aside(w, w.disk.marker.value, Logs)
  }

  predicate DiskInv(w: World) {
    w.disk.marker.Some? ==> Kept(w, w.disk.marker.value, Data) && Kept(w, w.disk.marker.value, Logs)
  }

  /** What the driver's place in the program says about the disk. */
  ghost predicate DriverInv(w: World) {
    match w.driver
    case Down => true
    case Recovering(_) => true
    case Killing(r, i, _) =>
      && w.disk.marker == Some(r) && i <= |r.groups|
      && (forall j :: 0 <= j < i ==> !StateOf(w, r.groups[j]).Released?)
    case Restoring(r, k, removed, _) =>
      && w.disk.marker == Some(r) && NoneReleased(w)
      && (k.Data? ==> Restored(w, r, Logs))
      && (removed ==>
            && Current(w.disk, k).Absent? && !OriginalOf(w, k).Link?
            && (Had(r, k) ==> Backup(w.disk, k, r.token) == OriginalOf(w, k)))
    case Unlinking(r, _) =>
      w.disk.marker == Some(r) && NoneReleased(w) && Restored(w, r, Logs) && Restored(w, r, Data)
    case Ready => w.disk.marker.None?
    case Moving(r, k) =>
      && w.disk.marker == Some(r) && NoneReleased(w)
      && Found(w, r, Logs)
      && (if k.Data? then Found(w, r, Data) else Aside(w, r, Data))
    case Inside(r, app) =>
      && w.disk.marker == Some(r) && Aside(w, r, Data) && Aside(w, r, Logs)
      && (app.Launched? || app.Stopped? ==> !StateOf(w, app.group).Released?)
      && (app.Registered? || app.Running? ==> app.group in r.groups)
  }

  ghost predicate Inv(w: World) {
    GateInv(w) && DiskInv(w) && DriverInv(w)
  }

  lemma DriverStepKeepsInv(w: World, a: Action)
    requires Inv(w) && Enabled(w, a)
    requires a.Crash? || a.StartDriver? || a.Load? || a.Leave? || a.Unlink? || a.RefuseKill?
    ensures Inv(Next(w, a))
  {
    var w' := Next(w, a);
    assert forall g :: StateOf(w', g) == StateOf(w, g);
  }

  lemma KillKeepsInv(w: World)
    requires Inv(w) && Enabled(w, Kill)
    ensures Inv(Next(w, Kill))
  {
    var w' := Next(w, Kill);
    var r, i := w.driver.record, w.driver.next;
    assert forall g :: StateOf(w', g).Released? ==> StateOf(w, g).Released?;
    if i == |r.groups| {
      assert forall g <- r.groups :: !StateOf(w, g).Released?;
    }
  }

  lemma GroupStepKeepsInv(w: World, a: Action)
    requires Inv(w) && Enabled(w, a)
    requires a.Launch? || a.StopApp? || a.GroupExit?
    ensures Inv(Next(w, a))
  {
    var w' := Next(w, a);
    assert forall g :: StateOf(w', g).Released? ==> StateOf(w, g).Released?;
  }

  lemma RegisterKeepsInv(w: World)
    requires Inv(w) && Enabled(w, Register)
    ensures Inv(Next(w, Register))
  {
  }

  lemma OpenGateKeepsInv(w: World)
    requires Inv(w) && Enabled(w, OpenGate)
    ensures Inv(Next(w, OpenGate))
  {
  }

  lemma {:induction false} WithoutKeepsOthers(groups: seq<Group>, g: Group, h: Group)
    requires h in groups && h != g
    ensures h in Without(groups, g)
  {
    if groups[0] != h {
      WithoutKeepsOthers(groups[1..], g, h);
    }
  }

  lemma UnregisterKeepsInv(w: World)
    requires Inv(w) && Enabled(w, Unregister)
    ensures Inv(Next(w, Unregister))
  {
    var w' := Next(w, Unregister);
    var g := w.driver.app.group;
    forall h | StateOf(w', h).Released?
      ensures h in w'.disk.marker.value.groups
    {
      assert StateOf(w, h).Released? && h != g;
      WithoutKeepsOthers(w.driver.record.groups, g, h);
    }
    assert forall h :: StateOf(w', h) == StateOf(w, h);
  }

  lemma AppWriteKeepsInv(w: World, a: Action)
    requires Inv(w) && Enabled(w, a) && a.AppWrite?
    ensures Inv(Next(w, a))
  {
  }

  lemma UserEditKeepsInv(w: World, a: Action)
    requires Inv(w) && Enabled(w, a) && a.UserEdit?
    ensures Inv(Next(w, a))
  {
    var w' := Next(w, a);
    assert forall g :: StateOf(w', g) == StateOf(w, g);
  }

  lemma ShrinkKeepsInv(w: World, files: Files)
    requires Inv(w) && Enabled(w, Shrink(files))
    ensures Inv(Next(w, Shrink(files)))
  {
    var w' := Next(w, Shrink(files));
    assert forall g :: StateOf(w', g) == StateOf(w, g);
  }

  lemma RemoveKeepsInv(w: World, k: Kind)
    requires Inv(w) && w.driver.Restoring? && !w.driver.removed && w.driver.kind == k
    ensures Inv(Next(w, RestoreEntry))
  {
    var w' := Next(w, RestoreEntry);
    assert forall g :: StateOf(w', g) == StateOf(w, g);
    if k.Data? {
      assert Backup(w'.disk, Logs, w.driver.record.token) == Backup(w.disk, Logs, w.driver.record.token);
    } else {
      assert Backup(w'.disk, Data, w.driver.record.token) == Backup(w.disk, Data, w.driver.record.token);
    }
  }

  lemma MoveBackKeepsInv(w: World, k: Kind)
    requires Inv(w) && w.driver.Restoring? && w.driver.removed && w.driver.kind == k
    ensures Inv(Next(w, RestoreEntry))
  {
    var w' := Next(w, RestoreEntry);
    assert forall g :: StateOf(w', g) == StateOf(w, g);
    if Had(w.driver.record, k) {
      assert Restored(w', w.driver.record, k);
    }
  }

  lemma RestoreKeepsInv(w: World)
    requires Inv(w) && Enabled(w, RestoreEntry)
    ensures Inv(Next(w, RestoreEntry))
  {
    if w.driver.removed {
      MoveBackKeepsInv(w, w.driver.kind);
    } else {
      RemoveKeepsInv(w, w.driver.kind);
    }
  }

  lemma MarkKeepsInv(w: World, token: Token)
    requires Inv(w) && Enabled(w, Mark(token))
    ensures Inv(Next(w, Mark(token)))
  {
    var w' := Next(w, Mark(token));
    assert forall g :: StateOf(w', g) == StateOf(w, g);
  }

  lemma MoveKeepsInv(w: World)
    requires Inv(w) && Enabled(w, MoveAside)
    ensures Inv(Next(w, MoveAside))
  {
    var w' := Next(w, MoveAside);
    assert forall g :: StateOf(w', g) == StateOf(w, g);
  }

  /** Every step of the driver, the applications, the user and the crashes keeps the invariant. */
  lemma StepKeepsInv(w: World, a: Action)
    requires Inv(w) && Enabled(w, a)
    ensures Inv(Next(w, a))
  {
    match a
    case Crash => DriverStepKeepsInv(w, a);
    case StartDriver => DriverStepKeepsInv(w, a);
    case Load => DriverStepKeepsInv(w, a);
    case Leave => DriverStepKeepsInv(w, a);
    case Unlink => DriverStepKeepsInv(w, a);
    case Kill => KillKeepsInv(w);
    case RefuseKill => DriverStepKeepsInv(w, a);
    case Shrink(files) => ShrinkKeepsInv(w, files);
    case RestoreEntry => RestoreKeepsInv(w);
    case Mark(token) => MarkKeepsInv(w, token);
    case MoveAside => MoveKeepsInv(w);
    case Launch(_) => GroupStepKeepsInv(w, a);
    case StopApp => GroupStepKeepsInv(w, a);
    case GroupExit(_) => GroupStepKeepsInv(w, a);
    case Register => RegisterKeepsInv(w);
    case OpenGate => OpenGateKeepsInv(w);
    case Unregister => UnregisterKeepsInv(w);
    case AppWrite(_, _, _) => AppWriteKeepsInv(w, a);
    case UserEdit(_, _) => UserEditKeepsInv(w, a);
  }

  lemma {:induction false} InvAlways(w: World, run: seq<Action>)
    requires Inv(w) && IsRun(w, run)
    ensures Inv(Exec(w, run))
    decreases |run|
  {
    if run == [] {
    } else {
      StepKeepsInv(w, run[0]);
      InvAlways(Next(w, run[0]), run[1..]);
    }
  }

  lemma InitInv(w: World)
    requires Init(w)
    ensures Inv(w)
  {
  }

  // ----- the promises

  /** Whatever crashes and retries happen, an original tree is intact in its current or backup slot. */
  lemma OriginalsSurvive(start: World, run: seq<Action>, k: Kind)
    requires Init(start) && IsRun(start, run)
    requires Exec(start, run).disk.marker.Some?
    ensures var w := Exec(start, run);
            var o := OriginalOf(w, k);
            Exists(o) ==> Current(w.disk, k) == o || Backup(w.disk, k, w.disk.marker.value.token) == o
  {
    InitInv(start);
    InvAlways(start, run);
  }

  /** A released application that is alive is listed in the durable marker. */
  lemma ReleasedIsRecorded(start: World, run: seq<Action>, g: Group)
    requires Init(start) && IsRun(start, run)
    requires StateOf(Exec(start, run), g).Released?
    ensures var w := Exec(start, run);
            w.disk.marker.Some? && g in w.disk.marker.value.groups
  {
    InitInv(start);
    InvAlways(start, run);
  }

  /** Trees are swapped only while no released application can write to them. */
  lemma NoSwapUnderRunningApp(start: World, run: seq<Action>)
    requires Init(start) && IsRun(start, run)
    requires Exec(start, run).driver.Restoring? || Exec(start, run).driver.Moving?
    ensures NoneReleased(Exec(start, run))
  {
    InitInv(start);
    InvAlways(start, run);
  }

  /** No new isolation begins, and the user leaves both slots alone. */
  predicate Untouched(run: seq<Action>) {
    forall a <- run :: !a.Mark? && !a.UserEdit?
  }

  predicate NoMark(run: seq<Action>) {
    forall a <- run :: !a.Mark?
  }

  lemma {:induction false} OriginalFixed(w: World, run: seq<Action>)
    requires IsRun(w, run) && Untouched(run)
    ensures Exec(w, run).original == w.original
    decreases |run|
  {
    if run == [] {
    } else {
      assert !run[0].Mark? && !run[0].UserEdit?;
      assert forall a <- run[1..] :: a in run;
      OriginalFixed(Next(w, run[0]), run[1..]);
    }
  }

  lemma {:induction false} TokenFixed(w: World, run: seq<Action>, token: Token)
    requires Inv(w) && IsRun(w, run) && NoMark(run)
    requires w.disk.marker.Some? ==> w.disk.marker.value.token == token
    ensures Exec(w, run).disk.marker.Some? ==> Exec(w, run).disk.marker.value.token == token
    decreases |run|
  {
    if run == [] {
    } else {
      assert !run[0].Mark?;
      assert forall a <- run[1..] :: a in run;
      StepKeepsInv(w, run[0]);
      TokenFixed(Next(w, run[0]), run[1..], token);
    }
  }

  lemma MarkRemembers(w: World, token: Token)
    requires Enabled(w, Mark(token))
    ensures Next(w, Mark(token)).disk.marker.value.token == token
    ensures forall k :: OriginalOf(Next(w, Mark(token)), k) == Current(w.disk, k)
  {
  }

  /** What a completing `recover` leaves. */
  lemma UnlinkLeavesOwed(w: World)
    requires Inv(w) && Enabled(w, Unlink)
    ensures var done, token := Next(w, Unlink), w.disk.marker.value.token;
            && done.disk.marker.None? && NoneReleased(done)
            && (forall k :: Current(done.disk, k) == OriginalOf(w, k) && !Exists(Backup(done.disk, k, token)))
  {
    assert forall g :: StateOf(Next(w, Unlink), g) == StateOf(w, g);
    assert Restored(w, w.driver.record, Data) && Restored(w, w.driver.record, Logs);
  }

  /**
   From the moment `__enter__` records an isolation to the moment some `recover`,
   of this process or a later one, completes: both current slots hold what is owed, which
   is exactly what they held before unless the user edited them meanwhile, and neither a
   marker, a backup nor a released application is left.
   */
  lemma IsolationRoundTrip(start: World, before: seq<Action>, token: Token, during: seq<Action>)
    requires Init(start) && IsRun(start, before)
    requires Enabled(Exec(start, before), Mark(token))
    requires NoMark(during) && IsRun(Next(Exec(start, before), Mark(token)), during)
    requires Enabled(Exec(Next(Exec(start, before), Mark(token)), during), Unlink)
    ensures var w := Exec(start, before);
            var last := Exec(Next(w, Mark(token)), during);
            var done := Next(last, Unlink);
            && (forall k :: Current(done.disk, k) == OriginalOf(last, k))
            && (Untouched(during) ==> forall k :: Current(done.disk, k) == Current(w.disk, k))
            && done.disk.marker.None? && NoneReleased(done)
            && (forall k :: !Exists(Backup(done.disk, k, token)))
  {
    var w := Exec(start, before);
    InitInv(start);
    InvAlways(start, before);
    var marked := Next(w, Mark(token));
    StepKeepsInv(w, Mark(token));
    MarkRemembers(w, token);
    InvAlways(marked, during);
    TokenFixed(marked, during, token);
    UnlinkLeavesOwed(Exec(marked, during));
    if Untouched(during) {
      OriginalFixed(marked, during);
    }
  }
}
