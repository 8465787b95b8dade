/**
 The recogniser of native PhotoKit live traces, and the grammar of the sessions it
 accepts.
 */
module LiveTrace {
  import opened Wrappers

  datatype Pair = Pair(asset: string, resource: string)

  datatype Residency = Local | Cloud | OtherResidency(name: string)

  /** A record whose event is approved and whose fields have the approved types and constants. */
  datatype Event =
    | AuthorizationGranted
    | ResourceSelected(pair: Pair)
    | ProbeStarted(pair: Pair)
    | ProbeNetworkRequired(pair: Pair)
    | RetryStarted(pair: Pair)
    | TransferProgress(pair: Pair, permille: int)
    | AssetCompleted(pair: Pair, byteCount: int, callbacks: int, residency: Residency)
    | SessionCompleted

  predicate IsAlias(s: string) {
    |s| == 64 && forall c <- s :: '0' <= c <= '9' || 'a' <= c <= 'f'
  }

  /** `record.get("asset_alias")` and its sibling: absent on the two session events. */
  function PairOf(e: Event): Option<Pair> {
    if e.AuthorizationGranted? || e.SessionCompleted? then None else Some(e.pair)
  }

  predicate RecordValid(e: Event) {
    && (PairOf(e).Some? ==> IsAlias(e.pair.asset) && IsAlias(e.pair.resource))
    && (e.TransferProgress? ==> 0 <= e.permille <= 1000)
    && (e.AssetCompleted? && e.residency.OtherResidency? ==> e.residency.name != "local" && e.residency.name != "cloud")
  }

  datatype AssetProof = AssetProof(
    asset: string, resource: string, byteCount: int, callbacks: int, outputName: string, residency: Residency)

  datatype LiveProof = LiveProof(local: AssetProof, cloud: AssetProof, eventCount: nat)

  // ----- the grammar

  datatype Operation =
    | LocalOp(pair: Pair, byteCount: int)
    | CloudOp(pair: Pair, progress: seq<int>, byteCount: int, callbacks: int)

  /** Two selections and the operations on them, in the order they happened. */
  datatype Session = Session(first: Pair, second: Pair, op1: Operation, op2: Operation)

  predicate Nondecreasing(s: seq<int>) {
    forall i, j :: 0 <= i < j < |s| ==> s[i] <= s[j]
  }

  predicate OpOk(op: Operation) {
    && op.byteCount > 0
    && (op.CloudOp? ==> op.progress != [] && Nondecreasing(op.progress) && op.callbacks >= |op.progress|)
  }

  predicate SessionOk(s: Session) {
    && s.first != s.second
    && {s.op1.pair, s.op2.pair} == {s.first, s.second}
    && OpOk(s.op1) && OpOk(s.op2)
    && s.op1.CloudOp? != s.op2.CloudOp?
  }

  function PrintProgress(pair: Pair, progress: seq<int>): seq<Event> {
    seq(|progress|, i requires 0 <= i < |progress| => TransferProgress(pair, progress[i]))
  }

  function PrintOp(op: Operation): seq<Event> {
    match op
    case LocalOp(pair, bytes) =>
      [ProbeStarted(pair), AssetCompleted(pair, bytes, 0, Local)]
    case CloudOp(pair, progress, bytes, callbacks) =>
      [ProbeStarted(pair), ProbeNetworkRequired(pair), RetryStarted(pair)]
      + PrintProgress(pair, progress)
      + [AssetCompleted(pair, bytes, callbacks, Cloud)]
  }

  function Print(s: Session): seq<Event> {
    [AuthorizationGranted, ResourceSelected(s.first), ResourceSelected(s.second)]
    + PrintOp(s.op1) + PrintOp(s.op2)
    + [SessionCompleted]
  }

  function OpProof(op: Operation, suffix: string): AssetProof {
    AssetProof(op.pair.asset, op.pair.resource, op.byteCount,
               if op.CloudOp? then op.callbacks else 0,
               op.pair.resource + suffix,
               if op.CloudOp? then Cloud else Local)
  }

  function SessionProof(s: Session, suffix: string): LiveProof {
    var (local, cloud) := if s.op1.CloudOp? then (s.op2, s.op1) else (s.op1, s.op2);
    LiveProof(OpProof(local, suffix), OpProof(cloud, suffix), |Print(s)|)
  }

  // ----- what a proof certifies, read off the events

  /** The proof repeats the completion event, and names the output after its resource. */
  predicate Certifies(p: AssetProof, e: Event, suffix: string) {
    && e.AssetCompleted? && p.residency == e.residency
    && p.asset == e.pair.asset && p.resource == e.pair.resource && p.outputName == e.pair.resource + suffix
    && p.byteCount == e.byteCount && p.callbacks == e.callbacks
  }

  /** One completion of each residency, each certified, and every event counted. */
  predicate ProofMatches(proof: LiveProof, records: seq<Event>, suffix: string) {
    && proof.eventCount == |records|
    && (exists e <- records :: e.AssetCompleted? && e.residency.Local?)
    && (exists e <- records :: e.AssetCompleted? && e.residency.Cloud?)
    && (forall e <- records :: e.AssetCompleted? ==>
          match e.residency
          case Local => Certifies(proof.local, e, suffix)
          case Cloud => Certifies(proof.cloud, e, suffix)
          case OtherResidency(_) => false)
  }

  /** The event that ends an operation. */
  function Completion(op: Operation): Event {
    match op
    case LocalOp(pair, bytes) => AssetCompleted(pair, bytes, 0, Local)
    case CloudOp(pair, _, bytes, callbacks) => AssetCompleted(pair, bytes, callbacks, Cloud)
  }

  lemma OneCompletion(op: Operation)
    ensures Completion(op) in PrintOp(op)
    ensures forall e <- PrintOp(op) :: e.AssetCompleted? ==> e == Completion(op)
  {
    var printed := PrintOp(op);
    assert printed[|printed| - 1] == Completion(op);
    if op.CloudOp? {
      forall e <- printed | e.AssetCompleted?
        ensures e == Completion(op)
      {
        assert e in PrintProgress(op.pair, op.progress) ==> e.TransferProgress?;
      }
    }
  }

  lemma SessionProofMatches(s: Session, suffix: string)
    requires SessionOk(s)
    ensures ProofMatches(SessionProof(s, suffix), Print(s), suffix)
  {
    OneCompletion(s.op1);
    OneCompletion(s.op2);
    assert Completion(s.op1) in Print(s) && Completion(s.op2) in Print(s);
    forall e <- Print(s) | e.AssetCompleted?
      ensures e == Completion(s.op1) || e == Completion(s.op2)
    {
      assert e in PrintOp(s.op1) || e in PrintOp(s.op2);
    }
  }

  // ----- operations by position

  predicate ProgressAt(records: seq<Event>, start: nat, pair: Pair, progress: seq<int>)
    requires start + |progress| <= |records|
  {
    forall i :: start <= i < start + |progress| ==> records[i] == TransferProgress(pair, progress[i - start])
  }

  predicate OpAt(records: seq<Event>, start: nat, op: Operation, end: nat) {
    match op
    case LocalOp(pair, bytes) =>
      && end == start + 2 <= |records|
      && records[start] == ProbeStarted(pair)
      && records[start + 1] == AssetCompleted(pair, bytes, 0, Local)
    case CloudOp(pair, progress, bytes, callbacks) =>
      && end == start + 4 + |progress| <= |records|
      && records[start] == ProbeStarted(pair)
      && records[start + 1] == ProbeNetworkRequired(pair)
      && records[start + 2] == RetryStarted(pair)
      && ProgressAt(records, start + 3, pair, progress)
      && records[start + 3 + |progress|] == AssetCompleted(pair, bytes, callbacks, Cloud)
  }

  lemma OpAtIffPrinted(records: seq<Event>, start: nat, op: Operation, end: nat)
    ensures OpAt(records, start, op, end) <==>
            end == start + |PrintOp(op)| <= |records| && records[start..end] == PrintOp(op)
  {
    var printed := PrintOp(op);
    if end == start + |printed| <= |records| {
      var slice := records[start..end];
      assert forall i :: start <= i < end ==> records[i] == slice[i - start];
      if OpAt(records, start, op, end) {
        assert forall i :: 0 <= i < |printed| ==> slice[i] == records[start + i] == printed[i];
      }
      if slice == printed && op.CloudOp? {
        forall i | start + 3 <= i < start + 3 + |op.progress|
          ensures records[i] == TransferProgress(op.pair, op.progress[i - (start + 3)])
        {
          assert records[i] == printed[i - start] == PrintProgress(op.pair, op.progress)[i - start - 3];
        }
        assert records[start + 3 + |op.progress|] == printed[3 + |op.progress|];
      }
    }
  }

  /** At most one operation starts at a position. */
  lemma OpDeterministic(records: seq<Event>, start: nat, a: Operation, endA: nat, b: Operation, endB: nat)
    requires OpAt(records, start, a, endA) && OpAt(records, start, b, endB)
    ensures a == b && endA == endB
  {
    if a.CloudOp? && b.CloudOp? {
      assert !records[start + 3 + |a.progress|].TransferProgress?;
      assert !records[start + 3 + |b.progress|].TransferProgress?;
      assert |a.progress| == |b.progress|;
      forall i | 0 <= i < |a.progress|
        ensures a.progress[i] == b.progress[i]
      {
        assert records[start + 3 + i] == TransferProgress(a.pair, a.progress[i]);
      }
    }
  }

  predicate Fits(records: seq<Event>, s: Session, mid: nat, end: nat) {
    && |records| >= 4
    && records[0] == AuthorizationGranted
    && records[1] == ResourceSelected(s.first) && records[2] == ResourceSelected(s.second)
    && OpAt(records, 3, s.op1, mid) && OpAt(records, mid, s.op2, end)
    && |records| == end + 1 && records[end] == SessionCompleted
  }

  lemma Unglue<T>(head: seq<T>, a: seq<T>, b: seq<T>, last: T)
    ensures var all, mid := head + a + b + [last], |head| + |a|;
            && all[..|head|] == head && all[|head|..mid] == a && all[mid..mid + |b|] == b
            && all[mid + |b|] == last
  {
  }

  lemma PrintedFits(s: Session)
    ensures var mid := 3 + |PrintOp(s.op1)|;
            Fits(Print(s), s, mid, mid + |PrintOp(s.op2)|)
  {
    var head := [AuthorizationGranted, ResourceSelected(s.first), ResourceSelected(s.second)];
    var mid := 3 + |PrintOp(s.op1)|;
    Unglue(head, PrintOp(s.op1), PrintOp(s.op2), SessionCompleted);
    OpAtIffPrinted(Print(s), 3, s.op1, mid);
    OpAtIffPrinted(Print(s), mid, s.op2, mid + |PrintOp(s.op2)|);
    assert forall i :: 0 <= i < 3 ==> Print(s)[i] == Print(s)[..3][i];
  }

  lemma Glue<T>(records: seq<T>, head: seq<T>, a: seq<T>, b: seq<T>, mid: nat, end: nat)
    requires |head| == 3 <= mid <= end && |records| == end + 1
    requires records[..3] == head && records[3..mid] == a && records[mid..end] == b
    ensures records == head + a + b + [records[end]]
  {
  }

  lemma FitsIsPrinted(records: seq<Event>, s: Session, mid: nat, end: nat)
    requires Fits(records, s, mid, end)
    ensures records == Print(s)
  {
    var head := [AuthorizationGranted, ResourceSelected(s.first), ResourceSelected(s.second)];
    OpAtIffPrinted(records, 3, s.op1, mid);
    OpAtIffPrinted(records, mid, s.op2, end);
    assert records[..3] == head;
    Glue(records, head, PrintOp(s.op1), PrintOp(s.op2), mid, end);
  }

  // ----- the recogniser

  datatype TraceError =
    | InvalidRecord
    | WrongExecutable
    | NoAuthorization
    | NoInitialSelections
    | SelectionsNotDistinct
    | NoProbe
    | ProbeNotSelected
    | RetryIncomplete
    | RetryChangedResource
    | ProgressChangedResource
    | NoProgress
    | ProgressNotMonotonic
    | NoCompletion
    | CompletionChangedResource
    | ResidencyInconsistent
    | ByteCountInvalid
    | CallbackCountInvalid
    | LocalReportedProgress
    | CloudCallbacksInvalid
    | ResidencyRepeated
    | SelectionNotCompleted
    | NotLocalAndCloud
    | NoSessionCompletion

  /** `values` are the consecutive progress events from `start`, all there are. */
  predicate ProgressRun(records: seq<Event>, start: nat, values: seq<int>) {
    && start + |values| <= |records|
    && (forall i :: start <= i < start + |values| ==>
          records[i].TransferProgress? && records[i].permille == values[i - start])
    && (start + |values| < |records| ==> !records[start + |values|].TransferProgress?)
  }

  predicate SamePair(records: seq<Event>, start: nat, end: nat, pair: Pair)
    requires start <= end <= |records|
  {
    forall i :: start <= i < end ==> PairOf(records[i]) == Some(pair)
  }

  method TakeProgress(records: seq<Event>, start: nat, pair: Pair) returns (values: seq<int>, same: bool)
    requires start <= |records|
    ensures ProgressRun(records, start, values)
    ensures same <==> SamePair(records, start, start + |values|, pair)
  {
    values, same := [], true;
    var cursor := start;
    while cursor < |records| && records[cursor].TransferProgress?
      invariant cursor == start + |values| <= |records|
      invariant forall i :: start <= i < cursor ==>
                  records[i].TransferProgress? && records[i].permille == values[i - start]
      invariant same <==> SamePair(records, start, cursor, pair)
    {
      if records[cursor].pair != pair {
        same := false;
      }
      values := values + [records[cursor].permille];
      cursor := cursor + 1;
    }
  }

  /** A cloud operation at `start` carries exactly the maximal run of progress events. */
  lemma CloudOpIs(records: seq<Event>, start: nat, values: seq<int>, op: Operation, end: nat)
    requires start + 3 <= |records| && ProgressRun(records, start + 3, values)
    requires op.CloudOp? && OpAt(records, start, op, end)
    ensures op.progress == values && SamePair(records, start + 3, start + 3 + |values|, op.pair)
  {
    var n := |op.progress|;
    assert !records[start + 3 + n].TransferProgress?;
    assert n == |values|;
    forall i | 0 <= i < n
      ensures op.progress[i] == values[i]
    {
      assert records[start + 3 + i] == TransferProgress(op.pair, op.progress[i]);
    }
  }

  /** What is known once the retry part of an operation has been read without error. */
  predicate RetryRead(records: seq<Event>, start: nat, pair: Pair, values: seq<int>) {
    && start + 2 < |records|
    && records[start + 1] == ProbeNetworkRequired(pair) && records[start + 2] == RetryStarted(pair)
    && ProgressRun(records, start + 3, values) && SamePair(records, start + 3, start + 3 + |values|, pair)
    && values != [] && Nondecreasing(values)
  }

  predicate CallbacksFit(progress: Option<seq<int>>, callbacks: int) {
    match progress
    case None => callbacks == 0
    case Some(values) => callbacks > 0 && callbacks >= |values|
  }

  /** The checks of a completion record; `progress` is absent for a local operation. */
  method CheckCompletion(done: Event, pair: Pair, progress: Option<seq<int>>) returns (errors: set<TraceError>)
    requires done.AssetCompleted?
    ensures errors == {} <==> CompletionFits(done, pair, progress)
  {
    errors := {};
    if done.pair != pair {
      errors := errors + {CompletionChangedResource};
    }
    if done.residency != (if progress.Some? then Cloud else Local) {
      errors := errors + {ResidencyInconsistent};
    }
    if done.byteCount <= 0 {
      errors := errors + {ByteCountInvalid};
    }
    var callbacks := done.callbacks;
    if callbacks < 0 {
      errors := errors + {CallbackCountInvalid};
      callbacks := 0;
    }
    if progress.None? && callbacks != 0 {
      errors := errors + {LocalReportedProgress};
    }
    if progress.Some? && (callbacks <= 0 || callbacks < |progress.value|) {
      errors := errors + {CloudCallbacksInvalid};
    }
  }

  /** No acceptable operation starts at this position. */
  ghost predicate NoOpAt(records: seq<Event>, start: nat) {
    forall op, end :: OpOk(op) ==> !OpAt(records, start, op, end)
  }

  lemma NoRetryNoOp(records: seq<Event>, start: nat, pair: Pair, values: seq<int>)
    requires start + 3 <= |records| && ProgressRun(records, start + 3, values)
    requires records[start] == ProbeStarted(pair) && records[start + 1].ProbeNetworkRequired?
    ensures RetryRead(records, start, pair, values) || NoOpAt(records, start)
  {
    if op, end :| OpOk(op) && OpAt(records, start, op, end) {
      CloudOpIs(records, start, values, op, end);
    }
  }

  /** From a network requirement through the progress events. */
  method CheckRetry(records: seq<Event>, start: nat, pair: Pair)
    returns (errors: set<TraceError>, values: seq<int>, cursor: nat)
    requires start + 1 < |records| && records[start] == ProbeStarted(pair) && records[start + 1].ProbeNetworkRequired?
    ensures errors == {} ==> RetryRead(records, start, pair, values) && cursor == start + 3 + |values|
    ensures errors != {} ==> NoOpAt(records, start)
  {
    errors := {};
    cursor := start + 1;
    if records[cursor].pair != pair {
      errors := errors + {RetryChangedResource};
    }
    cursor := cursor + 1;
    var retried := cursor < |records| && records[cursor].RetryStarted?;
    if retried {
      if records[cursor].pair != pair {
        errors := errors + {RetryChangedResource};
      }
      cursor := cursor + 1;
    } else {
      errors := errors + {RetryIncomplete};
    }
    var same;
    values, same := TakeProgress(records, cursor, pair);
    if !same {
      errors := errors + {ProgressChangedResource};
    }
    cursor := cursor + |values|;
    if values == [] {
      errors := errors + {NoProgress};
    }
    if !Nondecreasing(values) {
      errors := errors + {ProgressNotMonotonic};
    }
    if retried {
      NoRetryNoOp(records, start, pair, values);
    }
  }

  /** Whether an operation read up to its completion is acceptable. */
  predicate CompletionFits(done: Event, pair: Pair, progress: Option<seq<int>>) {
    && done.AssetCompleted? && done.pair == pair && done.residency == (if progress.Some? then Cloud else Local)
    && done.byteCount > 0 && CallbacksFit(progress, done.callbacks)
  }

  function OperationOf(pair: Pair, progress: Option<seq<int>>, done: Event): Operation
    requires done.AssetCompleted?
  {
    if progress.Some? then CloudOp(pair, progress.value, done.byteCount, done.callbacks)
    else LocalOp(pair, done.byteCount)
  }

  /** The part of an operation before its completion has been read without error. */
  predicate OpeningRead(records: seq<Event>, start: nat, pair: Pair, progress: Option<seq<int>>, cursor: nat) {
    && start < |records| && records[start] == ProbeStarted(pair)
    && (match progress
        case None => cursor == start + 1 && (cursor < |records| ==> !records[cursor].ProbeNetworkRequired?)
        case Some(values) => RetryRead(records, start, pair, values) && cursor == start + 3 + |values|)
  }

  lemma CompletionDecides(records: seq<Event>, start: nat, pair: Pair, progress: Option<seq<int>>, cursor: nat)
    requires OpeningRead(records, start, pair, progress, cursor)
    ensures cursor < |records| && CompletionFits(records[cursor], pair, progress) ==>
              var op := OperationOf(pair, progress, records[cursor]);
              OpOk(op) && OpAt(records, start, op, cursor + 1)
    ensures !(cursor < |records| && CompletionFits(records[cursor], pair, progress)) ==> NoOpAt(records, start)
  {
  }

  /**
   One turn of the two-operation loop, without the check against the selections: no
   error exactly when an acceptable operation starts here, and then that operation.
   */
  method ParseOperation(records: seq<Event>, start: nat)
    returns (errors: set<TraceError>, probed: Option<Pair>, parsed: Option<Operation>, cursor: nat)
    ensures errors == {} ==>
      && parsed.Some? && OpOk(parsed.value) && OpAt(records, start, parsed.value, cursor)
      && probed == Some(parsed.value.pair)
    ensures errors != {} ==> NoOpAt(records, start)
  {
    if start >= |records| || !records[start].ProbeStarted? {
      return {NoProbe}, None, None, start;
    }
    var pair := records[start].pair;
    errors, probed, parsed, cursor := {}, Some(pair), None, start + 1;
    var progress: Option<seq<int>> := None;
    if cursor < |records| && records[cursor].ProbeNetworkRequired? {
      var values;
      errors, values, cursor := CheckRetry(records, start, pair);
      progress := Some(values);
    }
    if errors == {} {
      CompletionDecides(records, start, pair, progress, cursor);
    }
    if cursor >= |records| || !records[cursor].AssetCompleted? {
      return errors + {NoCompletion}, probed, None, cursor;
    }
    var found := CheckCompletion(records[cursor], pair, progress);
    errors := errors + found;
    parsed := Some(OperationOf(pair, progress, records[cursor]));
    cursor := cursor + 1;
  }

  predicate AllValid(records: seq<Event>) {
    forall e <- records :: RecordValid(e)
  }

  /** The opening of the trace: authorization and two distinct selections. */
  method CheckOpening(records: seq<Event>) returns (errors: set<TraceError>, selected: set<Option<Pair>>)
    ensures errors == {} <==>
            && |records| >= 4 && records[0].AuthorizationGranted?
            && records[1].ResourceSelected? && records[2].ResourceSelected?
            && records[1].pair != records[2].pair
    ensures errors == {} ==> selected == {Some(records[1].pair), Some(records[2].pair)}
  {
    errors := {};
    if |records| == 0 || !records[0].AuthorizationGranted? {
      errors := errors + {NoAuthorization};
    }
    if |records| < 4 || !records[1].ResourceSelected? || !records[2].ResourceSelected? {
      errors := errors + {NoInitialSelections};
    }
    selected := if |records| >= 3 then {PairOf(records[1]), PairOf(records[2])} else {};
    if |selected| != 2 {
      errors := errors + {SelectionsNotDistinct};
    }
    if |records| >= 4 && records[1].ResourceSelected? && records[2].ResourceSelected? &&
      records[1].pair == records[2].pair {
      assert selected == {Some(records[1].pair)};
    }
  }

  function RoleOf(op: Operation): Residency {
    if op.CloudOp? then Cloud else Local
  }

  /** The operations read so far, each where the one before it ended. */
  ghost predicate OpsRead(records: seq<Event>, ops: seq<Operation>, cursor: nat) {
    && (forall op <- ops :: OpOk(op))
    && (|ops| == 0 ==> cursor == 3)
    && (|ops| == 1 ==> OpAt(records, 3, ops[0], cursor))
    && (|ops| == 2 ==> exists mid: nat :: OpAt(records, 3, ops[0], mid) && OpAt(records, mid, ops[1], cursor))
  }

  /** What `used_pairs` and `proofs` hold after reading these operations without error. */
  predicate Booked(ops: seq<Operation>, selected: set<Option<Pair>>, used: set<Option<Pair>>,
                   proofs: map<Residency, AssetProof>, suffix: string) {
    && |ops| <= 2
    && used == (set op | op in ops :: Some(op.pair)) && used <= selected
    && proofs.Keys == (set op | op in ops :: RoleOf(op))
    && (forall op <- ops :: RoleOf(op) in proofs && proofs[RoleOf(op)] == OpProof(op, suffix))
    && (|ops| == 2 ==> ops[0].pair != ops[1].pair && RoleOf(ops[0]) != RoleOf(ops[1]))
  }

  ghost predicate Accepts(records: seq<Event>, s: Session) {
    SessionOk(s) && exists mid: nat, end: nat :: Fits(records, s, mid, end)
  }

  lemma BookOne(ops: seq<Operation>, op: Operation, selected: set<Option<Pair>>, used: set<Option<Pair>>,
                proofs: map<Residency, AssetProof>, suffix: string)
    requires Booked(ops, selected, used, proofs, suffix) && |ops| < 2
    requires Some(op.pair) in selected && Some(op.pair) !in used && RoleOf(op) !in proofs
    ensures Booked(ops + [op], selected, used + {Some(op.pair)}, proofs[RoleOf(op) := OpProof(op, suffix)], suffix)
  {
  }

  /** Reading an accepted trace: the next operation is the session's, and passes every check. */
  lemma NextOpOfSession(records: seq<Event>, s: Session, ops: seq<Operation>, cursor: nat)
    requires Accepts(records, s) && OpsRead(records, ops, cursor) && |ops| < 2
    requires ops == [s.op1, s.op2][..|ops|]
    ensures exists end: nat :: OpAt(records, cursor, [s.op1, s.op2][|ops|], end)
    ensures OpOk([s.op1, s.op2][|ops|])
  {
  }

  /** The checks after the two operations. */
  predicate Finished(records: seq<Event>, selected: set<Option<Pair>>, used: set<Option<Pair>>,
                     proofs: map<Residency, AssetProof>, cursor: nat) {
    && used == selected && proofs.Keys == {Local, Cloud}
    && cursor < |records| && records[cursor].SessionCompleted? && cursor == |records| - 1
  }

  method CheckEnd(records: seq<Event>, selected: set<Option<Pair>>, used: set<Option<Pair>>,
                  proofs: map<Residency, AssetProof>, cursor: nat) returns (errors: set<TraceError>)
    ensures errors == {} <==> Finished(records, selected, used, proofs, cursor)
  {
    errors := {};
    if used != selected {
      errors := errors + {SelectionNotCompleted};
    }
    if proofs.Keys != {Local, Cloud} {
      errors := errors + {NotLocalAndCloud};
    }
    if cursor >= |records| || !records[cursor].SessionCompleted? || cursor != |records| - 1 {
      errors := errors + {NoSessionCompletion};
    }
  }

  ghost predicate ReadsAlong(records: seq<Event>, s: Session, ops: seq<Operation>, selected: set<Option<Pair>>) {
    && Accepts(records, s) && |ops| <= 2 && ops == [s.op1, s.op2][..|ops|]
    && selected == {Some(s.first), Some(s.second)}
  }

  /** One turn of the loop over the two operations; `ops` are those read without error so far. */
  method ReadOperation(records: seq<Event>, cursor: nat, selected: set<Option<Pair>>, used: set<Option<Pair>>,
                       proofs: map<Residency, AssetProof>, suffix: string, ghost ops: seq<Operation>)
    returns (errors: set<TraceError>, going: bool, cursor': nat, used': set<Option<Pair>>,
             proofs': map<Residency, AssetProof>, ghost ops': seq<Operation>)
    ensures |ops| < 2 && OpsRead(records, ops, cursor) && Booked(ops, selected, used, proofs, suffix) &&
            errors == {} ==>
      && going && |ops'| == |ops| + 1
      && OpsRead(records, ops', cursor') && Booked(ops', selected, used', proofs', suffix)
    ensures |ops| < 2 && OpsRead(records, ops, cursor) && Booked(ops, selected, used, proofs, suffix) ==>
      forall s :: ReadsAlong(records, s, ops, selected) ==> errors == {} && ReadsAlong(records, s, ops', selected)
  {
    var probed, parsed;
    errors, probed, parsed, cursor' := ParseOperation(records, cursor);
    used', proofs', ops' := used, proofs, ops;
    ghost var found := errors;
    if probed.Some? {
      if probed !in selected || probed in used {
        errors := errors + {ProbeNotSelected};
      }
      used' := used + {probed};
    }
    going := parsed.Some?;
    if going {
      var op := parsed.value;
      if RoleOf(op) in proofs {
        errors := errors + {ResidencyRepeated};
      }
      proofs' := proofs[RoleOf(op) := OpProof(op, suffix)];
      ops' := ops + [op];
    }
    if |ops| < 2 && OpsRead(records, ops, cursor) && Booked(ops, selected, used, proofs, suffix) {
      AcceptedReads(records, cursor, selected, used, proofs, suffix, ops, found, parsed, cursor');
      if errors == {} {
        BookOne(ops, parsed.value, selected, used, proofs, suffix);
        ReadOne(records, ops, cursor, parsed.value, cursor');
      }
    }
  }

  lemma ReadOne(records: seq<Event>, ops: seq<Operation>, cursor: nat, op: Operation, end: nat)
    requires OpsRead(records, ops, cursor) && |ops| < 2 && OpOk(op) && OpAt(records, cursor, op, end)
    ensures OpsRead(records, ops + [op], end)
  {
    var longer := ops + [op];
    assert forall o <- longer :: o in ops || o == op;
    if |ops| == 1 {
      assert OpAt(records, 3, longer[0], cursor) && OpAt(records, cursor, longer[1], end);
    }
  }

  lemma AcceptedReads(records: seq<Event>, cursor: nat, selected: set<Option<Pair>>, used: set<Option<Pair>>,
                      proofs: map<Residency, AssetProof>, suffix: string, ops: seq<Operation>,
                      found: set<TraceError>, parsed: Option<Operation>, end: nat)
    requires |ops| < 2 && OpsRead(records, ops, cursor) && Booked(ops, selected, used, proofs, suffix)
    requires found == {} ==> parsed.Some? && OpAt(records, cursor, parsed.value, end)
    requires found != {} ==> NoOpAt(records, cursor)
    ensures forall s :: ReadsAlong(records, s, ops, selected) ==>
              && found == {} && ReadsAlong(records, s, ops + [parsed.value], selected)
              && Some(parsed.value.pair) in selected && Some(parsed.value.pair) !in used
              && RoleOf(parsed.value) !in proofs
  {
    forall s | ReadsAlong(records, s, ops, selected)
      ensures found == {} && ReadsAlong(records, s, ops + [parsed.value], selected)
      ensures Some(parsed.value.pair) in selected && Some(parsed.value.pair) !in used
      ensures RoleOf(parsed.value) !in proofs
    {
      NextOpOfSession(records, s, ops, cursor);
      var op := [s.op1, s.op2][|ops|];
      var e: nat :| OpAt(records, cursor, op, e);
      OpDeterministic(records, cursor, op, e, parsed.value, end);
      assert [s.op1, s.op2][..|ops| + 1] == [s.op1, s.op2][..|ops|] + [op];
      assert op.pair in {s.first, s.second};
      if |ops| == 1 {
        assert ops[0] == s.op1;
        assert s.op1.pair != s.op2.pair;
      }
    }
  }

  lemma SessionDeterministic(records: seq<Event>, s: Session, t: Session)
    requires Accepts(records, s) && Accepts(records, t)
    ensures s == t
  {
    var m1: nat, e1: nat :| Fits(records, s, m1, e1);
    var m2: nat, e2: nat :| Fits(records, t, m2, e2);
    OpDeterministic(records, 3, s.op1, m1, t.op1, m2);
    OpDeterministic(records, m1, s.op2, e1, t.op2, e2);
  }

  lemma UsedPairs(ops: seq<Operation>, used: set<Option<Pair>>, first: Pair, second: Pair)
    requires |ops| == 2 && used == (set op | op in ops :: Some(op.pair))
    ensures used == {Some(ops[0].pair), Some(ops[1].pair)}
    ensures used == {Some(first), Some(second)} <==> {ops[0].pair, ops[1].pair} == {first, second}
  {
  }

  /** Two booked operations that satisfy the final checks make a session. */
  lemma SessionRead(records: seq<Event>, ops: seq<Operation>, selected: set<Option<Pair>>, used: set<Option<Pair>>,
                    proofs: map<Residency, AssetProof>, suffix: string, cursor: nat) returns (s: Session)
    requires |records| >= 4 && records[0].AuthorizationGranted?
    requires records[1].ResourceSelected? && records[2].ResourceSelected? && records[1].pair != records[2].pair
    requires selected == {Some(records[1].pair), Some(records[2].pair)}
    requires |ops| == 2 && OpsRead(records, ops, cursor) && Booked(ops, selected, used, proofs, suffix)
    requires Finished(records, selected, used, proofs, cursor)
    ensures Accepts(records, s)
    ensures SessionProof(s, suffix) == LiveProof(proofs[Local], proofs[Cloud], |records|)
  {
    s := Session(records[1].pair, records[2].pair, ops[0], ops[1]);
    assert ops[0] in ops && ops[1] in ops;
    UsedPairs(ops, used, s.first, s.second);
    assert SessionOk(s);
    var mid: nat :| OpAt(records, 3, ops[0], mid) && OpAt(records, mid, ops[1], cursor);
    assert Fits(records, s, mid, cursor);
    FitsIsPrinted(records, s, mid, cursor);
  }

  /** The second operation of an accepted trace ends right before its last record. */
  lemma AcceptedEnds(records: seq<Event>, s: Session, cursor: nat)
    requires Accepts(records, s) && OpsRead(records, [s.op1, s.op2], cursor)
    ensures |records| == cursor + 1 && records[cursor].SessionCompleted?
  {
  }

  lemma BothRoles(ops: seq<Operation>)
    requires |ops| == 2 && RoleOf(ops[0]) != RoleOf(ops[1])
    ensures (set op | op in ops :: RoleOf(op)) == {Local, Cloud}
  {
  }

  /** An accepted trace, read to the end, passes the final checks. */
  lemma AcceptedFinishes(records: seq<Event>, s: Session, ops: seq<Operation>, selected: set<Option<Pair>>,
                         used: set<Option<Pair>>, proofs: map<Residency, AssetProof>, suffix: string, cursor: nat)
    requires ReadsAlong(records, s, ops, selected) && |ops| == 2
    requires OpsRead(records, ops, cursor) && Booked(ops, selected, used, proofs, suffix)
    ensures Finished(records, selected, used, proofs, cursor)
  {
    assert ops == [s.op1, s.op2];
    AcceptedEnds(records, s, cursor);
    UsedPairs(ops, used, s.first, s.second);
    BothRoles(ops);
  }

  /** A trace is a session exactly when it is the printing of an acceptable one. */
  lemma AcceptsIffPrinted(records: seq<Event>, s: Session)
    ensures Accepts(records, s) <==> SessionOk(s) && records == Print(s)
  {
    if Accepts(records, s) {
      var mid: nat, end: nat :| Fits(records, s, mid, end);
      FitsIsPrinted(records, s, mid, end);
    }
    PrintedFits(s);
  }

  /**
   The recogniser accepts exactly the valid records that print an acceptable session
   of the inspected executable, and returns the proofs of that session.
   */
  method ValidateLiveRecords(records: seq<Event>, executableMatches: bool, suffix: string)
    returns (proof: Option<LiveProof>, errors: set<TraceError>)
    ensures proof.Some? <==> errors == {}
    ensures proof.Some? ==> AllValid(records) && executableMatches && exists s :: SessionOk(s) && records == Print(s)
    ensures proof.Some? ==> ProofMatches(proof.value, records, suffix)
    ensures forall s :: AllValid(records) && executableMatches && SessionOk(s) && records == Print(s) ==>
              proof == Some(SessionProof(s, suffix))
  {
    if !AllValid(records) {
      return None, {InvalidRecord};
    }
    var found, selected := CheckOpening(records);
    errors := (if executableMatches then {} else {WrongExecutable}) + found;
    var cursor, used, proofs := 3, {}, map[];
    ghost var ops: seq<Operation> := [];
    var n, going := 0, true;
    while n < 2 && going
      invariant 0 <= n <= 2
      invariant errors == {} ==> executableMatches && found == {} && going && |ops| == n
      invariant errors == {} ==> OpsRead(records, ops, cursor) && Booked(ops, selected, used, proofs, suffix)
      invariant forall s :: executableMatches && Accepts(records, s) ==>
                errors == {} && ReadsAlong(records, s, ops, selected)
    {
      var more;
      more, going, cursor, used, proofs, ops := ReadOperation(records, cursor, selected, used, proofs, suffix, ops);
      errors := errors + more;
      n := n + 1;
    }
    forall s | errors == {} && ReadsAlong(records, s, ops, selected)
      ensures Finished(records, selected, used, proofs, cursor)
    {
      AcceptedFinishes(records, s, ops, selected, used, proofs, suffix, cursor);
    }
    var last := CheckEnd(records, selected, used, proofs, cursor);
    errors := errors + last;
    forall s
      ensures Accepts(records, s) <==> SessionOk(s) && records == Print(s)
    {
      AcceptsIffPrinted(records, s);
    }
    if errors != {} {
      return None, errors;
    }
    ghost var session := SessionRead(records, ops, selected, used, proofs, suffix, cursor);
    forall s | Accepts(records, s)
      ensures s == session
    {
      SessionDeterministic(records, s, session);
    }
    SessionProofMatches(session, suffix);
    return Some(LiveProof(proofs[Local], proofs[Cloud], |records|)), {};
  }
}
