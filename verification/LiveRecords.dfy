/**
 The records a native trace is made of, before they are known to be events: which are
 approved, and that the approved ones are exactly the printed forms of valid events.
 */
module LiveRecords {
  import opened Wrappers
  import opened LiveTrace

  /** The approved field names, and any other. */
  datatype Field =
    | SchemaVersion
    | Scenario
    | ChallengeNonce
    | Sequence
    | EventName
    | AssetAlias
    | ResourceAlias
    | NetworkAllowed
    | ProgressPermille
    | ByteCount
    | CallbackCount
    | ResidencyName
    | Outcome
    | Unapproved(name: string)

  /** A value of a record; integers and booleans are different types. */
  datatype Value = Int(n: int) | Text(s: string) | Flag(b: bool) | Other

  type Record = map<Field, Value>

  const SCENARIO := "p00_photokit_native_live"

  const COMMON: set<Field> := {SchemaVersion, Scenario, ChallengeNonce, Sequence, EventName}

  // ----- the events by name

  datatype Name = Authorized | Selected | Probed | NeedsNetwork | Retried | Progressed | Completed | Ended

  function Spelling(name: Name): string {
    match name
    case Authorized => "authorization_granted"
    case Selected => "resource_selected"
    case Probed => "probe_started"
    case NeedsNetwork => "probe_network_required"
    case Retried => "retry_started"
    case Progressed => "transfer_progress"
    case Completed => "asset_completed"
    case Ended => "session_completed"
  }

  /** The event a spelling names, if it is approved. */
  function NameOf(s: string): Option<Name> {
    if s == Spelling(Authorized) then Some(Authorized)
    else if s == Spelling(Selected) then Some(Selected)
    else if s == Spelling(Probed) then Some(Probed)
    else if s == Spelling(NeedsNetwork) then Some(NeedsNetwork)
    else if s == Spelling(Retried) then Some(Retried)
    else if s == Spelling(Progressed) then Some(Progressed)
    else if s == Spelling(Completed) then Some(Completed)
    else if s == Spelling(Ended) then Some(Ended)
    else None
  }

  lemma NamesDistinct(name: Name)
    ensures NameOf(Spelling(name)) == Some(name)
  {
    assert |Spelling(Selected)| == |Spelling(Progressed)| == |Spelling(Ended)| == 17;
    assert Spelling(Selected)[0] == 'r' && Spelling(Progressed)[0] == 't' && Spelling(Ended)[0] == 's';
    assert Spelling(Probed)[0] == 'p' && Spelling(Retried)[0] == 'r';
  }

  lemma NameSpelled(s: string)
    ensures NameOf(s).Some? ==> Spelling(NameOf(s).value) == s
  {
  }

  datatype Expected = AnyText | AnyInt | Exactly(value: Value)

  /** What an event carries beside the common fields. */
  function Oracle(name: Name): map<Field, Expected> {
    var pair := map[AssetAlias := AnyText, ResourceAlias := AnyText];
    match name
    case Authorized => map[]
    case Selected => pair
    case Probed => pair[NetworkAllowed := Exactly(Flag(false))]
    case NeedsNetwork => pair[NetworkAllowed := Exactly(Flag(false))]
    case Retried => pair[NetworkAllowed := Exactly(Flag(true))]
    case Progressed => pair[ProgressPermille := AnyInt]
    case Completed =>
      pair[ByteCount := AnyInt][CallbackCount := AnyInt][ResidencyName := AnyText][Outcome := Exactly(Text("pass"))]
    case Ended => map[Outcome := Exactly(Text("pass"))]
  }

  predicate Meets(actual: Value, expected: Expected) {
    match expected
    case AnyText => actual.Text?
    case AnyInt => actual.Int?
    case Exactly(value) => actual == value
  }

  // ----- one record

  predicate Approved(r: Record) {
    EventName in r && r[EventName].Text? && NameOf(r[EventName].s).Some?
  }

  predicate CommonOk(r: Record, nonce: string, offset: nat) {
    && SchemaVersion in r && r[SchemaVersion] == Int(1)
    && Scenario in r && r[Scenario] == Text(SCENARIO)
    && ChallengeNonce in r && r[ChallengeNonce] == Text(nonce)
    && Sequence in r && r[Sequence] == Int(offset)
  }

  predicate AliasOk(r: Record, field: Field) {
    field in r && r[field].Text? && IsAlias(r[field].s)
  }

  /** All checks of one record. */
  predicate RecordOk(r: Record, nonce: string, offset: nat) {
    && Approved(r)
    && var name := NameOf(r[EventName].s).value;
       r.Keys == COMMON + Oracle(name).Keys && CommonOk(r, nonce, offset) && PayloadOk(r, name)
  }

  /** The checks of what an event carries beside the common fields. */
  predicate PayloadOk(r: Record, name: Name) {
    && (forall field <- Oracle(name) :: field in r && Meets(r[field], Oracle(name)[field]))
    && (AssetAlias in Oracle(name) ==> AliasOk(r, AssetAlias))
    && (ResourceAlias in Oracle(name) ==> AliasOk(r, ResourceAlias))
    && (name.Progressed? ==>
          ProgressPermille in r && r[ProgressPermille].Int? && 0 <= r[ProgressPermille].n <= 1000)
  }

  datatype RecordError =
    | NotApproved
    | FieldsNotExact(offset: nat)
    | FieldInvalid(offset: nat, field: Field)
    | ProgressOutOfBounds(offset: nat)

  function Get(r: Record, field: Field): Option<Value> {
    if field in r then Some(r[field]) else None
  }

  method CheckFields(r: Record, expected: map<Field, Expected>, offset: nat) returns (errors: set<RecordError>)
    ensures errors == {} <==> forall field <- expected :: field in r && Meets(r[field], expected[field])
  {
    errors := {};
    var rest := expected.Keys;
    while rest != {}
      invariant rest <= expected.Keys
      invariant errors == {} <==>
                forall field <- expected.Keys - rest :: field in r && Meets(r[field], expected[field])
      decreases rest
    {
      var field :| field in rest;
      if field !in r || !Meets(r[field], expected[field]) {
        errors := errors + {FieldInvalid(offset, field)};
      }
      rest := rest - {field};
    }
  }

  /** The body of the record loop: no error exactly when every check passes. */
  method CheckRecord(r: Record, nonce: string, offset: nat) returns (errors: set<RecordError>)
    ensures errors == {} <==> RecordOk(r, nonce, offset)
  {
    if !Approved(r) {
      return {NotApproved};
    }
    var name := NameOf(r[EventName].s).value;
    errors := {};
    if r.Keys != COMMON + Oracle(name).Keys {
      errors := errors + {FieldsNotExact(offset)};
    }
    var common := map[SchemaVersion := Exactly(Int(1)), Scenario := Exactly(Text(SCENARIO)),
                      ChallengeNonce := Exactly(Text(nonce)), Sequence := Exactly(Int(offset))];
    var found := CheckFields(r, common, offset);
    assert found == {} <==> CommonOk(r, nonce, offset) by {
      assert forall field :: field in common <==> field in {SchemaVersion, Scenario, ChallengeNonce, Sequence};
    }
    errors := errors + found;
    found := CheckFields(r, Oracle(name), offset);
    errors := errors + found;
    if AssetAlias in Oracle(name) && !AliasOk(r, AssetAlias) {
      errors := errors + {FieldInvalid(offset, AssetAlias)};
    }
    if ResourceAlias in Oracle(name) && !AliasOk(r, ResourceAlias) {
      errors := errors + {FieldInvalid(offset, ResourceAlias)};
    }
    if name.Progressed? {
      var progress := Get(r, ProgressPermille);
      if progress.None? || !progress.value.Int? || !(0 <= progress.value.n <= 1000) {
        errors := errors + {ProgressOutOfBounds(offset)};
      }
    }
  }

  /** What a record that passes must say, field by field, in its own words. */
  predicate Literal(r: Record, nonce: string, offset: nat) {
    && Get(r, SchemaVersion) == Some(Int(1)) && Get(r, Scenario) == Some(Text("p00_photokit_native_live"))
    && Get(r, ChallengeNonce) == Some(Text(nonce)) && Get(r, Sequence) == Some(Int(offset))
    && (Named(r, "probe_started") || Named(r, "probe_network_required") ==>
          Get(r, NetworkAllowed) == Some(Flag(false)))
    && (Named(r, "retry_started") ==> Get(r, NetworkAllowed) == Some(Flag(true)))
    && (Named(r, "transfer_progress") ==>
          exists n :: Get(r, ProgressPermille) == Some(Int(n)) && 0 <= n <= 1000)
    && (Named(r, "asset_completed") || Named(r, "session_completed") ==> Get(r, Outcome) == Some(Text("pass")))
    && (Named(r, "resource_selected") || Named(r, "asset_completed") ==>
          AliasOk(r, AssetAlias) && AliasOk(r, ResourceAlias))
    && forall field <- r :: !field.Unapproved?
  }

  predicate Named(r: Record, name: string) {
    Get(r, EventName) == Some(Text(name))
  }

  /** The spellings are told apart. */
  lemma NamedIff(r: Record, name: Name)
    requires Named(r, Spelling(name))
    ensures Named(r, "authorization_granted") <==> name.Authorized?
    ensures Named(r, "resource_selected") <==> name.Selected?
    ensures Named(r, "probe_started") <==> name.Probed?
    ensures Named(r, "probe_network_required") <==> name.NeedsNetwork?
    ensures Named(r, "retry_started") <==> name.Retried?
    ensures Named(r, "transfer_progress") <==> name.Progressed?
    ensures Named(r, "asset_completed") <==> name.Completed?
    ensures Named(r, "session_completed") <==> name.Ended?
  {
    NamesDistinct(name);
    NamesDistinct(Authorized);
    NamesDistinct(Selected);
    NamesDistinct(Probed);
    NamesDistinct(NeedsNetwork);
    NamesDistinct(Retried);
    NamesDistinct(Progressed);
    NamesDistinct(Completed);
    NamesDistinct(Ended);
  }

  lemma OkIsLiteral(r: Record, nonce: string, offset: nat)
    requires RecordOk(r, nonce, offset)
    ensures Literal(r, nonce, offset)
  {
    var name := NameOf(r[EventName].s).value;
    NameSpelled(r[EventName].s);
    NamedIff(r, name);
    LiteralPayload(r, name);
  }

  lemma LiteralPayload(r: Record, name: Name)
    requires PayloadOk(r, name)
    ensures name.Probed? || name.NeedsNetwork? ==> Get(r, NetworkAllowed) == Some(Flag(false))
    ensures name.Retried? ==> Get(r, NetworkAllowed) == Some(Flag(true))
    ensures name.Completed? || name.Ended? ==> Get(r, Outcome) == Some(Text("pass"))
    ensures name.Selected? || name.Completed? ==> AliasOk(r, AssetAlias) && AliasOk(r, ResourceAlias)
  {
    assert name.Probed? || name.NeedsNetwork? || name.Retried? ==> NetworkAllowed in Oracle(name);
    assert name.Completed? || name.Ended? ==> Outcome in Oracle(name);
  }

  // ----- records and events

  function Common(name: Name, nonce: string, offset: nat): Record {
    map[SchemaVersion := Int(1), Scenario := Text(SCENARIO), ChallengeNonce := Text(nonce),
        Sequence := Int(offset), EventName := Text(Spelling(name))]
  }

  function PairFields(pair: Pair): Record {
    map[AssetAlias := Text(pair.asset), ResourceAlias := Text(pair.resource)]
  }

  function ResidencySpelling(r: Residency): string {
    match r
    case Local => "local"
    case Cloud => "cloud"
    case OtherResidency(name) => name
  }

  function ResidencyOf(s: string): Residency {
    if s == "local" then Local else if s == "cloud" then Cloud else OtherResidency(s)
  }

  function NameOfEvent(e: Event): Name {
    match e
    case AuthorizationGranted => Authorized
    case ResourceSelected(_) => Selected
    case ProbeStarted(_) => Probed
    case ProbeNetworkRequired(_) => NeedsNetwork
    case RetryStarted(_) => Retried
    case TransferProgress(_, _) => Progressed
    case AssetCompleted(_, _, _, _) => Completed
    case SessionCompleted => Ended
  }

  /** What an event carries beside the common fields. */
  function Payload(e: Event): Record {
    match e
    case AuthorizationGranted => map[]
    case ResourceSelected(pair) => PairFields(pair)
    case ProbeStarted(pair) => PairFields(pair)[NetworkAllowed := Flag(false)]
    case ProbeNetworkRequired(pair) => PairFields(pair)[NetworkAllowed := Flag(false)]
    case RetryStarted(pair) => PairFields(pair)[NetworkAllowed := Flag(true)]
    case TransferProgress(pair, permille) => PairFields(pair)[ProgressPermille := Int(permille)]
    case AssetCompleted(pair, bytes, callbacks, residency) =>
      PairFields(pair)[ByteCount := Int(bytes)][CallbackCount := Int(callbacks)]
      [ResidencyName := Text(ResidencySpelling(residency))][Outcome := Text("pass")]
    case SessionCompleted => map[Outcome := Text("pass")]
  }

  /** The record of an event. */
  function PrintRecord(e: Event, nonce: string, offset: nat): Record {
    Common(NameOfEvent(e), nonce, offset) + Payload(e)
  }

  function TextAt(r: Record, field: Field): string {
    if field in r && r[field].Text? then r[field].s else ""
  }

  function IntAt(r: Record, field: Field): int {
    if field in r && r[field].Int? then r[field].n else 0
  }

  /** The event of this name with the fields of a record. */
  function EventNamed(name: Name, r: Record): Event {
    var pair := Pair(TextAt(r, AssetAlias), TextAt(r, ResourceAlias));
    match name
    case Authorized => AuthorizationGranted
    case Selected => ResourceSelected(pair)
    case Probed => ProbeStarted(pair)
    case NeedsNetwork => ProbeNetworkRequired(pair)
    case Retried => RetryStarted(pair)
    case Progressed => TransferProgress(pair, IntAt(r, ProgressPermille))
    case Completed =>
      AssetCompleted(pair, IntAt(r, ByteCount), IntAt(r, CallbackCount), ResidencyOf(TextAt(r, ResidencyName)))
    case Ended => SessionCompleted
  }

  /** The event an approved record stands for. */
  function EventOf(r: Record): Event
    requires Approved(r)
  {
    EventNamed(NameOf(r[EventName].s).value, r)
  }

  lemma ResidencyRoundTrip(s: string)
    ensures ResidencySpelling(ResidencyOf(s)) == s
    ensures ResidencyOf("local") == Local && ResidencyOf("cloud") == Cloud
  {
    assert "local"[0] != "cloud"[0];
  }

  lemma PayloadKeys(e: Event)
    ensures Payload(e).Keys == Oracle(NameOfEvent(e)).Keys && Payload(e).Keys !! COMMON
  {
  }

  /** Records that agree on what an event carries pass the same checks and are the same event. */
  predicate AgreeOn(a: Record, b: Record, name: Name) {
    forall field <- Oracle(name) :: field in a && field in b && a[field] == b[field]
  }

  lemma PayloadLocal(a: Record, b: Record, name: Name)
    requires AgreeOn(a, b, name)
    ensures PayloadOk(a, name) <==> PayloadOk(b, name)
    ensures EventNamed(name, a) == EventNamed(name, b)
  {
    match name
    case Authorized =>
    case Ended =>
    case Progressed =>
      assert ProgressPermille in Oracle(name) && AssetAlias in Oracle(name) && ResourceAlias in Oracle(name);
    case Completed =>
      assert AssetAlias in Oracle(name) && ResourceAlias in Oracle(name);
      assert ByteCount in Oracle(name) && CallbackCount in Oracle(name) && ResidencyName in Oracle(name);
    case _ => assert AssetAlias in Oracle(name) && ResourceAlias in Oracle(name);
  }

  lemma PayloadPasses(e: Event)
    requires RecordValid(e)
    ensures PayloadOk(Payload(e), NameOfEvent(e)) && EventNamed(NameOfEvent(e), Payload(e)) == e
  {
    ResidencyRoundTrip("local");
  }

  /** The printed form of a valid event passes every check and is read back. */
  lemma PrintedIsOk(e: Event, nonce: string, offset: nat)
    requires RecordValid(e)
    ensures RecordOk(PrintRecord(e, nonce, offset), nonce, offset)
    ensures EventOf(PrintRecord(e, nonce, offset)) == e
  {
    var r, name := PrintRecord(e, nonce, offset), NameOfEvent(e);
    NamesDistinct(name);
    PayloadKeys(e);
    PayloadPasses(e);
    PayloadLocal(r, Payload(e), name);
    assert Common(name, nonce, offset).Keys == COMMON;
  }

  lemma PayloadReadBack(r: Record, name: Name)
    requires PayloadOk(r, name)
    ensures RecordValid(EventNamed(name, r)) && AgreeOn(r, Payload(EventNamed(name, r)), name)
  {
    ResidencyRoundTrip(TextAt(r, ResidencyName));
    match name
    case Authorized =>
    case Selected =>
    case Probed => assert NetworkAllowed in Oracle(name);
    case NeedsNetwork => assert NetworkAllowed in Oracle(name);
    case Retried => assert NetworkAllowed in Oracle(name);
    case Progressed =>
    case Completed =>
      assert ByteCount in Oracle(name) && CallbackCount in Oracle(name);
      assert ResidencyName in Oracle(name) && Outcome in Oracle(name);
    case Ended => assert Outcome in Oracle(name);
  }

  lemma CommonReadBack(r: Record, name: Name, nonce: string, offset: nat)
    requires CommonOk(r, nonce, offset) && EventName in r && r[EventName] == Text(Spelling(name))
    ensures Common(name, nonce, offset).Keys == COMMON
    ensures forall field <- COMMON :: field in r && r[field] == Common(name, nonce, offset)[field]
  {
  }

  lemma NamedHasName(name: Name, r: Record)
    ensures NameOfEvent(EventNamed(name, r)) == name
  {
  }

  /** A record that passes every check is the printed form of the event it stands for. */
  lemma OkIsPrinted(r: Record, nonce: string, offset: nat)
    requires RecordOk(r, nonce, offset)
    ensures RecordValid(EventOf(r)) && r == PrintRecord(EventOf(r), nonce, offset)
  {
    var name := NameOf(r[EventName].s).value;
    NameSpelled(r[EventName].s);
    OkIsPrintedAs(r, name, nonce, offset);
  }

  lemma OkIsPrintedAs(r: Record, name: Name, nonce: string, offset: nat)
    requires r.Keys == COMMON + Oracle(name).Keys && CommonOk(r, nonce, offset) && PayloadOk(r, name)
    requires EventName in r && r[EventName] == Text(Spelling(name))
    ensures RecordValid(EventNamed(name, r)) && r == PrintRecord(EventNamed(name, r), nonce, offset)
  {
    var e := EventNamed(name, r);
    PayloadReadBack(r, name);
    NamedHasName(name, r);
    PayloadKeys(e);
    CommonReadBack(r, name, nonce, offset);
    SameFields(r, Common(name, nonce, offset), Payload(e));
  }

  lemma SameFields(r: Record, a: Record, b: Record)
    requires r.Keys == a.Keys + b.Keys
    requires forall field <- b :: field in r && r[field] == b[field]
    requires forall field <- a :: field in r && r[field] == a[field]
    ensures r == a + b
  {
  }

  /** One record read: the valid event it is the printed form of, if there is one. */
  method ReadRecord(r: Record, nonce: string, offset: nat) returns (errors: set<RecordError>, event: Option<Event>)
    ensures errors == {} <==> event.Some?
    ensures event.Some? ==> RecordValid(event.value) && r == PrintRecord(event.value, nonce, offset)
    ensures event.None? ==> !Printed(r, nonce, offset)
  {
    errors := CheckRecord(r, nonce, offset);
    if errors == {} {
      OkIsPrinted(r, nonce, offset);
      event := Some(EventOf(r));
    } else {
      forall e | RecordValid(e)
        ensures r != PrintRecord(e, nonce, offset)
      {
        PrintedIsOk(e, nonce, offset);
      }
      event := None;
    }
  }

  ghost predicate Printed(r: Record, nonce: string, offset: nat) {
    exists e :: RecordValid(e) && r == PrintRecord(e, nonce, offset)
  }

  // ----- the whole trace

  function PrintTrace(events: seq<Event>, nonce: string): seq<Record> {
    seq(|events|, i requires 0 <= i < |events| => PrintRecord(events[i], nonce, i + 1))
  }

  /** The record loop: the events the records print, or errors exactly when they print none. */
  method ReadRecords(records: seq<Record>, nonce: string) returns (errors: set<RecordError>, events: seq<Event>)
    ensures errors == {} ==> AllValid(events) && records == PrintTrace(events, nonce)
    ensures errors != {} ==> forall other :: AllValid(other) ==> records != PrintTrace(other, nonce)
  {
    errors, events := {}, [];
    var i := 0;
    while i < |records|
      invariant 0 <= i <= |records|
      invariant errors == {} ==> |events| == i && AllValid(events)
      invariant errors == {} ==> forall j :: 0 <= j < i ==> records[j] == PrintRecord(events[j], nonce, j + 1)
      invariant errors != {} ==> exists j :: 0 <= j < i && !Printed(records[j], nonce, j + 1)
    {
      var found, event := ReadRecord(records[i], nonce, i + 1);
      errors := errors + found;
      if event.Some? {
        events := events + [event.value];
      }
      i := i + 1;
    }
    forall other | errors != {} && AllValid(other)
      ensures records != PrintTrace(other, nonce)
    {
      var j :| 0 <= j < |records| && !Printed(records[j], nonce, j + 1);
      if j < |other| {
        assert other[j] in other && PrintTrace(other, nonce)[j] == PrintRecord(other[j], nonce, j + 1);
      }
    }
  }

  lemma PrintInjective(a: Event, b: Event, nonce: string, offset: nat)
    requires RecordValid(a) && RecordValid(b) && PrintRecord(a, nonce, offset) == PrintRecord(b, nonce, offset)
    ensures a == b
  {
    PrintedIsOk(a, nonce, offset);
    PrintedIsOk(b, nonce, offset);
  }

  /** A completion record and the proof that repeats it, in the record's own fields. */
  predicate RecordCertified(r: Record, proof: LiveProof, suffix: string) {
    && Get(r, ResidencyName) in {Some(Text("local")), Some(Text("cloud"))}
    && var p := if Get(r, ResidencyName) == Some(Text("local")) then proof.local else proof.cloud;
       && Get(r, AssetAlias) == Some(Text(p.asset)) && Get(r, ResourceAlias) == Some(Text(p.resource))
       && Get(r, ByteCount) == Some(Int(p.byteCount)) && Get(r, CallbackCount) == Some(Int(p.callbacks))
       && p.outputName == p.resource + suffix
  }

  lemma CompletionRecord(e: Event, nonce: string, offset: nat, proof: LiveProof, suffix: string)
    requires e.AssetCompleted? && (e.residency.Local? || e.residency.Cloud?)
    requires Certifies(if e.residency.Local? then proof.local else proof.cloud, e, suffix)
    ensures RecordCertified(PrintRecord(e, nonce, offset), proof, suffix)
  {
    assert "local"[0] != "cloud"[0];
  }

  /** The names of the records, as they are spelled. */
  function OpNames(op: Operation): seq<string> {
    match op
    case LocalOp(_, _) => ["probe_started", "asset_completed"]
    case CloudOp(_, progress, _, _) =>
      ["probe_started", "probe_network_required", "retry_started"] + seq(|progress|, _ => "transfer_progress") +
      ["asset_completed"]
  }

  function SessionNames(s: Session): seq<string> {
    ["authorization_granted", "resource_selected", "resource_selected"] + OpNames(s.op1) + OpNames(s.op2) +
    ["session_completed"]
  }

  function Spellings(events: seq<Event>): seq<string> {
    seq(|events|, i requires 0 <= i < |events| => Spelling(NameOfEvent(events[i])))
  }

  lemma SpellingsJoin(a: seq<Event>, b: seq<Event>)
    ensures Spellings(a + b) == Spellings(a) + Spellings(b)
  {
  }

  lemma OpSpelled(op: Operation)
    ensures Spellings(PrintOp(op)) == OpNames(op)
  {
  }

  lemma SessionSpelled(s: Session)
    ensures Spellings(Print(s)) == SessionNames(s)
  {
    var head := [AuthorizationGranted, ResourceSelected(s.first), ResourceSelected(s.second)];
    OpSpelled(s.op1);
    OpSpelled(s.op2);
    SpellingsJoin(head, PrintOp(s.op1));
    SpellingsJoin(head + PrintOp(s.op1), PrintOp(s.op2));
    SpellingsJoin(head + PrintOp(s.op1) + PrintOp(s.op2), [SessionCompleted]);
  }

  /** The records carry these names in this order, and each says literally what it must. */
  predicate Spelled(records: seq<Record>, nonce: string, names: seq<string>) {
    && |records| == |names|
    && forall i :: 0 <= i < |records| ==> SpelledAs(records[i], nonce, i + 1, names[i])
  }

  predicate SpelledAs(r: Record, nonce: string, offset: nat, name: string) {
    Named(r, name) && Literal(r, nonce, offset)
  }

  lemma SpelledAt(events: seq<Event>, nonce: string, i: nat)
    requires i < |events| && RecordValid(events[i])
    ensures SpelledAs(PrintTrace(events, nonce)[i], nonce, i + 1, Spellings(events)[i])
  {
    RecordSpelled(events[i], nonce, i + 1);
    var r, name := PrintTrace(events, nonce)[i], Spellings(events)[i];
    assert r == PrintRecord(events[i], nonce, i + 1) && name == Spelling(NameOfEvent(events[i]));
  }

  lemma EventsSpelled(events: seq<Event>, nonce: string)
    requires AllValid(events)
    ensures Spelled(PrintTrace(events, nonce), nonce, Spellings(events))
  {
    forall i | 0 <= i < |events|
      ensures SpelledAs(PrintTrace(events, nonce)[i], nonce, i + 1, Spellings(events)[i])
    {
      assert events[i] in events;
      SpelledAt(events, nonce, i);
    }
  }

  lemma TraceSpelled(s: Session, records: seq<Record>, nonce: string)
    requires PrintsSession(records, nonce, s)
    ensures Spelled(records, nonce, SessionNames(s))
  {
    SessionSpelled(s);
    EventsSpelled(Print(s), nonce);
  }

  lemma RecordSpelled(e: Event, nonce: string, offset: nat)
    requires RecordValid(e)
    ensures SpelledAs(PrintRecord(e, nonce, offset), nonce, offset, Spelling(NameOfEvent(e)))
  {
    PrintedIsOk(e, nonce, offset);
    OkIsLiteral(PrintRecord(e, nonce, offset), nonce, offset);
    PrintedName(e, nonce, offset);
  }

  lemma PrintedName(e: Event, nonce: string, offset: nat)
    ensures Named(PrintRecord(e, nonce, offset), Spelling(NameOfEvent(e)))
  {
    PayloadKeys(e);
  }

  lemma EventsCertified(events: seq<Event>, records: seq<Record>, nonce: string, proof: LiveProof, suffix: string)
    requires records == PrintTrace(events, nonce) && ProofMatches(proof, events, suffix)
    ensures forall r <- records :: Named(r, "asset_completed") ==> RecordCertified(r, proof, suffix)
  {
    forall i | 0 <= i < |records| && Named(records[i], "asset_completed")
      ensures RecordCertified(records[i], proof, suffix)
    {
      assert events[i] in events && records[i] == PrintRecord(events[i], nonce, i + 1);
      EventCertified(events[i], events, nonce, i + 1, proof, suffix);
    }
  }

  /** The proof repeats every completion record. */
  lemma RecordsCertified(s: Session, records: seq<Record>, nonce: string, suffix: string)
    requires PrintsSession(records, nonce, s)
    ensures forall r <- records :: Named(r, "asset_completed") ==> RecordCertified(r, SessionProof(s, suffix), suffix)
  {
    SessionProofMatches(s, suffix);
    EventsCertified(Print(s), records, nonce, SessionProof(s, suffix), suffix);
  }

  lemma EventCertified(e: Event, events: seq<Event>, nonce: string, offset: nat, proof: LiveProof, suffix: string)
    requires e in events && ProofMatches(proof, events, suffix)
    requires Named(PrintRecord(e, nonce, offset), "asset_completed")
    ensures RecordCertified(PrintRecord(e, nonce, offset), proof, suffix)
  {
    PrintedName(e, nonce, offset);
    NamedIff(PrintRecord(e, nonce, offset), NameOfEvent(e));
    CompletionRecord(e, nonce, offset, proof, suffix);
  }

  /** Different traces of valid events print differently. */
  lemma PrintTraceInjective(a: seq<Event>, b: seq<Event>, nonce: string)
    requires AllValid(a) && AllValid(b) && PrintTrace(a, nonce) == PrintTrace(b, nonce)
    ensures a == b
  {
    assert |a| == |PrintTrace(a, nonce)| == |b|;
    forall i | 0 <= i < |a|
      ensures a[i] == b[i]
    {
      assert a[i] in a && b[i] in b;
      assert PrintTrace(a, nonce)[i] == PrintTrace(b, nonce)[i];
      PrintInjective(a[i], b[i], nonce, i + 1);
    }
  }

  datatype Rejection = BadRecords(errors: set<RecordError>) | BadTrace(trace: set<TraceError>)

  /** The records print an acceptable session of valid events. */
  ghost predicate PrintsSession(records: seq<Record>, nonce: string, s: Session) {
    SessionOk(s) && AllValid(Print(s)) && records == PrintTrace(Print(s), nonce)
  }

  /**
   `validate_live_records` on the records as they come.  It returns a proof if and only if
   the records print an acceptable session with valid aliases and progress, under the
   challenge's nonce and numbered from one, and the executable is the inspected one; and
   then it is the proof of that session.
   */
  method ValidateRecords(records: seq<Record>, nonce: string, executableMatches: bool, suffix: string)
    returns (result: Result<LiveProof, Rejection>)
    ensures result.Ok? <==> executableMatches && exists s :: PrintsSession(records, nonce, s)
    ensures forall s :: executableMatches && PrintsSession(records, nonce, s) ==> result == Ok(SessionProof(s, suffix))
    ensures result.Ok? ==> exists s :: SessionOk(s) && Spelled(records, nonce, SessionNames(s))
    ensures result.Ok? ==> result.value.eventCount == |records|
    ensures result.Ok? ==>
              forall r <- records :: Named(r, "asset_completed") ==> RecordCertified(r, result.value, suffix)
  {
    var errors, events := ReadRecords(records, nonce);
    if errors != {} {
      return Err(BadRecords(errors));
    }
    forall s
      ensures PrintsSession(records, nonce, s) <==> SessionOk(s) && events == Print(s)
    {
      if PrintsSession(records, nonce, s) {
        PrintTraceInjective(events, Print(s), nonce);
      }
    }
    var proof, trace := ValidateLiveRecords(events, executableMatches, suffix);
    if proof.None? {
      return Err(BadTrace(trace));
    }
    ghost var s :| PrintsSession(records, nonce, s);
    TraceSpelled(s, records, nonce);
    RecordsCertified(s, records, nonce, suffix);
    return Ok(proof.value);
  }
}
