/**
 The generate, review, build, evaluate life of a work packet.

 A command reads the packet's state file, checks the files it depends on, runs external
 programs whose effects on the tree are parameters of the step, and writes the state
 back.  Between commands anybody may edit specifications, proposal, sources and
 evidence.  File contents stand for their SHA-256 hashes.
 */
module WorkPacket {
  import opened Wrappers

  type Content = string
  type RequirementId = string

  datatype Status = Generated | Rejected | Approved | BuildFailed | Built | EvaluationFailed | Evaluated

  datatype Review = Review(approve: bool, proposal: Content)

  datatype Build = Build(exitCode: int, source: Content)

  datatype Requirement = Requirement(id: RequirementId, evidenceRequired: bool)

  datatype Summary = Summary(featureDisabled: bool, claimsDeferred: bool, limitation: string, publishable: bool)

  datatype Evidence = Evidence(
    requirement: RequirementId, status: string, summary: Option<Summary>, test: string, recordedAt: string)

  /** What the evidence lookup of a requirement finds. */
  datatype EvidenceFile = Missing | Unsafe | Unreadable | Readable(evidence: Evidence)

  datatype EvidenceDir = EvidenceDir(atomicErrors: nat, files: map<RequirementId, EvidenceFile>)

  /** The accepted manifest: what was approved, built and evaluated. */
  datatype Manifest = Manifest(specs: Content, proposal: Content, source: Content, evidence: EvidenceDir)

  /** The state file of a packet and its accepted manifest. */
  datatype Packet = Packet(
    status: Status,
    frozenSpecs: Content,
    requirements: seq<Requirement>,
    review: Option<Review>,
    build: Option<Build>,
    manifest: Option<Manifest>)

  /** The files a packet depends on; `source` is the fingerprint of the whole tree. */
  datatype Tree = Tree(specs: Content, proposal: Content, source: Content, evidence: EvidenceDir)

  /** What a program or a person does to those files; a removed evidence file is written as missing. */
  datatype Effect = Effect(specs: Content, proposal: Content, source: Content, atomicErrors: nat,
                           written: map<RequirementId, EvidenceFile>)

  function Apply(t: Tree, e: Effect): Tree {
    Tree(e.specs, e.proposal, e.source, EvidenceDir(e.atomicErrors, t.evidence.files + e.written))
  }

  /** `clear_evidence_directory`. */
  function Cleared(t: Tree): Tree {
    t.(evidence := EvidenceDir(0, map[]))
  }

  // ----- evidence

  function FileOf(dir: EvidenceDir, id: RequirementId): EvidenceFile {
    if id in dir.files then dir.files[id] else Missing
  }

  predicate DeferredProperly(e: Evidence) {
    && e.summary.Some? && e.summary.value.featureDisabled && e.summary.value.claimsDeferred
    && e.summary.value.limitation != ""
  }

  /** Evidence for the right requirement that passed, or was deferred with the feature disabled. */
  predicate EvidenceValid(file: EvidenceFile, id: RequirementId) {
    && file.Readable?
    && file.evidence.requirement == id
    && (|| file.evidence.status == "pass"
        || (&& file.evidence.status == "deferred" && file.evidence.summary.Some?
            && file.evidence.summary.value.featureDisabled && file.evidence.summary.value.claimsDeferred
            && file.evidence.summary.value.limitation != ""))
    && file.evidence.test != "" && file.evidence.recordedAt != ""
  }

  predicate AllEvidenceValid(dir: EvidenceDir, requirements: seq<Requirement>) {
    && dir.atomicErrors == 0
    && forall r <- requirements :: r.evidenceRequired ==> EvidenceValid(FileOf(dir, r.id), r.id)
  }

  predicate Publishable(dir: EvidenceDir, requirements: seq<Requirement>) {
    forall r <- requirements :: r.evidenceRequired ==>
      var file := FileOf(dir, r.id);
      file.Readable? && file.evidence.summary.Some? && file.evidence.summary.value.publishable
  }

  datatype EvidenceError =
    | AtomicDirectory
    | UnsafeRecord(id: RequirementId)
    | MissingRecord(id: RequirementId)
    | UnreadableRecord(id: RequirementId)
    | RequirementMismatch(id: RequirementId)
    | BadStatus(id: RequirementId)
    | BadDeferral(id: RequirementId)
    | MissingField(id: RequirementId)

  method CheckRecord(file: EvidenceFile, id: RequirementId) returns (errors: seq<EvidenceError>)
    ensures errors == [] <==> EvidenceValid(file, id)
  {
    errors := [];
    match file {
      case Unsafe => return [UnsafeRecord(id)];
      case Missing => return [MissingRecord(id)];
      case Unreadable => return [UnreadableRecord(id)];
      case Readable(e) =>
        if e.requirement != id {
          errors := errors + [RequirementMismatch(id)];
        }
        if e.status != "pass" && e.status != "deferred" {
          errors := errors + [BadStatus(id)];
        }
        if e.status == "deferred" && !DeferredProperly(e) {
          errors := errors + [BadDeferral(id)];
        }
        if e.test == "" {
          errors := errors + [MissingField(id)];
        }
        if e.recordedAt == "" {
          errors := errors + [MissingField(id)];
        }
    }
  }

  /** `validate_evidence` reports nothing exactly when every required record is valid. */
  method ValidateEvidence(dir: EvidenceDir, requirements: seq<Requirement>) returns (errors: seq<EvidenceError>)
    ensures errors == [] <==> AllEvidenceValid(dir, requirements)
  {
    errors := seq(dir.atomicErrors, _ => AtomicDirectory);
    var i := 0;
    while i < |requirements|
      invariant 0 <= i <= |requirements|
      invariant errors == [] <==> AllEvidenceValid(dir, requirements[..i])
    {
      var r := requirements[i];
      assert requirements[..i + 1] == requirements[..i] + [r];
      if r.evidenceRequired {
        var found := CheckRecord(FileOf(dir, r.id), r.id);
        errors := errors + found;
      }
      i := i + 1;
    }
    assert requirements[..i] == requirements;
  }

  // ----- exit codes

  /** The sidecars that run: up to and including the first that does not return zero. */
  function Executed(codes: seq<int>): seq<int> {
    if codes == [] then [] else if codes[0] != 0 then [codes[0]] else [0] + Executed(codes[1..])
  }

  function MaxOf(first: int, rest: seq<int>): int
    decreases |rest|
  {
    if rest == [] then first else MaxOf(if rest[0] > first then rest[0] else first, rest[1..])
  }

  /** `max` over the main command and the sidecars, which run only after a zero main command. */
  function EvaluationExit(main: int, codes: seq<int>): int {
    if main == 0 then MaxOf(0, Executed(codes)) else MaxOf(main, [])
  }

  lemma {:induction false} MaxOfZero(rest: seq<int>)
    ensures MaxOf(0, rest) == 0 <==> forall c <- rest :: c <= 0
    decreases |rest|
  {
    if rest == [] {
    } else {
      if rest[0] > 0 {
        assert rest[0] in rest;
        MaxAtLeast(rest[0], rest[1..]);
      } else {
        MaxOfZero(rest[1..]);
        assert forall c <- rest :: c == rest[0] || c in rest[1..];
        assert forall c <- rest[1..] :: c in rest;
      }
    }
  }

  lemma {:induction false} MaxAtLeast(first: int, rest: seq<int>)
    ensures MaxOf(first, rest) >= first
    decreases |rest|
  {
    if rest == [] {
    } else {
      MaxAtLeast(if rest[0] > first then rest[0] else first, rest[1..]);
    }
  }

  lemma {:induction false} ExecutedShape(codes: seq<int>)
    ensures (forall c <- Executed(codes) :: c <= 0) <==> (forall c <- Executed(codes) :: c == 0) || NegativeStop(codes)
    ensures NegativeStop(codes) ==> exists c <- Executed(codes) :: c < 0
    ensures (forall c <- Executed(codes) :: c == 0) <==> (forall c <- codes :: c == 0)
  {
    if codes == [] {
    } else {
      assert codes[0] in codes && forall c <- codes :: c == codes[0] || c in codes[1..];
      assert forall c <- codes[1..] :: c in codes;
      if codes[0] == 0 {
        var tail := Executed(codes[1..]);
        ExecutedShape(codes[1..]);
        assert forall c <- Executed(codes) :: c == 0 || c in tail;
        assert forall c <- tail :: c in Executed(codes);
      } else {
        assert codes[0] in Executed(codes);
      }
    }
  }

  /** The first sidecar that did not return zero was ended by a signal. */
  predicate NegativeStop(codes: seq<int>) {
    codes != [] && (codes[0] < 0 || (codes[0] == 0 && NegativeStop(codes[1..])))
  }

  /**
   The combined code is zero exactly when the main command returned zero and every
   sidecar did too, or the first that did not was ended by a signal, which is reported
   as a negative code.
   */
  lemma ExitZeroIff(main: int, codes: seq<int>)
    ensures EvaluationExit(main, codes) == 0 <==>
            main == 0 && ((forall c <- codes :: c == 0) || NegativeStop(codes))
  {
    MaxOfZero(Executed(codes));
    ExecutedShape(codes);
  }

  /** After a zero main command the code is that of the first sidecar not to return zero, if it is positive. */
  lemma {:induction false} ExitIsFirstFailure(codes: seq<int>, n: nat)
    requires n <= |codes| && (forall i :: 0 <= i < n ==> codes[i] == 0) && (n < |codes| ==> codes[n] != 0)
    ensures EvaluationExit(0, codes) == if n < |codes| && codes[n] > 0 then codes[n] else 0
  {
    var ran := Executed(codes);
    if codes == [] {
    } else if n == 0 {
      var larger := if codes[0] > 0 then codes[0] else 0;
      assert ran == [codes[0]] && ran[1..] == [];
      assert MaxOf(0, ran) == MaxOf(larger, []) == larger;
    } else {
      ExitIsFirstFailure(codes[1..], n - 1);
      assert ran[0] == 0 && ran[1..] == Executed(codes[1..]);
    }
  }

  /** A sidecar killed by signal 9 leaves the combined code at zero. */
  lemma SignalDeathLooksLikeSuccess()
    ensures EvaluationExit(0, [0, -9]) == 0
  {
  }

  // ----- the commands

  predicate SpecsUnchanged(p: Packet, t: Tree) {
    t.specs == p.frozenSpecs
  }

  predicate ProposalAsReviewed(p: Packet, t: Tree) {
    p.review.Some? && t.proposal == p.review.value.proposal
  }

  predicate ReviewAllowed(p: Packet, t: Tree) {
    (p.status.Generated? || p.status.Rejected?) && SpecsUnchanged(p, t)
  }

  function AfterReview(p: Packet, t: Tree, approve: bool): Packet {
    p.(review := Some(Review(approve, t.proposal)), status := if approve then Approved else Rejected)
  }

  predicate PastReview(p: Packet) {
    p.status.Approved? || p.status.BuildFailed? || p.status.Built? || p.status.EvaluationFailed? || p.status.Evaluated?
  }

  predicate BuildAllowed(p: Packet, t: Tree) {
    PastReview(p) && SpecsUnchanged(p, t) && ProposalAsReviewed(p, t)
  }

  /** `after` is the tree the build command leaves. */
  function AfterBuild(p: Packet, exitCode: int, after: Tree): Packet {
    p.(manifest := None,
       build := Some(Build(exitCode, after.source)),
       status := if exitCode == 0 then Built else BuildFailed)
  }

  predicate EvaluateAllowed(p: Packet, t: Tree) {
    && (p.status.Built? || p.status.EvaluationFailed?)
    && SpecsUnchanged(p, t) && ProposalAsReviewed(p, t)
    && p.build.Some? && t.source == p.build.value.source
  }

  /** The evaluation programs succeeded, left the sources alone, and left acceptable evidence. */
  predicate Passes(p: Packet, exitCode: int, after: Tree) {
    && exitCode == 0
    && p.build.Some? && after.source == p.build.value.source
    && AllEvidenceValid(after.evidence, p.requirements)
    && Publishable(after.evidence, p.requirements)
  }

  function ManifestOf(p: Packet, evidence: EvidenceDir): Manifest
    requires p.review.Some? && p.build.Some?
  {
    Manifest(p.frozenSpecs, p.review.value.proposal, p.build.value.source, evidence)
  }

  function AfterEvaluate(p: Packet, exitCode: int, after: Tree): Packet
    requires p.review.Some?
  {
    if Passes(p, exitCode, after) then p.(manifest := Some(ManifestOf(p, after.evidence)), status := Evaluated)
    else p.(status := EvaluationFailed)
  }

  class WorkPacketFile {
    const frozenSpecs: Content
    const requirements: seq<Requirement>
    var status: Status
    var review: Option<Review>
    var build: Option<Build>
    var manifest: Option<Manifest>

    ghost function State(): Packet
      reads this
    {
      Packet(status, frozenSpecs, requirements, review, build, manifest)
    }

    constructor (specs: Content, requirements: seq<Requirement>)
      ensures State() == Packet(Generated, specs, requirements, None, None, None)
    {
      this.frozenSpecs := specs;
      this.requirements := requirements;
      status, review, build, manifest := Generated, None, None, None;
    }

    method ReviewCommand(tree: Tree, approve: bool) returns (ok: bool)
      modifies this
      ensures ok == ReviewAllowed(old(State()), tree)
      ensures ok <==> (old(status) == Generated || old(status) == Rejected) && tree.specs == frozenSpecs
      ensures ok ==> review == Some(Review(approve, tree.proposal)) && status == if approve then Approved else Rejected
      ensures build == old(build) && manifest == old(manifest)
      ensures !ok ==> review == old(review) && status == old(status)
      ensures State() == if ok then AfterReview(old(State()), tree, approve) else old(State())
    {
      if (status != Generated && status != Rejected) || tree.specs != frozenSpecs {
        return false;
      }
      review := Some(Review(approve, tree.proposal));
      status := if approve then Approved else Rejected;
      return true;
    }

    /**
     The evidence directory and the manifest are cleared before the build command runs;
     `effect` and `exitCode` are what that command does.
     */
    method BuildCommand(tree: Tree, exitCode: int, effect: Effect) returns (ran: bool, after: Tree)
      modifies this
      ensures ran == BuildAllowed(old(State()), tree)
      ensures ran <==>
              && old(status) in {Approved, BuildFailed, Built, EvaluationFailed, Evaluated}
              && tree.specs == frozenSpecs && old(review).Some? && tree.proposal == old(review).value.proposal
      ensures ran ==> manifest == None && build == Some(Build(exitCode, effect.source))
      ensures ran ==> status == (if exitCode == 0 then Built else BuildFailed) && review == old(review)
      ensures ran ==> after.evidence.files == effect.written && after.source == effect.source
      ensures after == if ran then Apply(Cleared(tree), effect) else tree
      ensures State() == if ran then AfterBuild(old(State()), exitCode, after) else old(State())
    {
      after := tree;
      if status == Generated || status == Rejected || tree.specs != frozenSpecs {
        return false, after;
      }
      if review.None? || tree.proposal != review.value.proposal {
        return false, after;
      }
      after := after.(evidence := EvidenceDir(0, map[]));
      manifest := None;
      after := Apply(after, effect);
      build := Some(Build(exitCode, after.source));
      status := if exitCode == 0 then Built else BuildFailed;
      return true, after;
    }

    method EvaluateCommand(tree: Tree, main: int, sidecars: seq<int>, effect: Effect) returns (ran: bool, after: Tree)
      modifies this
      ensures ran == EvaluateAllowed(old(State()), tree)
      ensures ran <==>
              && old(status) in {Built, EvaluationFailed}
              && tree.specs == frozenSpecs && old(review).Some? && tree.proposal == old(review).value.proposal
              && old(build).Some? && tree.source == old(build).value.source
      ensures ran ==> (status == Evaluated <==>
                         && main == 0 && ((forall c <- sidecars :: c == 0) || NegativeStop(sidecars))
                         && effect.source == tree.source
                         && AllEvidenceValid(after.evidence, requirements) && Publishable(after.evidence, requirements))
      ensures ran && status != Evaluated ==> status == EvaluationFailed && manifest == old(manifest)
      ensures ran && status == Evaluated ==>
                manifest == Some(Manifest(tree.specs, tree.proposal, tree.source, after.evidence))
      ensures ran ==> after.evidence.files == tree.evidence.files + effect.written
      ensures review == old(review) && build == old(build)
      ensures after == if ran then Apply(tree, effect) else tree
      ensures ran ==> old(State()).review.Some? &&
                      State() == AfterEvaluate(old(State()), EvaluationExit(main, sidecars), after)
      ensures !ran ==> State() == old(State())
    {
      after := tree;
      if (status != Built && status != EvaluationFailed) || tree.specs != frozenSpecs {
        return false, after;
      }
      if review.None? || tree.proposal != review.value.proposal {
        return false, after;
      }
      if build.None? || tree.source != build.value.source {
        return false, after;
      }
      var exitCode := RunPrograms(main, sidecars);
      ExitZeroIff(main, sidecars);
      after := Apply(tree, effect);
      var errors := ValidateEvidence(after.evidence, requirements);
      var failed := errors != [] || after.source != build.value.source;
      if exitCode == 0 && !failed {
        if Publishable(after.evidence, requirements) {
          manifest := Some(Manifest(frozenSpecs, review.value.proposal, build.value.source, after.evidence));
        } else {
          failed := true;
        }
      }
      status := if exitCode == 0 && !failed then Evaluated else EvaluationFailed;
      return true, after;
    }
  }

  /** The sidecar loop: stops after the first program that does not return zero. */
  method RunPrograms(main: int, sidecars: seq<int>) returns (exitCode: int)
    ensures exitCode == EvaluationExit(main, sidecars)
    ensures main != 0 ==> exitCode == main
  {
    exitCode := main;
    if main != 0 {
      return;
    }
    var i := 0;
    while i < |sidecars|
      invariant 0 <= i <= |sidecars| && exitCode == 0
      invariant EvaluationExit(main, sidecars) == MaxOf(0, Executed(sidecars[i..]))
    {
      assert sidecars[i..][1..] == sidecars[i + 1..];
      var rest := Executed(sidecars[i..]);
      if sidecars[i] != 0 {
        exitCode := if sidecars[i] > exitCode then sidecars[i] else exitCode;
        assert rest[1..] == [];
        return;
      }
      assert rest[1..] == Executed(sidecars[i + 1..]);
      i := i + 1;
    }
  }

  // ----- runs

  datatype World = World(packet: Packet, tree: Tree)

  datatype Action =
    | EditFiles(effect: Effect)
    | RunReview(approve: bool)
    | RunBuild(exitCode: int, effect: Effect)
    | RunEvaluate(main: int, sidecars: seq<int>, effect: Effect)

  /** The command gets past its guards. */
  predicate Runs(w: World, a: Action) {
    match a
    case EditFiles(_) => true
    case RunReview(_) => ReviewAllowed(w.packet, w.tree)
    case RunBuild(_, _) => BuildAllowed(w.packet, w.tree)
    case RunEvaluate(_, _, _) => EvaluateAllowed(w.packet, w.tree)
  }

  function Next(w: World, a: Action): World {
    if !Runs(w, a) then w
    else
      match a
      case EditFiles(effect) => w.(tree := Apply(w.tree, effect))
      case RunReview(approve) => w.(packet := AfterReview(w.packet, w.tree, approve))
      case RunBuild(exitCode, effect) =>
        var after := Apply(Cleared(w.tree), effect);
        World(AfterBuild(w.packet, exitCode, after), after)
      case RunEvaluate(main, sidecars, effect) =>
        var after := Apply(w.tree, effect);
        World(AfterEvaluate(w.packet, EvaluationExit(main, sidecars), after), after)
  }

  function Exec(w: World, run: seq<Action>): World
    decreases |run|
  {
    if run == [] then w else Exec(Next(w, run[0]), run[1..])
  }

  function Fresh(specs: Content, requirements: seq<Requirement>, tree: Tree): World {
    World(Packet(Generated, specs, requirements, None, None, None), tree)
  }

  predicate PacketInv(p: Packet) {
    && (PastReview(p) ==> p.review.Some? && p.review.value.approve)
    && (p.status.Built? || p.status.EvaluationFailed? || p.status.Evaluated? ==>
          p.build.Some? && p.build.value.exitCode == 0)
    && (p.manifest.Some? ==> p.status.Evaluated? && p.manifest.value == ManifestOf(p, p.manifest.value.evidence))
  }

  lemma {:induction false} PacketInvAlways(w: World, run: seq<Action>)
    requires PacketInv(w.packet)
    ensures PacketInv(Exec(w, run).packet)
    decreases |run|
  {
    if run == [] {
    } else {
      PacketInvAlways(Next(w, run[0]), run[1..]);
    }
  }

  /** From approval on, the approving review is never touched again. */
  lemma {:induction false} ReviewFrozen(w: World, run: seq<Action>)
    requires PastReview(w.packet)
    ensures PastReview(Exec(w, run).packet) && Exec(w, run).packet.review == w.packet.review
    decreases |run|
  {
    if run == [] {
    } else {
      ReviewFrozen(Next(w, run[0]), run[1..]);
    }
  }

  // ----- where the recorded facts come from

  lemma {:induction false} ExecAppend(w: World, run: seq<Action>, a: Action)
    ensures Exec(w, run + [a]) == Next(Exec(w, run), a)
    decreases |run|
  {
    if run == [] {
      assert (run + [a])[1..] == [];
    } else {
      assert (run + [a])[1..] == run[1..] + [a];
      ExecAppend(Next(w, run[0]), run[1..], a);
    }
  }

  /** The state before step `i`. */
  function Before(w: World, run: seq<Action>, i: nat): World
    requires i <= |run|
  {
    Exec(w, run[..i])
  }

  lemma StepAt(w: World, run: seq<Action>, i: nat)
    requires i < |run|
    ensures Before(w, run, i + 1) == Next(Before(w, run, i), run[i])
    ensures Before(w, run, |run|) == Exec(w, run)
  {
    assert run[..i + 1] == run[..i] + [run[i]] && run[..|run|] == run;
    ExecAppend(w, run[..i], run[i]);
  }

  /** Step `i` approves this proposal, with the specifications as frozen. */
  ghost predicate Approves(w: World, run: seq<Action>, i: nat, proposal: Content) {
    && i < |run| && run[i] == RunReview(true) && ReviewAllowed(Before(w, run, i).packet, Before(w, run, i).tree)
    && Before(w, run, i).tree.proposal == proposal && Before(w, run, i).tree.specs == w.packet.frozenSpecs
  }

  /**
   Step `j` builds, cleanly or not, with the frozen specifications and the reviewed proposal
   on disk, and leaves these sources.
   */
  ghost predicate Builds(w: World, run: seq<Action>, j: nat, build: Build) {
    && j < |run| && run[j].RunBuild? && BuildAllowed(Before(w, run, j).packet, Before(w, run, j).tree)
    && Before(w, run, j).tree.specs == w.packet.frozenSpecs
    && Before(w, run, j).packet.review.Some?
    && Before(w, run, j).tree.proposal == Before(w, run, j).packet.review.value.proposal
    && run[j].exitCode == build.exitCode && Before(w, run, j + 1).tree.source == build.source
  }

  /** No build gets past its guards between two steps. */
  ghost predicate NoBuildBetween(w: World, run: seq<Action>, j: nat, n: nat)
    requires n <= |run|
  {
    forall i :: j < i < n && run[i].RunBuild? ==> !Runs(Before(w, run, i), run[i])
  }

  /** The step writes this evidence file. */
  predicate Writes(a: Action, id: RequirementId, file: EvidenceFile) {
    !a.RunReview? && id in a.effect.written && a.effect.written[id] == file
  }

  /** Every evidence file on disk before step `n` was written at step `j` or later. */
  ghost predicate EvidenceSince(w: World, run: seq<Action>, j: nat, n: nat)
    requires n <= |run|
  {
    forall id <- Before(w, run, n).tree.evidence.files ::
      exists i :: j <= i < n && Writes(run[i], id, Before(w, run, n).tree.evidence.files[id])
  }

  /** An approved packet was approved by a step of the run. */
  lemma {:induction false} FindReview(w: World, run: seq<Action>, n: nat) returns (i: nat)
    requires n <= |run| && w.packet.status.Generated?
    requires PastReview(Before(w, run, n).packet)
    ensures i < n && Before(w, run, n).packet.review.Some?
    ensures Approves(w, run, i, Before(w, run, n).packet.review.value.proposal)
    decreases n
  {
    assert n > 0;
    StepAt(w, run, n - 1);
    var before := Before(w, run, n - 1);
    if PastReview(before.packet) {
      i := FindReview(w, run, n - 1);
    } else {
      i := n - 1;
      FrozenSpecs(w, run[..i]);
    }
  }

  lemma EvidenceStep(w: World, run: seq<Action>, j: nat, n: nat)
    requires j < n < |run| && EvidenceSince(w, run, j, n)
    ensures EvidenceSince(w, run, j, n + 1)
  {
    StepAt(w, run, n);
    var files, files' := Before(w, run, n).tree.evidence.files, Before(w, run, n + 1).tree.evidence.files;
    forall id <- files'
      ensures exists i :: j <= i < n + 1 && Writes(run[i], id, files'[id])
    {
      if Writes(run[n], id, files'[id]) {
      } else {
        assert id in files && files[id] == files'[id];
        var i :| j <= i < n && Writes(run[i], id, files[id]);
      }
    }
  }

  /** A recorded build was made by a step of the run; no later one ran, and all evidence dates from it. */
  lemma {:induction false} FindBuild(w: World, run: seq<Action>, n: nat) returns (j: nat)
    requires n <= |run| && w.packet.build.None?
    requires Before(w, run, n).packet.build.Some?
    ensures j < n && Builds(w, run, j, Before(w, run, n).packet.build.value)
    ensures NoBuildBetween(w, run, j, n) && EvidenceSince(w, run, j, n)
    decreases n
  {
    assert n > 0;
    StepAt(w, run, n - 1);
    var before, a := Before(w, run, n - 1), run[n - 1];
    if a.RunBuild? && Runs(before, a) {
      j := n - 1;
      FrozenSpecs(w, run[..j]);
      assert forall id <- Before(w, run, n).tree.evidence.files ::
          Writes(run[j], id, Before(w, run, n).tree.evidence.files[id]);
    } else {
      j := FindBuild(w, run, n - 1);
      EvidenceStep(w, run, j, n - 1);
    }
  }

  predicate CleanlyBuilt(p: Packet) {
    p.status.Built? || p.status.EvaluationFailed? || p.status.Evaluated?
  }

  /**
   In every run the status tells what has happened: an approved packet was approved by a
   step of the run, and a cleanly built one was built, with exit code zero, by a later step.
   */
  lemma StatusTellsHistory(specs: Content, requirements: seq<Requirement>, tree: Tree, run: seq<Action>)
    ensures var w := Fresh(specs, requirements, tree);
            var p := Exec(w, run).packet;
            && (PastReview(p) ==> p.review.Some? && exists i :: Approves(w, run, i, p.review.value.proposal))
            && (CleanlyBuilt(p) ==>
                  && p.build.Some? && p.build.value.exitCode == 0 && p.review.Some?
                  && exists i, j ::
                       i < j && Approves(w, run, i, p.review.value.proposal) && Builds(w, run, j, p.build.value))
            && (p.manifest.Some? ==> p.status.Evaluated?)
  {
    var w := Fresh(specs, requirements, tree);
    PacketInvAlways(w, run);
    assert run[..|run|] == run;
    if PastReview(Exec(w, run).packet) {
      var i := FindReview(w, run, |run|);
      if CleanlyBuilt(Exec(w, run).packet) {
        var j := FindBuild(w, run, |run|);
        i := ReviewBeforeBuild(w, run, j, |run|);
      }
    }
  }

  lemma {:induction false} FrozenBetween(w: World, run: seq<Action>, j: nat, n: nat)
    requires j <= n <= |run| && PastReview(Before(w, run, j).packet)
    ensures PastReview(Before(w, run, n).packet) && Before(w, run, n).packet.review == Before(w, run, j).packet.review
    decreases n
  {
    if j < n {
      FrozenBetween(w, run, j, n - 1);
      StepAt(w, run, n - 1);
    }
  }

  /** The review a later state records was made before the build. */
  lemma ReviewBeforeBuild(w: World, run: seq<Action>, j: nat, n: nat) returns (i: nat)
    requires j < n <= |run| && w.packet.status.Generated?
    requires BuildAllowed(Before(w, run, j).packet, Before(w, run, j).tree)
    ensures i < j && Before(w, run, n).packet.review.Some?
    ensures Approves(w, run, i, Before(w, run, n).packet.review.value.proposal)
  {
    i := FindReview(w, run, j);
    FrozenBetween(w, run, j, n);
  }

  /** The evaluation at `w` published `m`, and everything the manifest claims held there. */
  ghost predicate Published(w: World, a: Action, m: Manifest) {
    && a.RunEvaluate? && EvaluateAllowed(w.packet, w.tree)
    && w.tree.specs == m.specs && w.tree.proposal == m.proposal
    && w.packet.review.Some? && w.packet.review.value.approve && w.packet.review.value.proposal == m.proposal
    && w.packet.build.Some? && w.packet.build.value == Build(0, m.source)
    && w.tree.source == m.source && Next(w, a).tree.source == m.source
    && Next(w, a).tree.evidence == m.evidence && AllEvidenceValid(m.evidence, w.packet.requirements)
    && Publishable(m.evidence, w.packet.requirements)
    && a.main == 0 && ((forall c <- a.sidecars :: c == 0) || NegativeStop(a.sidecars))
  }

  lemma PublishStep(w: World, a: Action)
    requires PacketInv(w.packet) && Next(w, a).packet.manifest.Some?
    ensures Next(w, a).packet.manifest == w.packet.manifest || Published(w, a, Next(w, a).packet.manifest.value)
  {
    if a.RunEvaluate? {
      ExitZeroIff(a.main, a.sidecars);
    }
  }

  lemma {:induction false} FindPublisher(w: World, run: seq<Action>, n: nat) returns (k: nat)
    requires n <= |run| && PacketInv(w.packet) && w.packet.manifest.None?
    requires Before(w, run, n).packet.manifest.Some?
    ensures k < n && Published(Before(w, run, k), run[k], Before(w, run, n).packet.manifest.value)
    decreases n
  {
    assert n > 0;
    StepAt(w, run, n - 1);
    PacketInvAlways(w, run[..n - 1]);
    PublishStep(Before(w, run, n - 1), run[n - 1]);
    if Published(Before(w, run, n - 1), run[n - 1], Before(w, run, n).packet.manifest.value) {
      k := n - 1;
    } else {
      k := FindPublisher(w, run, n - 1);
    }
  }

  /**
   The provenance of an accepted manifest.  The run holds, in this order, an approving
   review of the manifest's proposal, a build with exit code zero that left the
   manifest's sources, and an evaluation that started with the frozen specifications,
   that proposal and those sources, ended with the same sources and left valid evidence.
   No other build ran in between, and every evidence file was written at or after the
   build: nothing an earlier build left behind counts.
   */
  lemma ManifestProvenance(specs: Content, requirements: seq<Requirement>, tree: Tree, run: seq<Action>)
    returns (i: nat, j: nat, k: nat)
    requires Exec(Fresh(specs, requirements, tree), run).packet.manifest.Some?
    ensures i < j < k < |run|
    ensures var w := Fresh(specs, requirements, tree);
            var m := Exec(w, run).packet.manifest.value;
            && m.specs == specs && AllEvidenceValid(m.evidence, requirements)
            && Approves(w, run, i, m.proposal) && Builds(w, run, j, Build(0, m.source))
            && Before(w, run, j).tree.proposal == m.proposal
            && NoBuildBetween(w, run, j, k) && Published(Before(w, run, k), run[k], m)
            && (forall id <- m.evidence.files :: exists n :: j <= n <= k && Writes(run[n], id, m.evidence.files[id]))
  {
    var w := Fresh(specs, requirements, tree);
    assert run[..|run|] == run;
    k := FindPublisher(w, run, |run|);
    j := FindBuild(w, run, k);
    i := ReviewBeforeBuild(w, run, j, k);
    FrozenBetween(w, run, j, k);
    EvidenceStep(w, run, j, k);
    StepAt(w, run, k);
    FrozenSpecs(w, run);
    FrozenSpecs(w, run[..k]);
    PacketInvAlways(w, run);
  }

  lemma {:induction false} FrozenSpecs(w: World, run: seq<Action>)
    ensures Exec(w, run).packet.frozenSpecs == w.packet.frozenSpecs
    ensures Exec(w, run).packet.requirements == w.packet.requirements
    decreases |run|
  {
    if run == [] {
    } else {
      FrozenSpecs(Next(w, run[0]), run[1..]);
    }
  }
}
