/**
 From dependency graphs and lock files to an accepted manifest: what the generator
 reports for each package, and what the finished inventory says about the graphs.
 */
module InventoryGenerator {
  import opened Wrappers
  import opened CargoRoles
  import opened Inventory
  import ResourceTree

  const ROOT_PACKAGE := "wardrobe-desktop"
  const FIRST_PARTY_LICENSE := "UNLICENSED"

  /** `manifestDir` is the package directory relative to the repository, if it lies inside. */
  datatype CargoPackage = CargoPackage(
    name: string, version: string, license: string, source: Option<string>, manifestDir: Option<string>)

  /** What `cargo metadata` says for one target. */
  datatype Metadata = Metadata(packages: map<PackageId, CargoPackage>, nodes: Graph)

  /** A package of `Cargo.lock`. */
  datatype Locked = Locked(name: string, version: string, source: Option<string>, checksum: Option<string>)

  type LockIndex = map<(string, string), string>

  datatype GeneratorError =
    | BadLock
    | NoSingleRoot
    | BadGraph(graphError: GraphError)
    | BadPackage(id: PackageId)
    | BadNpmPackage(path: string)
    | BadNpmLink(path: string)
    | StaleAllowlist
    | NotMerged(mergeError: InventoryError)

  predicate FromTarget(e: GeneratorError) {
    e.NoSingleRoot? || e.BadGraph? || e.BadPackage?
  }

  predicate FromNpm(e: GeneratorError) {
    e.BadNpmPackage? || e.BadNpmLink? || e.StaleAllowlist?
  }

  // ----- text

  /** White space in the sense of `str.isspace`. */
  predicate IsSpace(c: char) {
    var n := c as int;
    || 9 <= n <= 13 || 28 <= n <= 32 || n == 0x85 || n == 0xA0 || n == 0x1680
    || 0x2000 <= n <= 0x200A || n == 0x2028 || n == 0x2029 || n == 0x202F || n == 0x205F || n == 0x3000
  }

  predicate Blank(s: string) {
    forall c <- s :: IsSpace(c)
  }

  /** `str.split()`: the maximal runs without white space. */
  function Words(s: string): seq<string> {
    if s == "" then []
    else if IsSpace(s[0]) then Words(s[1..])
    else
      var rest := Words(s[1..]);
      if |s| > 1 && !IsSpace(s[1]) && rest != [] then [[s[0]] + rest[0]] + rest[1..] else [[s[0]]] + rest
  }

  /** Base 64 text with at most two padding characters. */
  predicate IsDigestText(s: string) {
    exists n :: |s| - 2 <= n <= |s| && n > 0 && (forall c <- s[..n] :: IsBase64(c)) && (forall c <- s[n..] :: c == '=')
  }

  predicate IsSriToken(s: string) {
    ("sha256-" <= s || "sha384-" <= s || "sha512-" <= s) && IsDigestText(s[7..])
  }

  /** The integrity strings the generator accepts: one or more tokens of three algorithms. */
  predicate IsSri(s: string) {
    Words(s) != [] && forall token <- Words(s) :: IsSriToken(token)
  }

  // ----- the Cargo lock

  predicate LockedOk(p: Locked) {
    p.source.Some? ==> p.source.value == CARGO_REGISTRY && p.checksum.Some? && IsSha256(p.checksum.value)
  }

  predicate Indexes(index: LockIndex, packages: seq<Locked>) {
    && (forall p <- packages :: p.source.Some? && p.checksum.Some? ==>
          (p.name, p.version) in index && index[(p.name, p.version)] == p.checksum.value)
    && (forall key <- index :: IsSha256(index[key]) &&
          exists p <- packages :: p.source.Some? && (p.name, p.version) == key)
  }

  predicate LockUnique(packages: seq<Locked>) {
    forall i, j :: 0 <= i < j < |packages| && packages[i].source.Some? && packages[j].source.Some? ==>
      (packages[i].name, packages[i].version) != (packages[j].name, packages[j].version)
  }

  predicate LockOk(packages: seq<Locked>) {
    (forall p <- packages :: LockedOk(p)) && LockUnique(packages)
  }

  lemma IndexUnique(a: LockIndex, b: LockIndex, packages: seq<Locked>)
    requires LockOk(packages) && Indexes(a, packages) && Indexes(b, packages)
    ensures a == b
  {
    forall key
      ensures key in a <==> key in b
      ensures key in a ==> a[key] == b[key]
    {
      if key in a || key in b {
        var p :| p in packages && p.source.Some? && (p.name, p.version) == key;
        assert LockedOk(p);
      }
    }
  }

  /** `_cargo_lock_index`: the checksum of each registry package, which it names once. */
  method CargoLockIndex(packages: seq<Locked>) returns (result: Result<LockIndex, GeneratorError>)
    ensures result.Ok? <==> LockOk(packages)
    ensures result.Ok? ==> Indexes(result.value, packages)
    ensures result.Err? ==> result.error.BadLock?
  {
    var index: LockIndex := map[];
    var i := 0;
    while i < |packages|
      invariant 0 <= i <= |packages|
      invariant (forall p <- packages[..i] :: LockedOk(p)) && LockUnique(packages[..i])
      invariant Indexes(index, packages[..i])
    {
      var p := packages[i];
      assert packages[..i + 1] == packages[..i] + [p] && p in packages;
      if p.source.Some? {
        if p.source.value != CARGO_REGISTRY || p.checksum.None? || !IsSha256(p.checksum.value) {
          return Err(BadLock);
        }
        if (p.name, p.version) in index {
          var q :| q in packages[..i] && q.source.Some? && (q.name, q.version) == (p.name, p.version);
          return Err(BadLock);
        }
        assert forall q <- packages[..i] :: q.source.Some? ==> (q.name, q.version) in index;
        index := index[(p.name, p.version) := p.checksum.value];
      }
      i := i + 1;
    }
    assert packages[..i] == packages;
    return Ok(index);
  }

  // ----- one Cargo package

  /** The package passes the checks made before it is reported. */
  predicate Describable(index: LockIndex, p: CargoPackage) {
    && p.name != "" && p.version != "" && !Blank(p.license)
    && match p.source
       case None => p.manifestDir.Some? && p.license == FIRST_PARTY_LICENSE
       case Some(source) => source == CARGO_REGISTRY && (p.name, p.version) in index
  }

  function CargoIdentity(p: CargoPackage): Identity
    requires p.source.None? ==> p.manifestDir.Some?
  {
    Identity("cargo", p.name, p.version,
             if p.source.Some? then p.source.value
             else "path:" + if p.manifestDir.value == "" then "." else p.manifestDir.value)
  }

  function RoleName(role: Role): string {
    if role.RuntimeRole? then "runtime" else "build"
  }

  function CargoReport(index: LockIndex, target: string, p: CargoPackage, roles: set<string>): (c: Contribution)
    requires Describable(index, p)
  {
    Contribution(CargoIdentity(p), if p.source.None? then None else Some(index[(p.name, p.version)]),
                 p.license, false, roles, {target})
  }

  // ----- one target

  predicate SoleRoot(m: Metadata, root: PackageId) {
    && root in m.packages && m.packages[root].name == ROOT_PACKAGE
    && forall id <- m.packages :: m.packages[id].name == ROOT_PACKAGE ==> id == root
  }

  /** The names of the roles that walks from the root earn for a package. */
  ghost function EarnedNames(g: Graph, root: PackageId, v: PackageId): set<string> {
    (if Earned(g, root, v, RuntimeRole) then {"runtime"} else {}) +
      (if Earned(g, root, v, BuildRole) then {"build"} else {})
  }

  lemma EarnedNamesKnown(g: Graph, root: PackageId, v: PackageId)
    requires Listed(g, root, v)
    ensures EarnedNames(g, root, v) != {} && EarnedNames(g, root, v) <= {"build", "runtime"}
  {
  }

  /** Every package the root needs has a node and can be described. */
  ghost predicate TargetOk(index: LockIndex, m: Metadata, root: PackageId) {
    && SoleRoot(m, root)
    && forall v :: Listed(m.nodes, root, v) ==>
         WellFormedNode(m.nodes, v) && v in m.packages && Describable(index, m.packages[v])
  }

  ghost predicate ReportsListed(c: Contribution, index: LockIndex, target: string, m: Metadata, root: PackageId,
                                v: PackageId) {
    && Listed(m.nodes, root, v) && v in m.packages && Describable(index, m.packages[v])
    && c == CargoReport(index, target, m.packages[v], EarnedNames(m.nodes, root, v))
  }

  /** The reports of a target: one for each package the root needs, with the roles it earns. */
  ghost predicate ReportsTarget(cs: seq<Contribution>, index: LockIndex, target: string, m: Metadata, root: PackageId) {
    && (forall c <- cs :: exists v :: ReportsListed(c, index, target, m, root, v))
    && (forall v, c :: ReportsListed(c, index, target, m, root, v) ==> c in cs)
  }

  method FindRoot(m: Metadata) returns (result: Result<PackageId, GeneratorError>)
    ensures result.Ok? <==> exists root :: SoleRoot(m, root)
    ensures result.Ok? ==> SoleRoot(m, result.value)
    ensures result.Err? ==> FromTarget(result.error)
  {
    var roots := set id | id in m.packages && m.packages[id].name == ROOT_PACKAGE;
    if |roots| != 1 {
      assert forall root :: SoleRoot(m, root) ==> roots == {root};
      return Err(NoSingleRoot);
    }
    var root :| root in roots;
    assert roots == {root} by {
      assert |roots - {root}| == 0;
    }
    assert SoleRoot(m, root) by {
      assert forall id <- m.packages :: m.packages[id].name == ROOT_PACKAGE ==> id in roots;
    }
    return Ok(root);
  }

  /** The checks of one Cargo package, in turn. */
  method CheckCargoPackage(index: LockIndex, p: CargoPackage) returns (ok: bool)
    ensures ok <==> Describable(index, p)
  {
    if p.name == "" || p.version == "" || Blank(p.license) {
      return false;
    }
    match p.source {
      case None => return p.manifestDir.Some? && p.license == FIRST_PARTY_LICENSE;
      case Some(source) => return source == CARGO_REGISTRY && (p.name, p.version) in index;
    }
  }

  /** The roles are those that walks from the root earn. */
  ghost predicate RolesEarned(roles: Roles, g: Graph, root: PackageId) {
    && (forall v :: v in roles <==> Listed(g, root, v))
    && (forall v <- roles, role :: role in roles[v] <==> Earned(g, root, v, role))
  }

  /** The reports of these packages so far. */
  ghost predicate ReportsFor(cs: seq<Contribution>, index: LockIndex, target: string, m: Metadata, root: PackageId,
                             done: set<PackageId>) {
    && (forall c <- cs :: exists v <- done :: ReportsListed(c, index, target, m, root, v))
    && (forall v <- done, c :: ReportsListed(c, index, target, m, root, v) ==> c in cs)
  }

  lemma ReportsMore(cs: seq<Contribution>, index: LockIndex, target: string, m: Metadata, root: PackageId,
                    done: set<PackageId>, v: PackageId, c: Contribution)
    requires ReportsFor(cs, index, target, m, root, done) && ReportsListed(c, index, target, m, root, v)
    ensures ReportsFor(cs + [c], index, target, m, root, done + {v})
  {
    forall d <- cs + [c]
      ensures exists u <- done + {v} :: ReportsListed(d, index, target, m, root, u)
    {
      if d in cs {
        var u :| u in done && ReportsListed(d, index, target, m, root, u);
        assert u in done + {v};
      } else {
        assert v in done + {v};
      }
    }
  }

  lemma ReportsAll(cs: seq<Contribution>, index: LockIndex, target: string, m: Metadata, root: PackageId, roles: Roles)
    requires ReportsFor(cs, index, target, m, root, roles.Keys) && RolesEarned(roles, m.nodes, root)
    ensures ReportsTarget(cs, index, target, m, root)
  {
    forall v, c | ReportsListed(c, index, target, m, root, v)
      ensures c in cs
    {
      assert v in roles;
    }
  }

  /** One report for each package that has a role. */
  method ReportPackages(index: LockIndex, target: string, m: Metadata, roles: Roles, ghost root: PackageId)
    returns (result: Result<seq<Contribution>, GeneratorError>)
    requires RolesEarned(roles, m.nodes, root)
    ensures result.Ok? <==> forall v <- roles :: v in m.packages && Describable(index, m.packages[v])
    ensures result.Ok? ==> ReportsTarget(result.value, index, target, m, root)
    ensures result.Err? ==> result.error.BadPackage?
  {
    var cs: seq<Contribution> := [];
    var rest := roles.Keys;
    while rest != {}
      invariant rest <= roles.Keys
      invariant forall v <- roles.Keys - rest :: v in m.packages && Describable(index, m.packages[v])
      invariant ReportsFor(cs, index, target, m, root, roles.Keys - rest)
      decreases rest
    {
      var v :| v in rest;
      if v !in m.packages {
        return Err(BadPackage(v));
      }
      var ok := CheckCargoPackage(index, m.packages[v]);
      if !ok {
        return Err(BadPackage(v));
      }
      var names := set role | role in roles[v] :: RoleName(role);
      NamesAreEarned(m.nodes, root, v, roles[v]);
      var c := CargoReport(index, target, m.packages[v], names);
      ReportsMore(cs, index, target, m, root, roles.Keys - rest, v, c);
      assert roles.Keys - (rest - {v}) == roles.Keys - rest + {v};
      cs, rest := cs + [c], rest - {v};
    }
    assert roles.Keys - rest == roles.Keys;
    ReportsAll(cs, index, target, m, root, roles);
    return Ok(cs);
  }

  method TargetReports(index: LockIndex, target: string, m: Metadata)
    returns (result: Result<seq<Contribution>, GeneratorError>, ghost root: PackageId)
    ensures result.Ok? <==> TargetReportable(index, m)
    ensures result.Ok? ==> TargetOk(index, m, root) && ReportsTarget(result.value, index, target, m, root)
    ensures result.Err? ==> FromTarget(result.error)
  {
    root := "";
    var found := FindRoot(m);
    if found.Err? {
      return Err(found.error), root;
    }
    root := found.value;
    assert forall r :: SoleRoot(m, r) ==> r == root;
    var propagated := PropagateRoles(m.nodes, found.value);
    if propagated.Err? {
      return Err(BadGraph(propagated.error)), root;
    }
    result := ReportPackages(index, target, m, propagated.value, root);
    assert result.Ok? <==> TargetOk(index, m, root);
  }

  lemma NamesAreEarned(g: Graph, root: PackageId, v: PackageId, roles: set<Role>)
    requires forall role :: role in roles <==> Earned(g, root, v, role)
    ensures (set role | role in roles :: RoleName(role)) == EarnedNames(g, root, v)
  {
  }

  // ----- all targets

  ghost predicate TargetReportable(index: LockIndex, m: Metadata) {
    exists root :: TargetOk(index, m, root)
  }

  ghost predicate TargetsOk(index: LockIndex, metas: seq<Metadata>) {
    forall i :: 0 <= i < |metas| ==> TargetReportable(index, metas[i])
  }

  /** The reports of the first targets, with the root each of them starts from. */
  ghost predicate ReportsTargets(cs: seq<Contribution>, index: LockIndex, metas: seq<Metadata>, roots: seq<PackageId>)
    requires |roots| <= |metas| == |TARGETS|
  {
    && (forall i :: 0 <= i < |roots| ==> TargetOk(index, metas[i], roots[i]))
    && (forall c <- cs :: exists i, v :: 0 <= i < |roots| && ReportsListed(c, index, TARGETS[i], metas[i], roots[i], v))
    && (forall i, v, c :: 0 <= i < |roots| && ReportsListed(c, index, TARGETS[i], metas[i], roots[i], v) ==> c in cs)
  }

  lemma NextTarget(cs: seq<Contribution>, more: seq<Contribution>, index: LockIndex, metas: seq<Metadata>,
                   roots: seq<PackageId>, root: PackageId)
    requires |roots| < |metas| == |TARGETS| && ReportsTargets(cs, index, metas, roots)
    requires TargetOk(index, metas[|roots|], root)
    requires ReportsTarget(more, index, TARGETS[|roots|], metas[|roots|], root)
    ensures ReportsTargets(cs + more, index, metas, roots + [root])
  {
  }

  lemma AllTargetsOk(cs: seq<Contribution>, index: LockIndex, metas: seq<Metadata>, roots: seq<PackageId>)
    requires |roots| == |metas| == |TARGETS| && ReportsTargets(cs, index, metas, roots)
    ensures TargetsOk(index, metas)
  {
  }

  method CargoReports(index: LockIndex, metas: seq<Metadata>)
    returns (result: Result<seq<Contribution>, GeneratorError>, ghost roots: seq<PackageId>)
    requires |metas| == |TARGETS|
    ensures result.Ok? <==> TargetsOk(index, metas)
    ensures result.Ok? ==> |roots| == |metas| && ReportsTargets(result.value, index, metas, roots)
    ensures result.Err? ==> FromTarget(result.error)
  {
    var cs: seq<Contribution> := [];
    roots := [];
    var i := 0;
    while i < |TARGETS|
      invariant 0 <= i <= |TARGETS| && |roots| == i && ReportsTargets(cs, index, metas, roots)
    {
      var found, root := TargetReports(index, TARGETS[i], metas[i]);
      if found.Err? {
        return found, roots;
      }
      NextTarget(cs, found.value, index, metas, roots, root);
      cs, roots, i := cs + found.value, roots + [root], i + 1;
    }
    AllTargetsOk(cs, index, metas, roots);
    return Ok(cs), roots;
  }

  /** The role clauses of the checker hold of what the graphs report. */
  lemma CargoReportsOk(cs: seq<Contribution>, index: LockIndex, metas: seq<Metadata>, roots: seq<PackageId>)
    requires |roots| == |metas| == |TARGETS| && ReportsTargets(cs, index, metas, roots)
    ensures AllOf(cs, "cargo")
  {
    forall c <- cs
      ensures ReportOk(c) && c.id.ecosystem == "cargo"
    {
      var i, v :| 0 <= i < |roots| && ReportsListed(c, index, TARGETS[i], metas[i], roots[i], v);
      EarnedNamesKnown(metas[i].nodes, roots[i], v);
      assert TARGETS[i] in TARGETS;
    }
  }

  // ----- the npm lock

  datatype NpmManifest = NpmManifest(name: string, version: string, license: string)

  /** A package of `package-lock.json`, with the manifest found for a local one. */
  datatype NpmPackage = NpmPackage(
    path: string, name: Option<string>, version: string, resolved: string, license: string, integrity: string,
    installScript: bool, dev: bool, os: Option<seq<string>>, cpu: Option<seq<string>>,
    manifest: Option<NpmManifest>)

  datatype NpmLink = NpmLink(path: string, target: string, exactFields: bool)

  /** The reviewed scripts, and the tests of version, address and path strings. */
  datatype NpmPolicy = NpmPolicy(
    allowlist: set<(string, string)>,
    exactVersion: string -> bool, registryUrl: string -> bool, safePath: string -> bool, contained: string -> bool)

  /** What follows the last occurrence of a separator. */
  function AfterLast(s: string, sep: string): (rest: Option<string>)
    requires sep != ""
  {
    if |s| < |sep| then None
    else
      var later := AfterLast(s[1..], sep);
      if later.Some? then later else if sep <= s then Some(s[|sep|..]) else None
  }

  predicate Installed(path: string) {
    "node_modules/" <= path || AfterLast(path, "/node_modules/").Some?
  }

  /** The first component after the last `node_modules/`, or the first two of a scoped name. */
  function NpmNameFromPath(path: string): Option<string> {
    match AfterLast(path, "node_modules/")
    case None => None
    case Some(suffix) =>
      var parts := ResourceTree.Split(suffix);
      Some(if "@" <= suffix && |parts| > 1 then parts[0] + "/" + parts[1] else parts[0])
  }

  lemma {:induction false} NoRoomForMore(t: string, sep: string)
    requires sep != "" && sep[|sep| - 1] == '/'
    requires forall i :: |sep| - 1 <= i < |t| ==> t[i] != '/'
    ensures AfterLast(t, sep) == None
    decreases |t|
  {
    if |t| < |sep| {
    } else {
      NoRoomForMore(t[1..], sep);
      assert t[|sep| - 1] != sep[|sep| - 1];
    }
  }

  lemma {:induction false} AfterLastOf(a: string, sep: string, b: string)
    requires sep != "" && sep[|sep| - 1] == '/' && '/' !in b
    ensures AfterLast(a + sep + b, sep) == Some(b)
    decreases |a|
  {
    var s := a + sep + b;
    if a == "" {
      assert s == sep + b && s[|sep|..] == b;
      NoRoomForMore(s[1..], sep);
    } else {
      assert s[1..] == a[1..] + sep + b;
      AfterLastOf(a[1..], sep, b);
    }
  }

  lemma {:induction false} SplitPlain(b: string)
    requires '/' !in b
    ensures ResourceTree.Split(b) == [b]
  {
    if b == "" {
    } else {
      SplitPlain(b[1..]);
      assert [b[0]] + b[1..] == b;
    }
  }

  /** A package installed anywhere below a `node_modules` directory is named after its own directory. */
  lemma NameOfInstalled(above: string, name: string)
    requires '/' !in name
    ensures NpmNameFromPath(above + "node_modules/" + name) == Some(name)
  {
    AfterLastOf(above, "node_modules/", name);
    SplitPlain(name);
  }

  function NpmName(e: NpmPackage): Option<string> {
    if Installed(e.path) then NpmNameFromPath(e.path) else if e.name == Some("") then None else e.name
  }

  function NpmSource(e: NpmPackage): string {
    if Installed(e.path) then e.resolved else if e.path == "" then "path:." else "path:" + e.path
  }

  predicate IsLocal(e: NpmPackage) {
    "path:" <= NpmSource(e)
  }

  predicate NpmDescribable(policy: NpmPolicy, e: NpmPackage) {
    && NpmName(e).Some? && e.version != "" && policy.exactVersion(e.version) && !Blank(e.license)
    && (Installed(e.path) ==> e.resolved != "" && policy.registryUrl(e.resolved))
    && (!Installed(e.path) && e.path != "" ==> policy.safePath(e.path))
    && (if IsLocal(e) then e.license == FIRST_PARTY_LICENSE else IsSri(e.integrity))
    && (!Installed(e.path) ==> e.manifest == Some(NpmManifest(NpmName(e).value, e.version, e.license)))
    && (e.installScript ==> (NpmName(e).value, e.version) in policy.allowlist)
  }

  predicate Applies(constraint: Option<seq<string>>, candidate: string) {
    constraint.Some? ==>
      && "!" + candidate !in constraint.value
      && (candidate in constraint.value || forall item <- constraint.value :: "!" <= item)
  }

  function CpuOf(target: string): string {
    if "aarch64-" <= target then "arm64" else "x64"
  }

  function NpmTargets(e: NpmPackage): set<string> {
    set target | target in TARGETS && Applies(e.os, "darwin") && Applies(e.cpu, CpuOf(target))
  }

  function NpmReport(e: NpmPackage): (c: Contribution)
    requires NpmName(e).Some?
  {
    Contribution(Identity("npm", NpmName(e).value, e.version, NpmSource(e)),
                 if IsLocal(e) then None else Some(e.integrity), e.license, e.installScript,
                 {if e.dev then "build" else "runtime"}, NpmTargets(e))
  }

  function Scripts(entries: seq<NpmPackage>): set<(string, string)> {
    set e | e in entries && e.installScript && NpmName(e).Some? :: (NpmName(e).value, e.version)
  }

  /** A workspace link leads from an installed path to a lock package of the name the path spells. */
  predicate LinkOk(policy: NpmPolicy, entries: seq<NpmPackage>, link: NpmLink) {
    && link.exactFields && policy.safePath(link.target) && policy.contained(link.target) && Installed(link.path)
    && exists e <- entries :: e.path == link.target && e.name.Some? && e.name == NpmNameFromPath(link.path)
  }

  predicate NpmOk(policy: NpmPolicy, entries: seq<NpmPackage>, links: seq<NpmLink>) {
    && (forall e <- entries :: NpmDescribable(policy, e)) && Scripts(entries) == policy.allowlist
    && (forall link <- links :: LinkOk(policy, entries, link))
  }

  predicate ReportsNpm(cs: seq<Contribution>, entries: seq<NpmPackage>) {
    && |cs| == |entries|
    && forall i :: 0 <= i < |cs| ==> NpmName(entries[i]).Some? && cs[i] == NpmReport(entries[i])
  }

  lemma NpmReportOk(policy: NpmPolicy, e: NpmPackage)
    requires NpmDescribable(policy, e)
    ensures ReportOk(NpmReport(e)) && NpmReport(e).id.ecosystem == "npm"
  {
  }

  lemma NpmReportsOk(cs: seq<Contribution>, policy: NpmPolicy, entries: seq<NpmPackage>)
    requires ReportsNpm(cs, entries) && forall e <- entries :: NpmDescribable(policy, e)
    ensures AllOf(cs, "npm")
  {
    forall i | 0 <= i < |cs|
      ensures ReportOk(cs[i]) && cs[i].id.ecosystem == "npm"
    {
      assert entries[i] in entries;
      NpmReportOk(policy, entries[i]);
    }
  }

  /** The checks of one lock package, in turn. */
  method CheckNpmPackage(policy: NpmPolicy, e: NpmPackage) returns (ok: bool)
    ensures ok <==> NpmDescribable(policy, e)
  {
    var name: string;
    if Installed(e.path) {
      var spelled := NpmNameFromPath(e.path);
      if spelled.None? || e.resolved == "" || !policy.registryUrl(e.resolved) {
        return false;
      }
      name := spelled.value;
    } else {
      if e.name.None? || e.name.value == "" || (e.path != "" && !policy.safePath(e.path)) {
        return false;
      }
      name := e.name.value;
    }
    if e.version == "" || !policy.exactVersion(e.version) || Blank(e.license) {
      return false;
    }
    if IsLocal(e) {
      if e.license != FIRST_PARTY_LICENSE {
        return false;
      }
    } else if !IsSri(e.integrity) {
      return false;
    }
    if e.installScript && (name, e.version) !in policy.allowlist {
      return false;
    }
    return Installed(e.path) || e.manifest == Some(NpmManifest(name, e.version, e.license));
  }

  lemma ScriptsStep(entries: seq<NpmPackage>, e: NpmPackage)
    requires NpmName(e).Some?
    ensures Scripts(entries + [e]) == Scripts(entries) + if e.installScript then {(NpmName(e).value, e.version)} else {}
  {
  }

  lemma ReportsStep(cs: seq<Contribution>, entries: seq<NpmPackage>, e: NpmPackage)
    requires ReportsNpm(cs, entries) && NpmName(e).Some?
    ensures ReportsNpm(cs + [NpmReport(e)], entries + [e])
  {
  }

  method CheckLinks(policy: NpmPolicy, entries: seq<NpmPackage>, links: seq<NpmLink>)
    returns (bad: Option<NpmLink>)
    ensures bad.None? <==> forall link <- links :: LinkOk(policy, entries, link)
  {
    var i := 0;
    while i < |links|
      invariant 0 <= i <= |links| && forall link <- links[..i] :: LinkOk(policy, entries, link)
    {
      assert links[..i + 1] == links[..i] + [links[i]] && links[i] in links;
      if !LinkOk(policy, entries, links[i]) {
        return Some(links[i]);
      }
      i := i + 1;
    }
    assert links[..i] == links;
    return None;
  }

  method NpmReports(policy: NpmPolicy, entries: seq<NpmPackage>, links: seq<NpmLink>)
    returns (result: Result<seq<Contribution>, GeneratorError>)
    ensures result.Ok? <==> NpmOk(policy, entries, links)
    ensures result.Ok? ==> ReportsNpm(result.value, entries) && AllOf(result.value, "npm")
    ensures result.Err? ==> FromNpm(result.error)
  {
    var cs: seq<Contribution> := [];
    var observed: set<(string, string)> := {};
    var i := 0;
    while i < |entries|
      invariant 0 <= i <= |entries| && ReportsNpm(cs, entries[..i])
      invariant forall e <- entries[..i] :: NpmDescribable(policy, e)
      invariant observed == Scripts(entries[..i])
    {
      var e := entries[i];
      assert entries[..i + 1] == entries[..i] + [e] && e in entries;
      var ok := CheckNpmPackage(policy, e);
      if !ok {
        return Err(BadNpmPackage(e.path));
      }
      ScriptsStep(entries[..i], e);
      ReportsStep(cs, entries[..i], e);
      if e.installScript {
        observed := observed + {(NpmName(e).value, e.version)};
      }
      cs, i := cs + [NpmReport(e)], i + 1;
    }
    assert entries[..i] == entries;
    NpmReportsOk(cs, policy, entries);
    if observed != policy.allowlist {
      return Err(StaleAllowlist);
    }
    var bad := CheckLinks(policy, entries, links);
    if bad.Some? {
      return Err(BadNpmLink(bad.value.path));
    }
    return Ok(cs);
  }

  // ----- from graphs to the manifest

  /** Package `v` of target `i` is needed by the root and goes by this identity. */
  ghost predicate Stands(metas: seq<Metadata>, roots: seq<PackageId>, i: nat, v: PackageId, id: Identity)
    requires |roots| == |metas|
  {
    && i < |metas| && Listed(metas[i].nodes, roots[i], v) && v in metas[i].packages
    && NamedAs(metas[i].packages[v], id)
  }

  /** A registry package goes by its source, a local one by its directory, the repository's being a dot. */
  predicate NamedAs(p: CargoPackage, id: Identity) {
    && id.ecosystem == "cargo" && id.name == p.name && id.version == p.version
    && match p.source
       case Some(source) => id.source == source
       case None =>
         match p.manifestDir
         case None => false
         case Some(dir) => (dir == "" && id.source == "path:.") || (dir != "" && id.source == "path:" + dir)
  }

  /** Some target's package of this identity earns the role. */
  ghost predicate EarnsSomewhere(metas: seq<Metadata>, roots: seq<PackageId>, id: Identity, name: string)
    requires |roots| == |metas|
  {
    exists i: nat, v :: Stands(metas, roots, i, v, id) && name in EarnedNames(metas[i].nodes, roots[i], v)
  }

  /** The target lists a package of this identity. */
  ghost predicate NeededOn(metas: seq<Metadata>, roots: seq<PackageId>, id: Identity, target: string)
    requires |roots| == |metas| == |TARGETS|
  {
    exists i: nat, v :: Stands(metas, roots, i, v, id) && target == TARGETS[i]
  }

  /** The roles of a Cargo record are those its packages earn on some target, and its targets those that list them. */
  ghost predicate ReadsGraphs(d: Dependency, metas: seq<Metadata>, roots: seq<PackageId>)
    requires |roots| == |metas| == |TARGETS|
  {
    && (forall name :: name in d.roles <==> EarnsSomewhere(metas, roots, d.id, name))
    && (forall target :: target in d.targets <==> NeededOn(metas, roots, d.id, target))
    && (forall i: nat, v :: Stands(metas, roots, i, v, d.id) ==> metas[i].packages[v].license == d.license)
  }

  lemma ReportedIsEarned(cs: seq<Contribution>, index: LockIndex, metas: seq<Metadata>, roots: seq<PackageId>,
                         c: Contribution, name: string)
    requires |roots| == |metas| == |TARGETS| && ReportsTargets(cs, index, metas, roots)
    requires c in cs && name in c.roles
    ensures EarnsSomewhere(metas, roots, c.id, name)
  {
    var i, v :| 0 <= i < |roots| && ReportsListed(c, index, TARGETS[i], metas[i], roots[i], v);
    assert Stands(metas, roots, i, v, c.id);
  }

  lemma RolesOfGraphs(cs: seq<Contribution>, index: LockIndex, metas: seq<Metadata>, roots: seq<PackageId>,
                      id: Identity, name: string)
    requires |roots| == |metas| == |TARGETS| && ReportsTargets(cs, index, metas, roots)
    ensures name in RolesOf(cs, id) <==> EarnsSomewhere(metas, roots, id, name)
  {
    if name in RolesOf(cs, id) {
      var c :| c in cs && c.id == id && name in c.roles;
      ReportedIsEarned(cs, index, metas, roots, c, name);
    }
    if EarnsSomewhere(metas, roots, id, name) {
      var i: nat, v :| Stands(metas, roots, i, v, id) && name in EarnedNames(metas[i].nodes, roots[i], v);
      ReportOfStanding(cs, index, metas, roots, i, v, id);
    }
  }

  lemma ReportedIsNeeded(cs: seq<Contribution>, index: LockIndex, metas: seq<Metadata>, roots: seq<PackageId>,
                         c: Contribution, target: string)
    requires |roots| == |metas| == |TARGETS| && ReportsTargets(cs, index, metas, roots)
    requires c in cs && target in c.targets
    ensures NeededOn(metas, roots, c.id, target)
  {
    var i, v :| 0 <= i < |roots| && ReportsListed(c, index, TARGETS[i], metas[i], roots[i], v);
    assert Stands(metas, roots, i, v, c.id);
  }

  lemma TargetsOfGraphs(cs: seq<Contribution>, index: LockIndex, metas: seq<Metadata>, roots: seq<PackageId>,
                        id: Identity, target: string)
    requires |roots| == |metas| == |TARGETS| && ReportsTargets(cs, index, metas, roots)
    ensures target in TargetsOf(cs, id) <==> NeededOn(metas, roots, id, target)
  {
    if target in TargetsOf(cs, id) {
      var c :| c in cs && c.id == id && target in c.targets;
      ReportedIsNeeded(cs, index, metas, roots, c, target);
    }
    if NeededOn(metas, roots, id, target) {
      var i: nat, v :| Stands(metas, roots, i, v, id) && target == TARGETS[i];
      ReportOfStanding(cs, index, metas, roots, i, v, id);
    }
  }

  /** Every package the root needs is reported under its identity. */
  lemma ReportOfStanding(cs: seq<Contribution>, index: LockIndex, metas: seq<Metadata>, roots: seq<PackageId>,
                         i: nat, v: PackageId, id: Identity)
    requires |roots| == |metas| == |TARGETS| && ReportsTargets(cs, index, metas, roots)
    requires Stands(metas, roots, i, v, id)
    ensures EarnedNames(metas[i].nodes, roots[i], v) <= RolesOf(cs, id)
    ensures TARGETS[i] in TargetsOf(cs, id) && id in IdsOf(cs)
  {
    var c := StandingReport(cs, index, metas, roots, i, v, id);
  }

  /** The npm side adds nothing to a Cargo identity. */
  lemma CargoOnly(cargo: seq<Contribution>, npm: seq<Contribution>, id: Identity)
    requires AllOf(npm, "npm") && id.ecosystem == "cargo"
    ensures RolesOf(cargo + npm, id) == RolesOf(cargo, id) && TargetsOf(cargo + npm, id) == TargetsOf(cargo, id)
  {
  }

  lemma RecordReadsGraphs(d: Dependency, m: Merged, cargo: seq<Contribution>, npm: seq<Contribution>,
                          index: LockIndex, metas: seq<Metadata>, roots: seq<PackageId>)
    requires |roots| == |metas| == |TARGETS| && ReportsTargets(cargo, index, metas, roots)
    requires AllOf(npm, "npm") && d.id.ecosystem == "cargo"
    requires Represents(m, cargo + npm, d.id) && Finishes(d, m)
    ensures ReadsGraphs(d, metas, roots)
  {
    CargoOnly(cargo, npm, d.id);
    forall name
      ensures name in d.roles <==> EarnsSomewhere(metas, roots, d.id, name)
    {
      RolesOfGraphs(cargo, index, metas, roots, d.id, name);
    }
    forall target
      ensures target in d.targets <==> NeededOn(metas, roots, d.id, target)
    {
      TargetsOfGraphs(cargo, index, metas, roots, d.id, target);
    }
    forall i: nat, v | Stands(metas, roots, i, v, d.id)
      ensures metas[i].packages[v].license == d.license
    {
      var c := StandingReport(cargo, index, metas, roots, i, v, d.id);
      assert c in cargo + npm;
    }
  }

  /** A directory that the checker takes for a contained path. */
  predicate ContainedDir(p: CargoPackage) {
    p.source.None? && p.manifestDir.Some? ==>
      p.manifestDir.value == "" || p.manifestDir.value == "." || ResourceTree.IsSafeRelative(p.manifestDir.value)
  }

  ghost predicate DirsContained(metas: seq<Metadata>, roots: seq<PackageId>)
    requires |roots| == |metas|
  {
    forall i: nat, v ::
      i < |metas| && Listed(metas[i].nodes, roots[i], v) && v in metas[i].packages ==>
        ContainedDir(metas[i].packages[v])
  }

  predicate NpmIdentified(e: NpmPackage) {
    && NpmName(e).Some? && NpmName(e).value != ""
    && (if IsLocal(e) then IsContainedPathSource(NpmSource(e))
        else IsNpmRegistrySource(e.resolved) && IsSha512Sri(e.integrity))
  }

  lemma CargoIdentified(index: LockIndex, target: string, p: CargoPackage, roles: set<string>)
    requires Describable(index, p) && forall key <- index :: IsSha256(index[key])
    ensures var c := CargoReport(index, target, p, roles); Identified(c.id, c.integrity) <==> ContainedDir(p)
  {
    assert "cargo"[0] != "npm"[0];
    if p.source.None? {
      var source := CargoIdentity(p).source;
      assert source[0] == 'p' && "path:" <= source && CARGO_REGISTRY[0] == 'r';
      assert source[|"path:"|..] == if p.manifestDir.value == "" then "." else p.manifestDir.value;
    }
  }

  lemma CargoIdentifiedAll(cs: seq<Contribution>, index: LockIndex, metas: seq<Metadata>, roots: seq<PackageId>)
    requires |roots| == |metas| == |TARGETS| && ReportsTargets(cs, index, metas, roots)
    requires forall key <- index :: IsSha256(index[key])
    ensures AllIdentified(cs) <==> DirsContained(metas, roots)
  {
    forall c <- cs | DirsContained(metas, roots)
      ensures Identified(c.id, c.integrity)
    {
      var i, v :| 0 <= i < |roots| && ReportsListed(c, index, TARGETS[i], metas[i], roots[i], v);
      CargoIdentified(index, TARGETS[i], metas[i].packages[v], EarnedNames(metas[i].nodes, roots[i], v));
    }
    forall i: nat, v | AllIdentified(cs) && i < |metas| && Listed(metas[i].nodes, roots[i], v) && v in metas[i].packages
      ensures ContainedDir(metas[i].packages[v])
    {
      assert TargetOk(index, metas[i], roots[i]);
      var names := EarnedNames(metas[i].nodes, roots[i], v);
      assert ReportsListed(CargoReport(index, TARGETS[i], metas[i].packages[v], names), index, TARGETS[i], metas[i],
             roots[i], v);
      CargoIdentified(index, TARGETS[i], metas[i].packages[v], names);
    }
  }

  lemma NpmIdentifiedOne(policy: NpmPolicy, e: NpmPackage)
    requires NpmDescribable(policy, e)
    ensures var c := NpmReport(e); Identified(c.id, c.integrity) <==> NpmIdentified(e)
  {
  }

  lemma NpmIdentifiedAll(cs: seq<Contribution>, policy: NpmPolicy, entries: seq<NpmPackage>)
    requires ReportsNpm(cs, entries) && forall e <- entries :: NpmDescribable(policy, e)
    ensures AllIdentified(cs) <==> forall e <- entries :: NpmIdentified(e)
  {
    forall i | 0 <= i < |cs|
      ensures Identified(cs[i].id, cs[i].integrity) <==> NpmIdentified(entries[i])
    {
      assert entries[i] in entries;
      NpmIdentifiedOne(policy, entries[i]);
    }
    assert forall i :: 0 <= i < |cs| ==> cs[i] in cs;
    assert forall i :: 0 <= i < |cs| ==> entries[i] in entries;
  }

  /** Two needed Cargo packages share an identity but not a licence. */
  ghost predicate CargoDisagrees(metas: seq<Metadata>, roots: seq<PackageId>)
    requires |roots| == |metas|
  {
    exists i: nat, v, j: nat, u, id ::
      && Stands(metas, roots, i, v, id) && Stands(metas, roots, j, u, id)
      && metas[i].packages[v].license != metas[j].packages[u].license
  }

  lemma DisagreeingReports(a: Contribution, b: Contribution, index: LockIndex, metas: seq<Metadata>,
                           roots: seq<PackageId>, i: nat, v: PackageId, j: nat, u: PackageId)
    requires |roots| == |metas| == |TARGETS| && i < |roots| && j < |roots|
    requires ReportsListed(a, index, TARGETS[i], metas[i], roots[i], v)
    requires ReportsListed(b, index, TARGETS[j], metas[j], roots[j], u)
    ensures a.id == b.id ==>
              && Stands(metas, roots, i, v, a.id) && Stands(metas, roots, j, u, a.id)
              && (Agree(a, b) <==> metas[i].packages[v].license == metas[j].packages[u].license)
  {
    if a.id == b.id {
      SameSource(index, metas[i].packages[v], metas[j].packages[u]);
    }
  }

  lemma InconsistentCargo(cs: seq<Contribution>, index: LockIndex, metas: seq<Metadata>, roots: seq<PackageId>)
    requires |roots| == |metas| == |TARGETS| && ReportsTargets(cs, index, metas, roots) && !Consistent(cs)
    ensures CargoDisagrees(metas, roots)
  {
    var a, b :| a in cs && b in cs && !Agree(a, b);
    var i, v :| 0 <= i < |roots| && ReportsListed(a, index, TARGETS[i], metas[i], roots[i], v);
    var j, u :| 0 <= j < |roots| && ReportsListed(b, index, TARGETS[j], metas[j], roots[j], u);
    DisagreeingReports(a, b, index, metas, roots, i, v, j, u);
  }

  lemma StandingReport(cs: seq<Contribution>, index: LockIndex, metas: seq<Metadata>, roots: seq<PackageId>,
                       i: nat, v: PackageId, id: Identity) returns (c: Contribution)
    requires |roots| == |metas| == |TARGETS| && ReportsTargets(cs, index, metas, roots)
    requires Stands(metas, roots, i, v, id)
    ensures c in cs && c.id == id && ReportsListed(c, index, TARGETS[i], metas[i], roots[i], v)
  {
    assert TargetOk(index, metas[i], roots[i]);
    c := CargoReport(index, TARGETS[i], metas[i].packages[v], EarnedNames(metas[i].nodes, roots[i], v));
    assert ReportsListed(c, index, TARGETS[i], metas[i], roots[i], v);
  }

  lemma ConsistentCargo(cs: seq<Contribution>, index: LockIndex, metas: seq<Metadata>, roots: seq<PackageId>)
    requires |roots| == |metas| == |TARGETS| && ReportsTargets(cs, index, metas, roots) && Consistent(cs)
    ensures !CargoDisagrees(metas, roots)
  {
    forall i: nat, v, j: nat, u, id | Stands(metas, roots, i, v, id) && Stands(metas, roots, j, u, id)
      ensures metas[i].packages[v].license == metas[j].packages[u].license
    {
      var a := StandingReport(cs, index, metas, roots, i, v, id);
      var b := StandingReport(cs, index, metas, roots, j, u, id);
      DisagreeingReports(a, b, index, metas, roots, i, v, j, u);
    }
  }

  lemma SameSource(index: LockIndex, p: CargoPackage, q: CargoPackage)
    requires Describable(index, p) && Describable(index, q) && CargoIdentity(p) == CargoIdentity(q)
    ensures p.source == q.source
  {
    assert CARGO_REGISTRY[0] == 'r';
    assert p.source.None? ==> CargoIdentity(p).source[0] == 'p';
    assert q.source.None? ==> CargoIdentity(q).source[0] == 'p';
  }

  /** Two npm packages share an identity but not integrity, licence or script flag. */
  predicate NpmDisagrees(entries: seq<NpmPackage>) {
    exists e <- entries, f <- entries ::
      NpmName(e).Some? && NpmName(f).Some? && !Agree(NpmReport(e), NpmReport(f))
  }

  lemma InconsistentNpm(cs: seq<Contribution>, entries: seq<NpmPackage>)
    requires ReportsNpm(cs, entries) && !Consistent(cs)
    ensures NpmDisagrees(entries)
  {
  }

  lemma ConsistentNpm(cs: seq<Contribution>, entries: seq<NpmPackage>)
    requires ReportsNpm(cs, entries) && NpmDisagrees(entries)
    ensures !Consistent(cs)
  {
  }

  predicate RootsOf(metas: seq<Metadata>, roots: seq<PackageId>) {
    |roots| == |metas| && forall i :: 0 <= i < |metas| ==> SoleRoot(metas[i], roots[i])
  }

  /** The Cargo records say exactly what the graphs say, and no package the root needs is missing. */
  ghost predicate Faithful(ds: seq<Dependency>, metas: seq<Metadata>, roots: seq<PackageId>) {
    && RootsOf(metas, roots) && |metas| == |TARGETS|
    && (forall d <- ds :: d.id.ecosystem == "cargo" ==> ReadsGraphs(d, metas, roots))
    && (forall i: nat, v, id :: Stands(metas, roots, i, v, id) ==> id in IdsOfDeps(ds))
  }

  /** An npm record unites the lock packages of its identity and agrees with each of them. */
  ghost predicate ReadsLock(d: Dependency, npm: seq<Contribution>) {
    && (forall name :: name in d.roles <==> name in RolesOf(npm, d.id))
    && (forall target :: target in d.targets <==> target in TargetsOf(npm, d.id))
    && (forall c <- npm :: c.id == d.id ==>
          c.license == d.license && c.integrity == d.integrity && c.installScript == d.installScript)
  }

  function NpmReportsOf(entries: seq<NpmPackage>): seq<Contribution>
    requires forall e <- entries :: NpmName(e).Some?
  {
    seq(|entries|, i requires 0 <= i < |entries| => assert entries[i] in entries; NpmReport(entries[i]))
  }

  /** The lock package goes by this identity: its address if it is installed, its path otherwise. */
  predicate LockedAs(e: NpmPackage, id: Identity) {
    && id.ecosystem == "npm" && NpmName(e) == Some(id.name) && id.version == e.version
    && (Installed(e.path) ==> id.source == e.resolved)
    && (!Installed(e.path) && e.path == "" ==> id.source == "path:.")
    && (!Installed(e.path) && e.path != "" ==> id.source == "path:" + e.path)
  }

  function Positives(items: seq<string>): set<string> {
    set item | item in items && !("!" <= item)
  }

  function Negatives(items: seq<string>): set<string> {
    set item | item in items && "!" <= item :: item[1..]
  }

  /** The list excludes nothing like the candidate, and names it if it names any. */
  predicate Admits(constraint: Option<seq<string>>, candidate: string) {
    constraint.Some? ==>
      && candidate !in Negatives(constraint.value)
      && (Positives(constraint.value) == {} || candidate in Positives(constraint.value))
  }

  lemma AppliesIffAdmits(constraint: Option<seq<string>>, candidate: string)
    requires !("!" <= candidate)
    ensures Applies(constraint, candidate) <==> Admits(constraint, candidate)
  {
    if constraint.Some? {
      var items := constraint.value;
      assert ("!" + candidate)[1..] == candidate;
      assert forall item <- items :: "!" <= item ==> item == "!" + item[1..];
      assert Positives(items) == {} <==> forall item <- items :: "!" <= item by {
        assert forall item <- items :: !("!" <= item) ==> item in Positives(items);
      }
    }
  }

  predicate RunsOn(e: NpmPackage, target: string) {
    || (target == "aarch64-apple-darwin" && Admits(e.os, "darwin") && Admits(e.cpu, "arm64"))
    || (target == "x86_64-apple-darwin" && Admits(e.os, "darwin") && Admits(e.cpu, "x64"))
  }

  /** Built with exactly if some lock package of it is a development one, shipped exactly if some is not. */
  ghost predicate RolesRead(d: Dependency, entries: seq<NpmPackage>) {
    && (forall name <- d.roles :: name == "build" || name == "runtime")
    && ("build" in d.roles <==> exists e <- entries :: LockedAs(e, d.id) && e.dev)
    && ("runtime" in d.roles <==> exists e <- entries :: LockedAs(e, d.id) && !e.dev)
  }

  /** For exactly the targets that the system and processor lists of some lock package of it admit. */
  ghost predicate TargetsRead(d: Dependency, entries: seq<NpmPackage>) {
    forall target :: target in d.targets <==> exists e <- entries :: LockedAs(e, d.id) && RunsOn(e, target)
  }

  /** With the licence and script flag of the lock, and its integrity unless local. */
  predicate ValuesRead(d: Dependency, entries: seq<NpmPackage>) {
    forall e <- entries :: LockedAs(e, d.id) ==>
      && d.license == e.license && d.installScript == e.installScript
      && d.integrity == if "path:" <= d.id.source then None else Some(e.integrity)
  }

  /** An npm record, read off the lock. */
  ghost predicate ReadsEntries(d: Dependency, entries: seq<NpmPackage>) {
    RolesRead(d, entries) && TargetsRead(d, entries) && ValuesRead(d, entries)
  }

  lemma TargetsRunOn(e: NpmPackage, target: string)
    ensures target in NpmTargets(e) <==> RunsOn(e, target)
  {
    assert "!"[0] != "d"[0] && "!"[0] != "a"[0] && "!"[0] != "x"[0];
    AppliesIffAdmits(e.os, "darwin");
    AppliesIffAdmits(e.cpu, "arm64");
    AppliesIffAdmits(e.cpu, "x64");
    assert TARGETS[0] == "aarch64-apple-darwin" && TARGETS[1] == "x86_64-apple-darwin";
    assert CpuOf(TARGETS[0]) == "arm64";
    assert CpuOf(TARGETS[1]) == "x64" by {
      assert TARGETS[1][0] != "aarch64-"[0];
    }
  }

  lemma ReportIsLockedAs(e: NpmPackage, id: Identity)
    requires NpmName(e).Some?
    ensures NpmReport(e).id == id <==> LockedAs(e, id)
  {
  }

  lemma ReportOfEntry(entries: seq<NpmPackage>, c: Contribution) returns (e: NpmPackage)
    requires (forall e <- entries :: NpmName(e).Some?) && c in NpmReportsOf(entries)
    ensures e in entries && NpmName(e).Some? && c == NpmReport(e)
  {
    var i :| 0 <= i < |entries| && NpmReportsOf(entries)[i] == c;
    e := entries[i];
  }

  lemma EntryReported(entries: seq<NpmPackage>, e: NpmPackage)
    requires (forall e <- entries :: NpmName(e).Some?) && e in entries
    ensures NpmReport(e) in NpmReportsOf(entries)
  {
    var i :| 0 <= i < |entries| && entries[i] == e;
    assert NpmReportsOf(entries)[i] == NpmReport(e);
  }

  lemma EntryRoles(d: Dependency, entries: seq<NpmPackage>, name: string)
    requires forall e <- entries :: NpmName(e).Some?
    requires ReadsLock(d, NpmReportsOf(entries))
    ensures name in d.roles <==>
            exists e <- entries :: LockedAs(e, d.id) && name == if e.dev then "build" else "runtime"
  {
    var npm := NpmReportsOf(entries);
    if name in d.roles {
      var c :| c in npm && c.id == d.id && name in c.roles;
      var e := ReportOfEntry(entries, c);
      ReportIsLockedAs(e, d.id);
    }
    if e :| e in entries && LockedAs(e, d.id) && name == if e.dev then "build" else "runtime" {
      EntryReported(entries, e);
      ReportIsLockedAs(e, d.id);
    }
  }

  lemma EntryValues(d: Dependency, entries: seq<NpmPackage>)
    requires forall e <- entries :: NpmName(e).Some?
    requires ReadsLock(d, NpmReportsOf(entries))
    ensures ValuesRead(d, entries)
  {
    forall e <- entries | LockedAs(e, d.id)
      ensures d.license == e.license && d.installScript == e.installScript
      ensures d.integrity == if "path:" <= d.id.source then None else Some(e.integrity)
    {
      EntryReported(entries, e);
      ReportIsLockedAs(e, d.id);
    }
  }

  lemma RolesAreRead(d: Dependency, entries: seq<NpmPackage>)
    requires forall name :: name in d.roles <==>
               exists e <- entries :: LockedAs(e, d.id) && name == if e.dev then "build" else "runtime"
    ensures RolesRead(d, entries)
  {
    assert "build"[0] != "runtime"[0];
    if "build" in d.roles {
      var e :| e in entries && LockedAs(e, d.id) && "build" == if e.dev then "build" else "runtime";
    }
    if "runtime" in d.roles {
      var e :| e in entries && LockedAs(e, d.id) && "runtime" == if e.dev then "build" else "runtime";
    }
  }

  /** What the reports of a lock say is what the lock says. */
  lemma LockReadsEntries(d: Dependency, entries: seq<NpmPackage>)
    requires forall e <- entries :: NpmName(e).Some?
    requires ReadsLock(d, NpmReportsOf(entries))
    ensures ReadsEntries(d, entries)
  {
    forall name
      ensures name in d.roles <==>
              exists e <- entries :: LockedAs(e, d.id) && name == if e.dev then "build" else "runtime"
    {
      EntryRoles(d, entries, name);
    }
    RolesAreRead(d, entries);
    forall target
      ensures target in d.targets <==> exists e <- entries :: LockedAs(e, d.id) && RunsOn(e, target)
    {
      EntryTargets(d, entries, target);
    }
    EntryValues(d, entries);
  }

  lemma EntryTargets(d: Dependency, entries: seq<NpmPackage>, target: string)
    requires forall e <- entries :: NpmName(e).Some?
    requires ReadsLock(d, NpmReportsOf(entries))
    ensures target in d.targets <==> exists e <- entries :: LockedAs(e, d.id) && RunsOn(e, target)
  {
    if target in d.targets {
      var c :| c in NpmReportsOf(entries) && c.id == d.id && target in c.targets;
      var e := ReportOfEntry(entries, c);
      ReportIsLockedAs(e, d.id);
      TargetsRunOn(e, target);
    }
    if e :| e in entries && LockedAs(e, d.id) && RunsOn(e, target) {
      EntryReported(entries, e);
      ReportIsLockedAs(e, d.id);
      TargetsRunOn(e, target);
    }
  }

  /** The npm records say exactly what the lock says, and none is missing. */
  ghost predicate FaithfulNpm(ds: seq<Dependency>, entries: seq<NpmPackage>) {
    && (forall e <- entries :: exists id <- IdsOfDeps(ds) :: LockedAs(e, id))
    && (forall d <- ds :: d.id.ecosystem == "npm" ==> ReadsEntries(d, entries))
  }

  lemma NpmOnly(cargo: seq<Contribution>, npm: seq<Contribution>, id: Identity)
    requires AllOf(cargo, "cargo") && id.ecosystem == "npm"
    ensures RolesOf(cargo + npm, id) == RolesOf(npm, id) && TargetsOf(cargo + npm, id) == TargetsOf(npm, id)
  {
    assert "cargo"[0] != "npm"[0];
    ConcatOf(cargo, npm, id);
  }

  lemma FaithfulNpmRecords(ds: seq<Dependency>, merged: map<Identity, Merged>, cargo: seq<Contribution>,
                           npm: seq<Contribution>,
                           entries: seq<NpmPackage>)
    requires AllOf(cargo, "cargo") && ReportsNpm(npm, entries)
    requires IsMerge(merged, cargo + npm) && FinishesAll(ds, merged)
    ensures FaithfulNpm(ds, entries)
  {
    assert forall e <- entries :: NpmName(e).Some?;
    forall e <- entries
      ensures exists id <- IdsOfDeps(ds) :: LockedAs(e, id)
    {
      var i :| 0 <= i < |entries| && entries[i] == e;
      assert npm[i] in cargo + npm;
      assert npm[i].id in IdsOf(cargo + npm);
      ReportIsLockedAs(e, npm[i].id);
    }
    assert npm == NpmReportsOf(entries);
    forall d <- ds | d.id.ecosystem == "npm"
      ensures ReadsEntries(d, entries)
    {
      NpmOnly(cargo, npm, d.id);
      assert Represents(merged[d.id], cargo + npm, d.id) && Finishes(d, merged[d.id]);
      assert forall c <- npm :: c in cargo + npm;
      LockReadsEntries(d, entries);
    }
  }

  /** Everything the generator reads; `metas` has one entry per target. */
  datatype Inputs = Inputs(
    locked: seq<Locked>, metas: seq<Metadata>, policy: NpmPolicy, entries: seq<NpmPackage>, links: seq<NpmLink>,
    hashes: map<string, string>)

  /** The condition under which the application takes the manifest. */
  ghost predicate Acceptable(inputs: Inputs, roots: seq<PackageId>) {
    && |roots| == |inputs.metas| && HashesOk(inputs.hashes) && DirsContained(inputs.metas, roots)
    && forall e <- inputs.entries :: NpmIdentified(e)
  }

  /** No two packages share an identity and differ in what it stands for. */
  ghost predicate Coherent(inputs: Inputs, roots: seq<PackageId>) {
    |roots| == |inputs.metas| && !CargoDisagrees(inputs.metas, roots) && !NpmDisagrees(inputs.entries)
  }

  lemma FaithfulRecords(ds: seq<Dependency>, merged: map<Identity, Merged>, cargo: seq<Contribution>,
                        npm: seq<Contribution>,
                        index: LockIndex, metas: seq<Metadata>, roots: seq<PackageId>)
    requires |roots| == |metas| == |TARGETS| && ReportsTargets(cargo, index, metas, roots) && AllOf(npm, "npm")
    requires IsMerge(merged, cargo + npm) && FinishesAll(ds, merged)
    ensures Faithful(ds, metas, roots)
  {
    forall d <- ds | d.id.ecosystem == "cargo"
      ensures ReadsGraphs(d, metas, roots)
    {
      RecordReadsGraphs(d, merged[d.id], cargo, npm, index, metas, roots);
    }
    forall i: nat, v, id | Stands(metas, roots, i, v, id)
      ensures id in IdsOfDeps(ds)
    {
      ReportOfStanding(cargo, index, metas, roots, i, v, id);
      ConcatOf(cargo, npm, id);
    }
    assert forall i :: 0 <= i < |metas| ==> TargetOk(index, metas[i], roots[i]);
  }

  /** What the reports hold before they are merged, and where they come from. */
  ghost predicate Gathered(cargo: seq<Contribution>, npm: seq<Contribution>, index: LockIndex, roots: seq<PackageId>,
                           inputs: Inputs) {
    && LockOk(inputs.locked) && Indexes(index, inputs.locked) && TargetsOk(index, inputs.metas)
    && NpmOk(inputs.policy, inputs.entries, inputs.links)
    && |roots| == |inputs.metas| == |TARGETS|
    && ReportsTargets(cargo, index, inputs.metas, roots) && ReportsNpm(npm, inputs.entries)
    && AllOf(cargo, "cargo") && AllOf(npm, "npm")
  }

  lemma AcceptableReports(cargo: seq<Contribution>, npm: seq<Contribution>, index: LockIndex, roots: seq<PackageId>,
                          inputs: Inputs)
    requires Gathered(cargo, npm, index, roots, inputs)
    ensures HashesOk(inputs.hashes) && AllIdentified(cargo + npm) <==> Acceptable(inputs, roots)
  {
    CargoIdentifiedAll(cargo, index, inputs.metas, roots);
    NpmIdentifiedAll(npm, inputs.policy, inputs.entries);
    assert AllIdentified(cargo + npm) <==> AllIdentified(cargo) && AllIdentified(npm);
  }

  lemma ConsistentIffCoherent(cargo: seq<Contribution>, npm: seq<Contribution>, index: LockIndex,
                              roots: seq<PackageId>, inputs: Inputs)
    requires Gathered(cargo, npm, index, roots, inputs)
    ensures Consistent(cargo) && Consistent(npm) <==> Coherent(inputs, roots)
    ensures RootsOf(inputs.metas, roots)
  {
    assert forall i :: 0 <= i < |inputs.metas| ==> TargetOk(index, inputs.metas[i], roots[i]);
    if NpmDisagrees(inputs.entries) {
      ConsistentNpm(npm, inputs.entries);
    } else if !Consistent(npm) {
      InconsistentNpm(npm, inputs.entries);
    }
    if Consistent(cargo) {
      ConsistentCargo(cargo, index, inputs.metas, roots);
    } else {
      InconsistentCargo(cargo, index, inputs.metas, roots);
    }
  }

  /** All lock entries, graphs and npm packages can be described. */
  ghost predicate Reportable(inputs: Inputs) {
    && LockOk(inputs.locked) && NpmOk(inputs.policy, inputs.entries, inputs.links)
    && forall index :: Indexes(index, inputs.locked) ==> TargetsOk(index, inputs.metas)
  }

  /** The inputs a manifest is generated from: all can be described, and none contradicts another. */
  ghost predicate Generates(inputs: Inputs) {
    Reportable(inputs) && !Contradictory(inputs)
  }

  /** What an error says about the inputs. */
  ghost predicate Explains(e: GeneratorError, inputs: Inputs) {
    if e.BadLock? then !LockOk(inputs.locked)
    else if FromTarget(e) then exists index :: Indexes(index, inputs.locked) && !TargetsOk(index, inputs.metas)
    else if FromNpm(e) then !NpmOk(inputs.policy, inputs.entries, inputs.links)
    else
      e.NotMerged? && e.mergeError.Inconsistent? && Contradictory(inputs)
  }

  ghost predicate Contradictory(inputs: Inputs) {
    exists roots :: RootsOf(inputs.metas, roots) && !Coherent(inputs, roots)
  }

  lemma RootsUnique(metas: seq<Metadata>, a: seq<PackageId>, b: seq<PackageId>)
    requires RootsOf(metas, a) && RootsOf(metas, b)
    ensures a == b
  {
    assert forall i :: 0 <= i < |metas| ==> SoleRoot(metas[i], a[i]) && SoleRoot(metas[i], b[i]);
  }

  /** Once everything is gathered, the merge alone decides. */
  lemma GeneratesIffConsistent(cargo: seq<Contribution>, npm: seq<Contribution>, index: LockIndex,
                               roots: seq<PackageId>, inputs: Inputs)
    requires Gathered(cargo, npm, index, roots, inputs) && Reportable(inputs)
    ensures Consistent(cargo) && Consistent(npm) <==> Generates(inputs)
    ensures !Generates(inputs) ==> Contradictory(inputs)
  {
    ConsistentIffCoherent(cargo, npm, index, roots, inputs);
    forall other | RootsOf(inputs.metas, other)
      ensures other == roots
    {
      RootsUnique(inputs.metas, other, roots);
    }
  }

  /** Everything the generator reads, checked and described before anything is merged. */
  method GatherReports(inputs: Inputs)
    returns (result: Result<(seq<Contribution>, seq<Contribution>), GeneratorError>,
             ghost index: LockIndex, ghost roots: seq<PackageId>)
    requires |inputs.metas| == |TARGETS|
    ensures result.Ok? <==> Reportable(inputs)
    ensures result.Ok? ==> Gathered(result.value.0, result.value.1, index, roots, inputs)
    ensures result.Err? ==> !result.error.NotMerged? && Explains(result.error, inputs)
  {
    index, roots := map[], [];
    var indexed := CargoLockIndex(inputs.locked);
    if indexed.Err? {
      return Err(indexed.error), index, roots;
    }
    index := indexed.value;
    var cargo;
    cargo, roots := CargoReports(indexed.value, inputs.metas);
    if cargo.Err? {
      return Err(cargo.error), index, roots;
    }
    var npm := NpmReports(inputs.policy, inputs.entries, inputs.links);
    if npm.Err? {
      return Err(npm.error), index, roots;
    }
    CargoReportsOk(cargo.value, index, inputs.metas, roots);
    forall other | Indexes(other, inputs.locked)
      ensures TargetsOk(other, inputs.metas)
    {
      IndexUnique(index, other, inputs.locked);
    }
    return Ok((cargo.value, npm.value)), index, roots;
  }

  /** A registry record carries the checksum the lock gives its name and version; a local one carries none. */
  ghost predicate ReadsChecksums(ds: seq<Dependency>, inputs: Inputs, roots: seq<PackageId>)
    requires |roots| == |inputs.metas|
  {
    forall d <- ds, i: nat, v :: Stands(inputs.metas, roots, i, v, d.id) ==>
      var p := inputs.metas[i].packages[v];
      if p.source.None? then d.integrity == None else ChecksumOf(inputs.locked, p, d.integrity)
  }

  predicate ChecksumOf(locked: seq<Locked>, p: CargoPackage, integrity: Option<string>) {
    exists q <- locked ::
      q.source == Some(CARGO_REGISTRY) && q.name == p.name && q.version == p.version && q.checksum.Some? &&
      integrity == q.checksum
  }

  lemma ChecksumsRead(ds: seq<Dependency>, merged: map<Identity, Merged>, cargo: seq<Contribution>,
                      npm: seq<Contribution>, index: LockIndex, roots: seq<PackageId>, inputs: Inputs)
    requires Gathered(cargo, npm, index, roots, inputs)
    requires IsMerge(merged, cargo + npm) && FinishesAll(ds, merged)
    ensures ReadsChecksums(ds, inputs, roots)
  {
    forall d <- ds, i: nat, v | Stands(inputs.metas, roots, i, v, d.id)
      ensures var p := inputs.metas[i].packages[v];
              if p.source.None? then d.integrity == None else ChecksumOf(inputs.locked, p, d.integrity)
    {
      var p := inputs.metas[i].packages[v];
      var c := StandingReport(cargo, index, inputs.metas, roots, i, v, d.id);
      assert c in cargo + npm && Represents(merged[d.id], cargo + npm, d.id) && Finishes(d, merged[d.id]);
      if p.source.Some? {
        var q :| q in inputs.locked && q.source.Some? && (q.name, q.version) == (p.name, p.version);
        assert LockedOk(q);
      }
    }
  }

  /** What the manifest says about the graphs and the locks, and when the application takes it. */
  ghost predicate Describes(m: Manifest, inputs: Inputs, roots: seq<PackageId>) {
    && RootsOf(inputs.metas, roots) && m.inputHashes == inputs.hashes
    && Faithful(m.dependencies, inputs.metas, roots) && FaithfulNpm(m.dependencies, inputs.entries)
    && ReadsChecksums(m.dependencies, inputs, roots)
    && (Accepted(m) <==> Acceptable(inputs, roots))
  }

  /**
   The generator from end to end.  It succeeds if and only if all its inputs can be
   described and none contradicts another; a duplicate identity is never the reason to
   fail.  The manifest passes every structural clause of the application's check, its
   Cargo records say exactly which roles their packages earn by walks from the root and
   on which targets, and no package the root needs and none of the npm lock is missing.
   The application takes it if and only if, besides, the workspace directories are
   contained paths and every npm package is named and, unless local, carries a registry
   address and a sha512 integrity.
   */
  method GenerateManifest(inputs: Inputs)
    returns (result: Result<Manifest, GeneratorError>, ghost roots: seq<PackageId>)
    requires |inputs.metas| == |TARGETS|
    ensures result.Ok? <==> Generates(inputs)
    ensures result.Err? ==> Explains(result.error, inputs)
    ensures result.Ok? ==> StructurallyValid(result.value)
    ensures result.Ok? ==> Describes(result.value, inputs, roots)
  {
    var gathered;
    ghost var index;
    gathered, index, roots := GatherReports(inputs);
    if gathered.Err? {
      return Err(gathered.error), roots;
    }
    var (cargo, npm) := gathered.value;
    GeneratesIffConsistent(cargo, npm, index, roots, inputs);
    var built, merged := BuildInventory(cargo, npm, inputs.hashes);
    if built.Err? {
      return Err(NotMerged(built.error)), roots;
    }
    DescribesInputs(built.value, merged, cargo, npm, index, roots, inputs);
    return Ok(built.value), roots;
  }

  lemma DescribesInputs(m: Manifest, merged: map<Identity, Merged>, cargo: seq<Contribution>, npm: seq<Contribution>,
                        index: LockIndex, roots: seq<PackageId>, inputs: Inputs)
    requires Gathered(cargo, npm, index, roots, inputs) && m.inputHashes == inputs.hashes
    requires IsMerge(merged, cargo + npm) && FinishesAll(m.dependencies, merged)
    requires Accepted(m) <==> HashesOk(inputs.hashes) && AllIdentified(cargo + npm)
    ensures Describes(m, inputs, roots)
  {
    AcceptableReports(cargo, npm, index, roots, inputs);
    FaithfulNpmRecords(m.dependencies, merged, cargo, npm, inputs.entries);
    ChecksumsRead(m.dependencies, merged, cargo, npm, index, roots, inputs);
    FaithfulRecords(m.dependencies, merged, cargo, npm, index, inputs.metas, roots);
  }

  // ----- manifests that are generated and refused

  /** A workspace with nothing but the root package, the same on both targets. */
  function RootOnly(): Metadata {
    Metadata(map["root" := CargoPackage(ROOT_PACKAGE, "1.0", FIRST_PARTY_LICENSE, None, Some(""))], map["root" := []])
  }

  function OnePackage(policy: NpmPolicy, e: NpmPackage, hashes: map<string, string>): Inputs {
    Inputs([], [RootOnly(), RootOnly()], policy, [e], [], hashes)
  }

  lemma RootOnlyListed(v: PackageId)
    ensures Listed(RootOnly().nodes, "root", v) <==> v == "root"
  {
    assert IsWalk(RootOnly().nodes, "root", []) && End("root", []) == "root";
    if Listed(RootOnly().nodes, "root", v) {
      var hops :| IsWalk(RootOnly().nodes, "root", hops) && End("root", hops) == v;
      assert RootOnly().nodes["root"] == [];
    }
  }

  lemma RootOnlyOk(index: LockIndex)
    ensures TargetsOk(index, [RootOnly(), RootOnly()])
  {
    var m := RootOnly();
    forall v | Listed(m.nodes, "root", v)
      ensures WellFormedNode(m.nodes, v) && v in m.packages && Describable(index, m.packages[v])
    {
      RootOnlyListed(v);
      assert FIRST_PARTY_LICENSE[0] in FIRST_PARTY_LICENSE && !IsSpace(FIRST_PARTY_LICENSE[0]);
    }
    assert TargetOk(index, m, "root");
  }

  lemma RootOnlyAgrees(metas: seq<Metadata>, roots: seq<PackageId>)
    requires metas == [RootOnly(), RootOnly()] && RootsOf(metas, roots)
    ensures !CargoDisagrees(metas, roots)
  {
    forall i: nat, v, id | Stands(metas, roots, i, v, id)
      ensures metas[i].packages[v].license == FIRST_PARTY_LICENSE
    {
      assert SoleRoot(metas[i], roots[i]);
      RootOnlyListed(v);
    }
  }

  lemma OnePackageOk(policy: NpmPolicy, e: NpmPackage)
    requires NpmDescribable(policy, e) && !e.installScript && policy.allowlist == {}
    ensures NpmOk(policy, [e], []) && !NpmDisagrees([e])
  {
    assert forall f <- [e] :: f == e;
    assert Scripts([e]) == {};
  }

  /** A root and one npm package that can be described are enough for a manifest. */
  lemma OnePackageGenerates(policy: NpmPolicy, e: NpmPackage, hashes: map<string, string>)
    requires NpmDescribable(policy, e) && !e.installScript && policy.allowlist == {}
    ensures Generates(OnePackage(policy, e, hashes))
  {
    var inputs := OnePackage(policy, e, hashes);
    OnePackageOk(policy, e);
    forall index | Indexes(index, inputs.locked)
      ensures TargetsOk(index, inputs.metas)
    {
      RootOnlyOk(index);
    }
    forall roots | RootsOf(inputs.metas, roots)
      ensures Coherent(inputs, roots)
    {
      RootOnlyAgrees(inputs.metas, roots);
    }
  }

  /** If the package is not identified the checker's way, that manifest is refused. */
  lemma OnePackageRefused(policy: NpmPolicy, e: NpmPackage, hashes: map<string, string>)
    requires NpmDescribable(policy, e) && !e.installScript && policy.allowlist == {} && !NpmIdentified(e)
    ensures Refused(OnePackage(policy, e, hashes))
  {
    OnePackageGenerates(policy, e, hashes);
    assert e in OnePackage(policy, e, hashes).entries;
  }

  /** The generator succeeds, and the application refuses what it generates. */
  ghost predicate Refused(inputs: Inputs) {
    Generates(inputs) && forall roots :: RootsOf(inputs.metas, roots) ==> !Acceptable(inputs, roots)
  }

  /** A package installed from the registry, with no constraints. */
  function Registered(path: string, version: string, url: string, integrity: string): NpmPackage {
    NpmPackage(path, None, version, url, "MIT", integrity, false, false, None, None, None)
  }

  predicate PassesPatterns(policy: NpmPolicy, version: string, url: string) {
    && version != "" && policy.exactVersion(version) && url != "" && policy.registryUrl(url)
    && !("path:" <= url) && policy.allowlist == {}
  }

  lemma RegisteredDescribable(policy: NpmPolicy, path: string, version: string, url: string, integrity: string)
    requires PassesPatterns(policy, version, url) && IsSri(integrity)
    requires Installed(path) && NpmNameFromPath(path).Some?
    ensures NpmDescribable(policy, Registered(path, version, url, integrity))
  {
    assert "MIT"[0] in "MIT" && !IsSpace("MIT"[0]);
  }

  lemma Sha256IsSri()
    ensures IsSri("sha256-A=")
  {
    OneToken("sha256-A=");
    assert "A="[..1] == "A" && "A="[1..] == "=";
    assert IsDigestText("A=");
    assert "sha256-A="[7..] == "A=";
  }

  /** A run that succeeds and whose manifest is refused: an npm package with a sha256 integrity. */
  lemma OtherDigestRefused(policy: NpmPolicy, version: string, url: string, hashes: map<string, string>)
    requires PassesPatterns(policy, version, url)
    ensures Refused(OnePackage(policy, Registered("node_modules/a", version, url, "sha256-A="), hashes))
  {
    Sha256IsSri();
    RegisteredDescribable(policy, "node_modules/a", version, url, "sha256-A=");
    OnePackageRefused(policy, Registered("node_modules/a", version, url, "sha256-A="), hashes);
  }

  lemma {:induction false} OneToken(s: string)
    requires s != "" && forall c <- s :: !IsSpace(c)
    ensures Words(s) == [s]
  {
    assert s == [s[0]] + s[1..] && !IsSpace(s[0]);
    if |s| > 1 {
      OneToken(s[1..]);
      assert !IsSpace(s[1]);
      assert [s[1..]][1..] == [];
      assert Words(s) == [[s[0]] + s[1..]] + [];
    } else {
      assert s == [s[0]] && Words(s) == [[s[0]]] + [];
    }
  }

  /**
   Another: a lock path with nothing after `node_modules/` gives the empty name, which only
   the application refuses.
   */
  lemma EmptyNameRefused(policy: NpmPolicy, version: string, url: string, integrity: string, hashes: map<string,
                         string>)
    requires PassesPatterns(policy, version, url) && IsSri(integrity)
    ensures Refused(OnePackage(policy, Registered("node_modules/", version, url, integrity), hashes))
  {
    RegisteredDescribable(policy, "node_modules/", version, url, integrity);
    OnePackageRefused(policy, Registered("node_modules/", version, url, integrity), hashes);
  }
}
