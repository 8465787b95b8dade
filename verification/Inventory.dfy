/**
 The dependency inventory of a release: how the generator merges and orders what the
 package managers report, and what the application's checker demands of the result.
 */
module Inventory {
  import opened Wrappers
  import opened Ordering
  import ResourceTree

  datatype Identity = Identity(ecosystem: string, name: string, version: string, source: string)

  predicate IdentityLess(a: Identity, b: Identity) {
    || StringLess(a.ecosystem, b.ecosystem)
    || (a.ecosystem == b.ecosystem &&
        (|| StringLess(a.name, b.name)
         || (a.name == b.name &&
             (|| StringLess(a.version, b.version)
              || (a.version == b.version && StringLess(a.source, b.source))))))
  }

  lemma IdentityOrder()
    ensures StrictOrder(IdentityLess)
  {
    StringOrder();
  }

  /** What an identity is compared by, most significant first. */
  function Fields(id: Identity): (fields: seq<string>)
    ensures |fields| == 4
  {
    [id.ecosystem, id.name, id.version, id.source]
  }

  /** Identities are ordered by the first field in which they differ. */
  lemma IdentityLessIff(a: Identity, b: Identity)
    ensures IdentityLess(a, b) <==>
            exists k :: 0 <= k < 4 && Fields(a)[..k] == Fields(b)[..k] && StringLess(Fields(a)[k], Fields(b)[k])
  {
    StringOrder();
    var x, y := Fields(a), Fields(b);
    assert forall k :: 0 <= k < 4 ==> (x[..k] == y[..k] <==> forall i :: 0 <= i < k ==> x[i] == y[i]);
    assert x[..0] == y[..0];
    if IdentityLess(a, b) {
      var k := if x[0] != y[0] then 0 else if x[1] != y[1] then 1 else if x[2] != y[2] then 2 else 3;
      assert x[..k] == y[..k] && StringLess(x[k], y[k]);
    }
  }

  const TARGETS: seq<string> := ["aarch64-apple-darwin", "x86_64-apple-darwin"]

  /** One package as reported for one target or one lock entry. */
  datatype Contribution = Contribution(
    id: Identity, integrity: Option<string>, license: string, installScript: bool,
    roles: set<string>, targets: set<string>)

  /** An entry while it is being merged. */
  datatype Merged = Merged(
    integrity: Option<string>, license: string, installScript: bool, roles: set<string>, targets: set<string>)

  /** A finished dependency record. */
  datatype Dependency = Dependency(
    id: Identity, integrity: Option<string>, license: string, installScript: bool,
    roles: seq<string>, targets: seq<string>)

  datatype License = License(id: Identity, license: string)

  datatype Manifest = Manifest(
    dependencyCount: nat, licenseCount: nat, targets: seq<string>, inputHashes: map<string, string>,
    dependencies: seq<Dependency>, licenses: seq<License>)

  datatype InventoryError = Inconsistent(id: Identity) | DuplicateIdentity

  // ----- merging

  predicate Agree(a: Contribution, b: Contribution) {
    a.id == b.id ==> a.integrity == b.integrity && a.license == b.license && a.installScript == b.installScript
  }

  /** No package is reported with two integrities, licences or script flags. */
  predicate Consistent(cs: seq<Contribution>) {
    forall a <- cs, b <- cs :: Agree(a, b)
  }

  function RolesOf(cs: seq<Contribution>, id: Identity): set<string> {
    set c, role | c in cs && c.id == id && role in c.roles :: role
  }

  function TargetsOf(cs: seq<Contribution>, id: Identity): set<string> {
    set c, target | c in cs && c.id == id && target in c.targets :: target
  }

  function IdsOf(cs: seq<Contribution>): set<Identity> {
    set c | c in cs :: c.id
  }

  predicate Represents(m: Merged, cs: seq<Contribution>, id: Identity) {
    && m.roles == RolesOf(cs, id) && m.targets == TargetsOf(cs, id)
    && forall c <- cs :: c.id == id ==>
         c.integrity == m.integrity && c.license == m.license && c.installScript == m.installScript
  }

  /** The merge result: an entry per package, with the union of its roles and targets. */
  predicate IsMerge(merged: map<Identity, Merged>, cs: seq<Contribution>) {
    merged.Keys == IdsOf(cs) && forall id <- merged :: Represents(merged[id], cs, id)
  }

  function Start(c: Contribution): Merged {
    Merged(c.integrity, c.license, c.installScript, {}, {})
  }

  lemma MergeStep(merged: map<Identity, Merged>, cs: seq<Contribution>, c: Contribution, entry: Merged)
    requires IsMerge(merged, cs)
    requires entry == if c.id in merged then merged[c.id] else Start(c)
    requires entry.integrity == c.integrity && entry.license == c.license && entry.installScript == c.installScript
    ensures IsMerge(merged[c.id := entry.(roles := entry.roles + c.roles, targets := entry.targets +
            c.targets)], cs + [c])
  {
  }

  lemma DisagreementFound(merged: map<Identity, Merged>, cs: seq<Contribution>, c: Contribution)
    requires IsMerge(merged, cs) && c.id in merged
    requires var entry := merged[c.id];
             entry.integrity != c.integrity || entry.license != c.license || entry.installScript != c.installScript
    ensures exists d <- cs :: !Agree(d, c)
  {
  }

  /** The merge loop: it fails exactly on inconsistent reports, and otherwise unites them. */
  method MergeContributions(cs: seq<Contribution>) returns (result: Result<map<Identity, Merged>, InventoryError>)
    ensures result.Ok? <==> Consistent(cs)
    ensures result.Ok? ==> IsMerge(result.value, cs)
    ensures result.Err? ==> result.error.Inconsistent?
  {
    var merged: map<Identity, Merged> := map[];
    var i := 0;
    while i < |cs|
      invariant 0 <= i <= |cs| && IsMerge(merged, cs[..i]) && Consistent(cs[..i])
    {
      var c := cs[i];
      assert cs[..i + 1] == cs[..i] + [c];
      var entry := if c.id in merged then merged[c.id] else Start(c);
      if entry.integrity != c.integrity || entry.license != c.license || entry.installScript != c.installScript {
        DisagreementFound(merged, cs[..i], c);
        assert exists d <- cs :: !Agree(d, c);
        return Err(Inconsistent(c.id));
      }
      MergeStep(merged, cs[..i], c, entry);
      AgreesWithAll(merged, cs[..i], c);
      merged := merged[c.id := entry.(roles := entry.roles + c.roles, targets := entry.targets + c.targets)];
      i := i + 1;
    }
    assert cs[..i] == cs;
    return Ok(merged);
  }

  lemma AgreesWithAll(merged: map<Identity, Merged>, cs: seq<Contribution>, c: Contribution)
    requires IsMerge(merged, cs) && Consistent(cs)
    requires c.id in merged ==>
               var entry := merged[c.id];
               entry.integrity == c.integrity && entry.license == c.license && entry.installScript == c.installScript
    ensures Consistent(cs + [c])
  {
  }

  // ----- finishing

  /** The finished record of a package. */
  ghost predicate Finishes(d: Dependency, m: Merged) {
    && d.integrity == m.integrity && d.license == m.license && d.installScript == m.installScript
    && StrictlySorted(StringLess, d.roles) && (forall r :: r in d.roles <==> r in m.roles)
    && StrictlySorted(StringLess, d.targets) && (forall t :: t in d.targets <==> t in m.targets)
  }

  function IdsOfDeps(ds: seq<Dependency>): seq<Identity> {
    seq(|ds|, i requires 0 <= i < |ds| => ds[i].id)
  }

  /** The finished list: one record per merged entry, in strict identity order. */
  ghost predicate FinishesAll(ds: seq<Dependency>, merged: map<Identity, Merged>) {
    && StrictlySorted(IdentityLess, IdsOfDeps(ds))
    && (forall id :: id in IdsOfDeps(ds) <==> id in merged)
    && (forall i :: 0 <= i < |ds| ==> ds[i].id in merged && Finishes(ds[i], merged[ds[i].id]))
  }

  method FinishEntry(id: Identity, m: Merged) returns (d: Dependency)
    ensures d.id == id && Finishes(d, m)
  {
    StringOrder();
    var roles := SortedOf(StringLess, m.roles);
    var targets := SortedOf(StringLess, m.targets);
    d := Dependency(id, m.integrity, m.license, m.installScript, roles, targets);
  }

  /** Records with sorted roles and targets, sorted by identity. */
  method FinalizeEntries(merged: map<Identity, Merged>) returns (ds: seq<Dependency>)
    ensures FinishesAll(ds, merged)
  {
    IdentityOrder();
    var ids := SortedOf(IdentityLess, merged.Keys);
    ds := [];
    var i := 0;
    while i < |ids|
      invariant 0 <= i <= |ids| && |ds| == i
      invariant forall j :: 0 <= j < i ==> ds[j].id == ids[j] && ids[j] in merged && Finishes(ds[j], merged[ids[j]])
    {
      assert ids[i] in ids;
      var d := FinishEntry(ids[i], merged[ids[i]]);
      ds := ds + [d];
      i := i + 1;
    }
    assert IdsOfDeps(ds) == ids;
  }

  // ----- the same reports in any order

  ghost predicate SameElements(cs: seq<Contribution>, ds: seq<Contribution>) {
    forall c :: c in cs <==> c in ds
  }

  lemma MergeUnique(a: map<Identity, Merged>, b: map<Identity, Merged>, cs: seq<Contribution>, ds: seq<Contribution>)
    requires SameElements(cs, ds) && IsMerge(a, cs) && IsMerge(b, ds)
    ensures a == b
  {
    assert IdsOf(cs) == IdsOf(ds);
    forall id <- a
      ensures a[id] == b[id]
    {
      assert RolesOf(cs, id) == RolesOf(ds, id) && TargetsOf(cs, id) == TargetsOf(ds, id);
      assert id in IdsOf(cs);
      var c :| c in cs && c.id == id;
    }
  }

  lemma FinishUnique(x: Dependency, y: Dependency, m: Merged)
    requires x.id == y.id && Finishes(x, m) && Finishes(y, m)
    ensures x == y
  {
    StringOrder();
    SortedUnique(StringLess, x.roles, y.roles);
    SortedUnique(StringLess, x.targets, y.targets);
  }

  /** The finished list does not depend on the order in which targets or lock entries are visited. */
  lemma InventoryOrderIrrelevant(cs: seq<Contribution>, ds: seq<Contribution>, a: map<Identity, Merged>,
                                 b: map<Identity, Merged>, xs: seq<Dependency>, ys: seq<Dependency>)
    requires SameElements(cs, ds) && IsMerge(a, cs) && IsMerge(b, ds)
    requires FinishesAll(xs, a) && FinishesAll(ys, b)
    ensures xs == ys
  {
    MergeUnique(a, b, cs, ds);
    IdentityOrder();
    SortedUnique(IdentityLess, IdsOfDeps(xs), IdsOfDeps(ys));
    assert |xs| == |IdsOfDeps(xs)| == |ys|;
    forall i | 0 <= i < |xs|
      ensures xs[i] == ys[i]
    {
      assert xs[i].id == IdsOfDeps(xs)[i] == IdsOfDeps(ys)[i] == ys[i].id;
      FinishUnique(xs[i], ys[i], a[xs[i].id]);
    }
  }

  // ----- what the checker demands

  const CARGO_REGISTRY := "registry+" + "https://github.com/rust-lang/crates.io-index"
  const NPM_REGISTRY := "https://registry.npmjs.org/"

  predicate IsSha256(s: string) {
    |s| == 64 && forall c <- s :: '0' <= c <= '9' || 'a' <= c <= 'f'
  }

  predicate EndsWith(s: string, suffix: string) {
    |s| >= |suffix| && s[|s| - |suffix|..] == suffix
  }

  predicate IsBase64(c: char) {
    'A' <= c <= 'Z' || 'a' <= c <= 'z' || '0' <= c <= '9' || c == '+' || c == '/'
  }

  predicate IsSha512Sri(s: string) {
    && "sha512-" <= s && |s| == |"sha512-"| + 88 && EndsWith(s, "==")
    && forall c <- s[|"sha512-"|..|s| - 2] :: IsBase64(c)
  }

  predicate IsNpmRegistrySource(s: string) {
    && NPM_REGISTRY <= s && EndsWith(s, ".tgz")
    && '\\' !in s && '?' !in s && '#' !in s && ".." !in ResourceTree.Split(s)
  }

  predicate IsContainedPathSource(s: string) {
    "path:" <= s && var path := s[|"path:"|..]; path == "." || ResourceTree.IsSafeRelative(path)
  }

  /** Where a package comes from decides which integrity it has to carry. */
  predicate SourceOk(id: Identity, integrity: Option<string>) {
    if id.ecosystem == "cargo" && id.source == CARGO_REGISTRY then integrity.Some? && IsSha256(integrity.value)
    else if id.ecosystem == "npm" && IsNpmRegistrySource(id.source) then integrity.Some? && IsSha512Sri(integrity.value)
    else (id.ecosystem == "cargo" || id.ecosystem == "npm") && IsContainedPathSource(id.source) && integrity.None?
  }

  predicate HashesOk(hashes: map<string, string>) {
    hashes != map[] && forall path <- hashes :: ResourceTree.IsSafeRelative(path) && IsSha256(hashes[path])
  }

  /** The clauses of a record that read no name, source or integrity string. */
  predicate DependencyOk(d: Dependency) {
    && (d.id.ecosystem == "cargo" || d.id.ecosystem == "npm")
    && d.id.version != "" && d.id.source != "" && d.license != ""
    && d.roles != [] && NeighboursSorted(StringLess, d.roles)
    && (forall r <- d.roles :: r == "build" || r == "runtime")
    && NeighboursSorted(StringLess, d.targets)
    && (forall t <- d.targets :: t in TARGETS)
    && (d.installScript ==> d.id.ecosystem == "npm")
  }

  function Project(ds: seq<Dependency>): seq<License> {
    seq(|ds|, i requires 0 <= i < |ds| => License(ds[i].id, ds[i].license))
  }

  predicate Identified(id: Identity, integrity: Option<string>) {
    id.name != "" && SourceOk(id, integrity)
  }

  /** The structural clauses: counts, order, roles, targets and the licence projection. */
  predicate StructurallyValid(m: Manifest) {
    && m.dependencyCount == |m.dependencies| && m.licenseCount == |m.licenses|
    && m.targets == TARGETS
    && NeighboursSorted(IdentityLess, IdsOfDeps(m.dependencies))
    && (forall d <- m.dependencies :: DependencyOk(d))
    && m.licenses == Project(m.dependencies)
  }

  /** All that the application demands of a dependency inventory. */
  predicate Accepted(m: Manifest) {
    && StructurallyValid(m) && HashesOk(m.inputHashes)
    && forall d <- m.dependencies :: Identified(d.id, d.integrity)
  }

  predicate RecordOk(d: Dependency) {
    DependencyOk(d) && Identified(d.id, d.integrity)
  }

  /** The records pass, one by one and each after its predecessor. */
  predicate PrefixOk(ds: seq<Dependency>) {
    NeighboursSorted(IdentityLess, IdsOfDeps(ds)) && forall d <- ds :: RecordOk(d)
  }

  lemma PrefixExtends(ds: seq<Dependency>, d: Dependency)
    requires PrefixOk(ds) && RecordOk(d) && (ds != [] ==> IdentityLess(ds[|ds| - 1].id, d.id))
    ensures PrefixOk(ds + [d])
  {
    var ids := IdsOfDeps(ds);
    assert IdsOfDeps(ds + [d]) == ids + [d.id];
    assert ds != [] ==> ids[|ds| - 1] == ds[|ds| - 1].id;
  }

  /** Each record of an acceptable list passes on its own and after its predecessor. */
  lemma RecordsPass(ds: seq<Dependency>, i: nat)
    requires PrefixOk(ds) && i < |ds|
    ensures RecordOk(ds[i]) && (i > 0 ==> IdentityLess(ds[i - 1].id, ds[i].id))
  {
    var ids := IdsOfDeps(ds);
    assert i > 0 ==> IdentityLess(ids[i - 1], ids[i]);
  }

  lemma AcceptedIff(m: Manifest)
    ensures Accepted(m) <==>
            && m.dependencyCount == |m.dependencies| && m.licenseCount == |m.licenses| && m.targets == TARGETS
            && HashesOk(m.inputHashes) && PrefixOk(m.dependencies) && m.licenses == Project(m.dependencies)
  {
  }

  /** The loop of the checker: previous identity, record clauses, projected licences. */
  method ValidateInventory(m: Manifest) returns (ok: bool)
    ensures ok <==> Accepted(m)
  {
    AcceptedIff(m);
    if m.dependencyCount != |m.dependencies| || m.licenseCount != |m.licenses| || m.targets != TARGETS {
      return false;
    }
    if !HashesOk(m.inputHashes) {
      return false;
    }
    ok := ValidateRecords(m.dependencies, m.licenses);
  }

  method ValidateRecords(dependencies: seq<Dependency>, licenses: seq<License>) returns (ok: bool)
    ensures ok <==> PrefixOk(dependencies) && licenses == Project(dependencies)
  {
    var previous: Option<Identity> := None;
    var projected: seq<License> := [];
    var i := 0;
    while i < |dependencies|
      invariant 0 <= i <= |dependencies| && projected == Project(dependencies[..i])
      invariant previous == if i == 0 then None else Some(dependencies[i - 1].id)
      invariant PrefixOk(dependencies[..i])
    {
      var d := dependencies[i];
      assert dependencies[..i + 1] == dependencies[..i] + [d];
      if (previous.Some? && !IdentityLess(previous.value, d.id)) || !RecordOk(d) {
        if PrefixOk(dependencies) {
          RecordsPass(dependencies, i);
        }
        return false;
      }
      PrefixExtends(dependencies[..i], d);
      previous := Some(d.id);
      projected := projected + [License(d.id, d.license)];
      i := i + 1;
    }
    assert dependencies[..i] == dependencies;
    return licenses == projected;
  }

  /** An accepted record, spelled out. */
  predicate Presentable(d: Dependency) {
    && (d.id.ecosystem == "cargo" || d.id.ecosystem == "npm") && (d.installScript ==> d.id.ecosystem == "npm")
    && d.id.name != "" && d.id.version != "" && d.id.source != "" && d.license != ""
    && d.roles in [["build"], ["runtime"], ["build", "runtime"]]
    && (d.targets == [] || d.targets == ["aarch64-apple-darwin"] || d.targets == ["x86_64-apple-darwin"] ||
        d.targets == ["aarch64-apple-darwin", "x86_64-apple-darwin"])
    && (d.integrity.Some? ==> |d.integrity.value| == if d.id.ecosystem == "cargo" then 64 else 95)
    && (d.integrity.None? <==> "path:" <= d.id.source)
  }

  lemma PresentableRecord(d: Dependency)
    requires DependencyOk(d) && Identified(d.id, d.integrity)
    ensures Presentable(d)
  {
    StringOrder();
    NeighboursSuffice(StringLess, d.roles);
    NeighboursSuffice(StringLess, d.targets);
    assert "build"[0] < "runtime"[0] && TARGETS[0][0] < TARGETS[1][0];
    TwoSorted("build", "runtime", d.roles);
    TwoSorted(TARGETS[0], TARGETS[1], d.targets);
    SourcesApart(d);
  }

  lemma SourcesApart(d: Dependency)
    requires Identified(d.id, d.integrity)
    ensures d.integrity.None? <==> "path:" <= d.id.source
  {
    assert CARGO_REGISTRY[0] == 'r' && NPM_REGISTRY[0] == 'h' && "path:"[0] == 'p';
    if "path:" <= d.id.source {
      assert d.id.source[0] == 'p';
      assert d.id.source != CARGO_REGISTRY && !(NPM_REGISTRY <= d.id.source);
    }
  }

  /**
   An accepted manifest, spelled out: strictly increasing identities, so no package twice,
   every record presentable, one licence per record in the same order, and exact counts.
   */
  lemma AcceptedMeans(m: Manifest)
    requires Accepted(m)
    ensures forall i, j :: 0 <= i < j < |m.dependencies| ==> IdentityLess(m.dependencies[i].id, m.dependencies[j].id)
    ensures forall d <- m.dependencies :: Presentable(d)
    ensures m.dependencyCount == m.licenseCount == |m.dependencies| == |m.licenses|
    ensures forall i :: 0 <= i < |m.licenses| ==>
              m.licenses[i].id == m.dependencies[i].id && m.licenses[i].license == m.dependencies[i].license
    ensures m.inputHashes != map[] && forall path <- m.inputHashes :: |m.inputHashes[path]| == 64
  {
    IdentityOrder();
    var ids := IdsOfDeps(m.dependencies);
    NeighboursSuffice(IdentityLess, ids);
    forall i, j | 0 <= i < j < |m.dependencies|
      ensures IdentityLess(m.dependencies[i].id, m.dependencies[j].id)
    {
      assert IdentityLess(ids[i], ids[j]);
    }
    forall d <- m.dependencies
      ensures Presentable(d)
    {
      PresentableRecord(d);
    }
  }

  // ----- the generator

  /** What every report of the generator meets; `InventoryGenerator` derives it from graphs and lock files. */
  predicate ReportOk(c: Contribution) {
    && (c.id.ecosystem == "cargo" || c.id.ecosystem == "npm")
    && c.id.version != "" && c.id.source != "" && c.license != ""
    && c.roles != {} && c.roles <= {"build", "runtime"}
    && (forall t <- c.targets :: t in TARGETS)
    && (c.installScript ==> c.id.ecosystem == "npm")
  }

  lemma SortedHasNeighbours<T>(less: (T, T) -> bool, s: seq<T>)
    requires StrictlySorted(less, s)
    ensures NeighboursSorted(less, s)
  {
  }

  /** A finished record of acceptable reports passes the checker. */
  lemma FinishedIsOk(d: Dependency, m: Merged, cs: seq<Contribution>)
    requires forall c <- cs :: ReportOk(c)
    requires Represents(m, cs, d.id) && d.id in IdsOf(cs) && Finishes(d, m)
    ensures DependencyOk(d)
  {
    var c :| c in cs && c.id == d.id;
    assert ReportOk(c);
    var role :| role in c.roles;
    assert role in RolesOf(cs, d.id) && role in d.roles;
    forall r <- d.roles
      ensures r == "build" || r == "runtime"
    {
      assert r in RolesOf(cs, d.id);
    }
    forall t <- d.targets
      ensures t in TARGETS
    {
      assert t in TargetsOf(cs, d.id);
    }
    SortedHasNeighbours(StringLess, d.roles);
    SortedHasNeighbours(StringLess, d.targets);
  }

  lemma {:induction false} DistinctCount(s: seq<Identity>)
    requires forall i, j :: 0 <= i < j < |s| ==> s[i] != s[j]
    ensures |set x | x in s| == |s|
  {
    if s == [] {
    } else {
      var front, last := s[..|s| - 1], s[|s| - 1];
      DistinctCount(front);
      assert (set x | x in s) == (set x | x in front) + {last};
    }
  }

  /** Identities of one ecosystem are distinct, and the two ecosystems share none. */
  lemma NoDuplicates(a: seq<Dependency>, b: seq<Dependency>)
    requires StrictlySorted(IdentityLess, IdsOfDeps(a)) && StrictlySorted(IdentityLess, IdsOfDeps(b))
    requires forall d <- a :: d.id.ecosystem == "cargo"
    requires forall d <- b :: d.id.ecosystem == "npm"
    ensures |set id | id in IdsOfDeps(a + b)| == |a + b|
  {
    IdentityOrder();
    var ids := IdsOfDeps(a + b);
    forall i, j | 0 <= i < j < |ids|
      ensures ids[i] != ids[j]
    {
      if j < |a| {
        assert IdentityLess(IdsOfDeps(a)[i], IdsOfDeps(a)[j]);
      } else if i >= |a| {
        assert IdentityLess(IdsOfDeps(b)[i - |a|], IdsOfDeps(b)[j - |a|]);
      } else {
        assert a[i] in a && b[j - |a|] in b;
        assert "cargo"[0] != "npm"[0];
      }
    }
    DistinctCount(ids);
  }

  method FindByIdentity(ds: seq<Dependency>, id: Identity) returns (d: Dependency)
    requires id in IdsOfDeps(ds)
    ensures d in ds && d.id == id
  {
    var i := 0;
    while ds[i].id != id
      invariant 0 <= i < |ds| && forall j :: 0 <= j < i ==> IdsOfDeps(ds)[j] != id
      decreases |ds| - i
    {
      assert exists j :: i < j < |ds| && IdsOfDeps(ds)[j] == id;
      i := i + 1;
    }
    return ds[i];
  }

  /** `sorted` by identity of records whose identities are distinct. */
  method SortByIdentity(ds: seq<Dependency>) returns (sorted: seq<Dependency>)
    ensures StrictlySorted(IdentityLess, IdsOfDeps(sorted))
    ensures forall d <- sorted :: d in ds
    ensures forall id :: id in IdsOfDeps(sorted) <==> id in IdsOfDeps(ds)
  {
    IdentityOrder();
    var ids := SortedOf(IdentityLess, set id | id in IdsOfDeps(ds));
    sorted := [];
    var i := 0;
    while i < |ids|
      invariant 0 <= i <= |ids| && |sorted| == i
      invariant forall j :: 0 <= j < i ==> sorted[j].id == ids[j] && sorted[j] in ds
    {
      assert ids[i] in ids;
      var d := FindByIdentity(ds, ids[i]);
      sorted := sorted + [d];
      i := i + 1;
    }
    assert IdsOfDeps(sorted) == ids;
  }

  predicate AllOf(cs: seq<Contribution>, ecosystem: string) {
    forall c <- cs :: ReportOk(c) && c.id.ecosystem == ecosystem
  }

  lemma ConcatOf(cs: seq<Contribution>, ds: seq<Contribution>, id: Identity)
    ensures RolesOf(cs + ds, id) == RolesOf(cs, id) + RolesOf(ds, id)
    ensures TargetsOf(cs + ds, id) == TargetsOf(cs, id) + TargetsOf(ds, id)
    ensures IdsOf(cs + ds) == IdsOf(cs) + IdsOf(ds)
  {
  }

  /** A package only one side reports is represented by that side. */
  lemma ForeignAdds(m: Merged, cs: seq<Contribution>, ds: seq<Contribution>, id: Identity)
    requires Represents(m, cs, id) && id !in IdsOf(ds)
    ensures Represents(m, cs + ds, id) && Represents(m, ds + cs, id)
  {
  }

  lemma EcosystemOfId(cs: seq<Contribution>, ecosystem: string)
    requires AllOf(cs, ecosystem)
    ensures forall id <- IdsOf(cs) :: id.ecosystem == ecosystem
  {
  }

  /** Two ecosystems merge independently of each other. */
  lemma UnionMerge(a: map<Identity, Merged>, cs: seq<Contribution>, b: map<Identity, Merged>, ds: seq<Contribution>)
    requires IsMerge(a, cs) && IsMerge(b, ds) && AllOf(cs, "cargo") && AllOf(ds, "npm")
    ensures a.Keys !! b.Keys && IsMerge(a + b, cs + ds)
  {
    assert "cargo"[0] != "npm"[0];
    EcosystemOfId(cs, "cargo");
    EcosystemOfId(ds, "npm");
    forall id <- a + b
      ensures Represents((a + b)[id], cs + ds, id)
    {
      if id in a {
        ForeignAdds(a[id], cs, ds, id);
      } else {
        ForeignAdds(b[id], ds, cs, id);
      }
    }
    if cs != [] {
      ConcatOf(cs, ds, cs[0].id);
    } else {
      assert cs + ds == ds;
    }
  }

  method EcosystemEntries(cs: seq<Contribution>)
    returns (result: Result<seq<Dependency>, InventoryError>, ghost merged: map<Identity, Merged>)
    ensures result.Ok? <==> Consistent(cs)
    ensures result.Ok? ==> IsMerge(merged, cs) && FinishesAll(result.value, merged)
    ensures result.Err? ==> result.error.Inconsistent?
  {
    var found := MergeContributions(cs);
    if found.Err? {
      return Err(found.error), map[];
    }
    var entries := FinalizeEntries(found.value);
    return Ok(entries), found.value;
  }

  lemma EntriesOf(ds: seq<Dependency>, merged: map<Identity, Merged>, cs: seq<Contribution>, ecosystem: string)
    requires IsMerge(merged, cs) && FinishesAll(ds, merged) && AllOf(cs, ecosystem)
    ensures forall d <- ds :: d.id.ecosystem == ecosystem
  {
  }

  lemma SortedFinishes(sorted: seq<Dependency>, x: seq<Dependency>, y: seq<Dependency>,
                       a: map<Identity, Merged>, b: map<Identity, Merged>)
    requires FinishesAll(x, a) && FinishesAll(y, b) && a.Keys !! b.Keys
    requires StrictlySorted(IdentityLess, IdsOfDeps(sorted))
    requires forall d <- sorted :: d in x + y
    requires forall id :: id in IdsOfDeps(sorted) <==> id in IdsOfDeps(x + y)
    ensures FinishesAll(sorted, a + b)
  {
    assert IdsOfDeps(x + y) == IdsOfDeps(x) + IdsOfDeps(y);
    forall i | 0 <= i < |sorted|
      ensures sorted[i].id in a + b && Finishes(sorted[i], (a + b)[sorted[i].id])
    {
      assert sorted[i] in sorted;
      if sorted[i] in y {
        assert sorted[i].id in b;
      }
    }
  }

  function ManifestOf(ds: seq<Dependency>, hashes: map<string, string>): Manifest {
    Manifest(|ds|, |Project(ds)|, TARGETS, hashes, ds, Project(ds))
  }

  predicate AllIdentified(cs: seq<Contribution>) {
    forall c <- cs :: Identified(c.id, c.integrity)
  }

  lemma IdentifiedReports(ds: seq<Dependency>, merged: map<Identity, Merged>, cs: seq<Contribution>)
    requires IsMerge(merged, cs) && FinishesAll(ds, merged)
    ensures AllIdentified(cs) <==> forall d <- ds :: Identified(d.id, d.integrity)
  {
    forall d <- ds | AllIdentified(cs)
      ensures Identified(d.id, d.integrity)
    {
      assert d.id in IdsOf(cs);
      var c :| c in cs && c.id == d.id;
    }
    forall c <- cs | forall d <- ds :: Identified(d.id, d.integrity)
      ensures Identified(c.id, c.integrity)
    {
      assert c.id in merged && c.id in IdsOfDeps(ds);
      var i :| 0 <= i < |ds| && IdsOfDeps(ds)[i] == c.id;
      assert ds[i] in ds && Represents(merged[c.id], cs, c.id);
    }
  }

  /**
   Whatever finishes the merge of the generator's reports passes every structural clause of
   the checker, and all of it exactly when every report is named and its source carries
   the integrity the checker knows.
   */
  lemma FinishedIsValid(ds: seq<Dependency>, merged: map<Identity, Merged>, cs: seq<Contribution>, hashes: map<string,
                        string>)
    requires IsMerge(merged, cs) && FinishesAll(ds, merged) && forall c <- cs :: ReportOk(c)
    ensures StructurallyValid(ManifestOf(ds, hashes))
    ensures Accepted(ManifestOf(ds, hashes)) <==> HashesOk(hashes) && AllIdentified(cs)
  {
    SortedHasNeighbours(IdentityLess, IdsOfDeps(ds));
    IdentifiedReports(ds, merged, cs);
    forall d <- ds
      ensures DependencyOk(d)
    {
      FinishedIsOk(d, merged[d.id], cs);
    }
  }

  /**
   The dependency part of `build_manifest`.  The duplicate check never fires, the only
   failure is an inconsistent report, and whatever is generated lists exactly the
   reported packages, passes the application's structural check, and is accepted exactly
   when the reports are identified the checker's way.
   */
  method BuildInventory(cargo: seq<Contribution>, npm: seq<Contribution>, hashes: map<string, string>)
    returns (result: Result<Manifest, InventoryError>, ghost merged: map<Identity, Merged>)
    requires AllOf(cargo, "cargo") && AllOf(npm, "npm")
    ensures result.Err? ==> result.error.Inconsistent?
    ensures result.Ok? <==> Consistent(cargo) && Consistent(npm)
    ensures result.Ok? ==> StructurallyValid(result.value) && result.value.inputHashes == hashes
    ensures result.Ok? ==> (Accepted(result.value) <==> HashesOk(hashes) && AllIdentified(cargo + npm))
    ensures result.Ok? ==> IsMerge(merged, cargo + npm) && FinishesAll(result.value.dependencies, merged)
  {
    var cargoEntries, cargoMerged := EcosystemEntries(cargo);
    if cargoEntries.Err? {
      return Err(cargoEntries.error), map[];
    }
    var npmEntries, npmMerged := EcosystemEntries(npm);
    if npmEntries.Err? {
      return Err(npmEntries.error), map[];
    }
    var reported := cargoEntries.value + npmEntries.value;
    EntriesOf(cargoEntries.value, cargoMerged, cargo, "cargo");
    EntriesOf(npmEntries.value, npmMerged, npm, "npm");
    NoDuplicates(cargoEntries.value, npmEntries.value);
    if |set id | id in IdsOfDeps(reported)| != |reported| {
      return Err(DuplicateIdentity), map[];
    }
    var dependencies := SortByIdentity(reported);
    UnionMerge(cargoMerged, cargo, npmMerged, npm);
    SortedFinishes(dependencies, cargoEntries.value, npmEntries.value, cargoMerged, npmMerged);
    merged := cargoMerged + npmMerged;
    FinishedIsValid(dependencies, merged, cargo + npm, hashes);
    var licenses := Project(dependencies);
    result := Ok(Manifest(|dependencies|, |licenses|, TARGETS, hashes, dependencies, licenses));
  }
}
