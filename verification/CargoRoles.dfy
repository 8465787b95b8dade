/**
 Role propagation over the resolved Cargo graph: the worklist loop of the supply-chain
 generator and the reachability it computes.
 */
module CargoRoles {
  import opened Wrappers

  type PackageId = string

  datatype DepKind = Normal | Build | Dev | Unsupported(name: string)

  datatype Dep = Dep(pkg: PackageId, kinds: seq<DepKind>)

  /** The resolve nodes: the dependencies of each package, by id. */
  type Graph = map<PackageId, seq<Dep>>

  datatype Role = RuntimeRole | BuildRole

  datatype GraphError = MissingNode(id: PackageId) | UnsupportedKind(id: PackageId)

  // ----- reachability

  /** One edge of a walk; `build` says which of its kinds is followed. */
  datatype Hop = Hop(build: bool, to: PackageId)

  predicate Follows(dep: Dep, hop: Hop) {
    dep.pkg == hop.to && (if hop.build then Build else Normal) in dep.kinds
  }

  predicate IsWalk(g: Graph, from: PackageId, hops: seq<Hop>)
    decreases |hops|
  {
    hops == [] ||
    (from in g && (exists dep <- g[from] :: Follows(dep, hops[0])) && IsWalk(g, hops[0].to, hops[1..]))
  }

  function End(from: PackageId, hops: seq<Hop>): PackageId {
    if hops == [] then from else hops[|hops| - 1].to
  }

  predicate UsesBuild(hops: seq<Hop>) {
    exists hop <- hops :: hop.build
  }

  /** `v` is reached from `root` by normal and build edges only. */
  ghost predicate Listed(g: Graph, root: PackageId, v: PackageId) {
    exists hops :: IsWalk(g, root, hops) && End(root, hops) == v
  }

  /** Runtime: some walk of normal edges only.  Build: some walk that uses a build edge. */
  ghost predicate Earned(g: Graph, root: PackageId, v: PackageId, role: Role) {
    exists hops :: IsWalk(g, root, hops) && End(root, hops) == v && UsesBuild(hops) == role.BuildRole?
  }

  predicate Supported(kinds: seq<DepKind>) {
    forall kind <- kinds :: !kind.Unsupported?
  }

  predicate WellFormedNode(g: Graph, v: PackageId) {
    v in g && forall dep <- g[v] :: Supported(dep.kinds)
  }

  lemma {:induction false} AppendHop(g: Graph, from: PackageId, hops: seq<Hop>, hop: Hop)
    requires IsWalk(g, from, hops)
    requires End(from, hops) in g && exists dep <- g[End(from, hops)] :: Follows(dep, hop)
    ensures IsWalk(g, from, hops + [hop]) && End(from, hops + [hop]) == hop.to
    decreases |hops|
  {
    if hops == [] {
      assert (hops + [hop])[1..] == [];
    } else {
      AppendHop(g, hops[0].to, hops[1..], hop);
      assert (hops + [hop])[1..] == hops[1..] + [hop];
    }
  }

  // ----- what a processed package hands on

  function Given(parentRoles: set<Role>, kinds: set<DepKind>): set<Role> {
    (if Normal in kinds then parentRoles else {}) + (if Build in kinds then {BuildRole} else {})
  }

  function KindSet(kinds: seq<DepKind>): set<DepKind> {
    set kind | kind in kinds && !kind.Dev?
  }

  type Roles = map<PackageId, set<Role>>

  predicate HandsOn(roles: Roles, from: PackageId, dep: Dep) {
    from in roles &&
    forall role <- Given(roles[from], KindSet(dep.kinds)) :: dep.pkg in roles && role in roles[dep.pkg]
  }

  /** The package is well formed and everything it owes its dependencies has been handed on. */
  predicate Settled(g: Graph, roles: Roles, v: PackageId) {
    WellFormedNode(g, v) && forall dep <- g[v] :: HandsOn(roles, v, dep)
  }

  ghost predicate AllEarned(g: Graph, root: PackageId, roles: Roles) {
    forall v <- roles :: roles[v] != {} && forall role <- roles[v] :: Earned(g, root, v, role)
  }

  function Assign(roles: Roles, v: PackageId, more: set<Role>): Roles {
    roles[v := (if v in roles then roles[v] else {}) + more]
  }

  /** Roles handed along an edge of a package whose roles are earned are earned. */
  lemma GivenEarned(g: Graph, root: PackageId, v: PackageId, roles: set<Role>, dep: Dep, role: Role)
    requires v in g && dep in g[v]
    requires roles != {} && forall r <- roles :: Earned(g, root, v, r)
    requires role in Given(roles, KindSet(dep.kinds))
    ensures Earned(g, root, dep.pkg, role)
  {
    if Normal in dep.kinds && role in roles {
      var hops :| IsWalk(g, root, hops) && End(root, hops) == v && UsesBuild(hops) == role.BuildRole?;
      var hop := Hop(false, dep.pkg);
      assert Follows(dep, hop);
      AppendHop(g, root, hops, hop);
      assert UsesBuild(hops + [hop]) == UsesBuild(hops);
    } else {
      var r :| r in roles;
      var hops :| IsWalk(g, root, hops) && End(root, hops) == v && UsesBuild(hops) == r.BuildRole?;
      var hop := Hop(true, dep.pkg);
      assert Follows(dep, hop);
      AppendHop(g, root, hops, hop);
      assert hop in hops + [hop];
    }
  }

  /** Once every package is settled, roles travel along every walk. */
  lemma {:induction false} SettledCovers(g: Graph, roles: Roles, from: PackageId, hops: seq<Hop>)
    requires forall v <- roles :: roles[v] != {} && Settled(g, roles, v)
    requires from in roles && IsWalk(g, from, hops)
    ensures End(from, hops) in roles
    ensures !UsesBuild(hops) ==> roles[from] <= roles[End(from, hops)]
    ensures UsesBuild(hops) || BuildRole in roles[from] ==> BuildRole in roles[End(from, hops)]
    decreases |hops|
  {
    if hops == [] {
    } else {
      var dep :| dep in g[from] && Follows(dep, hops[0]);
      assert HandsOn(roles, from, dep);
      var given := Given(roles[from], KindSet(dep.kinds));
      if hops[0].build {
        assert BuildRole in given;
      } else {
        assert roles[from] <= given;
        var r :| r in roles[from];
        assert r in given;
      }
      SettledCovers(g, roles, hops[0].to, hops[1..]);
      assert End(from, hops) == End(hops[0].to, hops[1..]);
      assert forall hop <- hops[1..] :: hop in hops;
      assert UsesBuild(hops) ==> hops[0].build || UsesBuild(hops[1..]);
      assert hops[0].build ==> UsesBuild(hops);
    }
  }

  // ----- termination of the worklist

  /** Everything that can ever get a role. */
  function Universe(g: Graph, root: PackageId): set<PackageId> {
    {root} + set v, i | v in g && 0 <= i < |g[v]| :: g[v][i].pkg
  }

  function Unassigned(universe: set<PackageId>, roles: Roles): set<(PackageId, Role)> {
    set v, role | v in universe && role in {RuntimeRole, BuildRole} && !(v in roles && role in roles[v]) :: (v, role)
  }

  lemma AssignShrinks(universe: set<PackageId>, roles: Roles, v: PackageId, more: set<Role>, role: Role)
    requires v in universe && role in more && !(v in roles && role in roles[v])
    ensures Unassigned(universe, Assign(roles, v, more)) < Unassigned(universe, roles)
  {
    assert role in {RuntimeRole, BuildRole};
    assert (v, role) in Unassigned(universe, roles);
    assert (v, role) !in Unassigned(universe, Assign(roles, v, more));
  }

  // ----- the worklist

  method CollectKinds(kinds: seq<DepKind>) returns (supported: bool, collected: set<DepKind>)
    ensures supported <==> Supported(kinds)
    ensures supported ==> collected == KindSet(kinds)
  {
    collected := {};
    var i := 0;
    while i < |kinds|
      invariant 0 <= i <= |kinds|
      invariant Supported(kinds[..i]) && collected == KindSet(kinds[..i])
    {
      assert kinds[..i + 1] == kinds[..i] + [kinds[i]];
      match kinds[i] {
        case Dev =>
        case Unsupported(_) =>
          assert kinds[i] in kinds;
          return false, collected;
        case _ =>
          collected := collected + {kinds[i]};
      }
      i := i + 1;
    }
    assert kinds[..i] == kinds;
    return true, collected;
  }

  /** Packages outside the queue are settled, except the one being processed. */
  ghost predicate SettledOutside(g: Graph, roles: Roles, queue: seq<PackageId>, current: Option<PackageId>) {
    forall v <- roles :: v !in queue && current != Some(v) ==> Settled(g, roles, v)
  }

  /** Handing new roles to a package that joins the queue unsettles nobody else. */
  lemma AssignKeepsSettled(g: Graph, roles: Roles, queue: seq<PackageId>, current: Option<PackageId>,
                           child: PackageId, more: set<Role>)
    requires SettledOutside(g, roles, queue, current)
    ensures SettledOutside(g, Assign(roles, child, more), queue + [child], current)
  {
  }

  /** What holds between any two steps of the worklist loop. */
  ghost predicate WorklistInv(g: Graph, root: PackageId, roles: Roles, queue: seq<PackageId>) {
    && root in roles && RuntimeRole in roles[root]
    && AllEarned(g, root, roles)
    && (forall v <- queue :: v in roles)
  }

  /** The loop made progress: nothing changed, or some package gained a role it lacked. */
  ghost predicate Progress(universe: set<PackageId>, before: Roles, beforeQueue: seq<PackageId>,
                           after: Roles, afterQueue: seq<PackageId>) {
    (after == before && afterQueue == beforeQueue) || Unassigned(universe, after) < Unassigned(universe, before)
  }

  lemma AssignKeepsEarned(g: Graph, root: PackageId, roles: Roles, queue: seq<PackageId>, v: PackageId, dep: Dep,
                          more: set<Role>)
    requires WorklistInv(g, root, roles, queue) && v in roles && v in g && dep in g[v]
    requires more != {} && more <= Given(roles[v], KindSet(dep.kinds))
    ensures WorklistInv(g, root, Assign(roles, dep.pkg, more), queue + [dep.pkg])
  {
    forall role <- more
      ensures Earned(g, root, dep.pkg, role)
    {
      GivenEarned(g, root, v, roles[v], dep, role);
    }
    var roles' := Assign(roles, dep.pkg, more);
    forall u <- roles'
      ensures roles'[u] != {} && forall role <- roles'[u] :: Earned(g, root, u, role)
    {
      if u == dep.pkg && u !in roles {
        assert roles'[u] == more;
      }
    }
  }

  /** The package at hand has handed on its first `n` dependencies, or is queued again. */
  predicate HandedOn(g: Graph, roles: Roles, queue: seq<PackageId>, v: PackageId, n: nat)
    requires v in g && n <= |g[v]|
  {
    v in queue || forall j :: 0 <= j < n ==> HandsOn(roles, v, g[v][j])
  }

  function MissingRoles(roles: Roles, v: PackageId, dep: Dep): set<Role>
    requires v in roles
  {
    Given(roles[v], KindSet(dep.kinds)) - (if dep.pkg in roles then roles[dep.pkg] else {})
  }

  lemma NothingMissing(g: Graph, roles: Roles, queue: seq<PackageId>, v: PackageId, i: nat)
    requires v in roles && v in g && i < |g[v]| && HandedOn(g, roles, queue, v, i)
    requires MissingRoles(roles, v, g[v][i]) == {}
    ensures HandedOn(g, roles, queue, v, i + 1)
  {
    var dep := g[v][i];
    forall role <- Given(roles[v], KindSet(dep.kinds))
      ensures dep.pkg in roles && role in roles[dep.pkg]
    {
      assert role !in MissingRoles(roles, v, dep);
    }
  }

  lemma HandOnMissing(g: Graph, roles: Roles, queue: seq<PackageId>, v: PackageId, i: nat)
    requires v in roles && v in g && i < |g[v]| && HandedOn(g, roles, queue, v, i)
    ensures var dep := g[v][i];
            var roles' := Assign(roles, dep.pkg, MissingRoles(roles, v, dep));
            v in roles' && HandedOn(g, roles', queue + [dep.pkg], v, i + 1)
  {
  }

  lemma MissingShrinks(g: Graph, root: PackageId, roles: Roles, v: PackageId, i: nat)
    requires v in roles && v in g && i < |g[v]| && MissingRoles(roles, v, g[v][i]) != {}
    ensures var dep := g[v][i];
            Unassigned(Universe(g, root), Assign(roles, dep.pkg, MissingRoles(roles, v, dep))) <
            Unassigned(Universe(g, root), roles)
  {
    var dep := g[v][i];
    var role :| role in MissingRoles(roles, v, dep);
    assert dep.pkg in Universe(g, root);
    AssignShrinks(Universe(g, root), roles, dep.pkg, MissingRoles(roles, v, dep), role);
  }

  /** The body of the worklist loop for a package that has a resolve node. */
  method ProcessPackage(g: Graph, root: PackageId, roles: Roles, queue: seq<PackageId>, v: PackageId)
    returns (ok: bool, roles': Roles, queue': seq<PackageId>)
    requires WorklistInv(g, root, roles, queue) && v in roles && v in g
    requires SettledOutside(g, roles, queue, Some(v))
    ensures ok <==> WellFormedNode(g, v)
    ensures ok ==> WorklistInv(g, root, roles', queue') && SettledOutside(g, roles', queue', None)
    ensures ok ==> Progress(Universe(g, root), roles, queue, roles', queue')
  {
    roles', queue' := roles, queue;
    var i := 0;
    while i < |g[v]|
      invariant 0 <= i <= |g[v]|
      invariant WorklistInv(g, root, roles', queue') && v in roles'
      invariant SettledOutside(g, roles', queue', Some(v))
      invariant forall j :: 0 <= j < i ==> Supported(g[v][j].kinds)
      invariant HandedOn(g, roles', queue', v, i)
      invariant Progress(Universe(g, root), roles, queue, roles', queue')
    {
      var dep := g[v][i];
      var supported, kinds := CollectKinds(dep.kinds);
      if !supported {
        return false, roles', queue';
      }
      var missing := Given(roles'[v], kinds) - (if dep.pkg in roles' then roles'[dep.pkg] else {});
      if missing == {} {
        NothingMissing(g, roles', queue', v, i);
      } else {
        AssignKeepsEarned(g, root, roles', queue', v, dep, missing);
        AssignKeepsSettled(g, roles', queue', Some(v), dep.pkg, missing);
        HandOnMissing(g, roles', queue', v, i);
        MissingShrinks(g, root, roles', v, i);
        roles', queue' := Assign(roles', dep.pkg, missing), queue' + [dep.pkg];
      }
      i := i + 1;
    }
    AllHandedOn(g, roles', queue', v);
    return true, roles', queue';
  }

  lemma AllHandedOn(g: Graph, roles: Roles, queue: seq<PackageId>, v: PackageId)
    requires WellFormedNode(g, v) && HandedOn(g, roles, queue, v, |g[v]|)
    requires SettledOutside(g, roles, queue, Some(v))
    ensures SettledOutside(g, roles, queue, None)
  {
  }

  /**
   The worklist ends on every finite graph, cyclic or not.  It fails exactly when a
   package it reaches has no node or an unsupported edge, and otherwise assigns
   exactly the roles that walks from the root earn.
   */
  method PropagateRoles(g: Graph, root: PackageId) returns (result: Result<Roles, GraphError>)
    ensures result.Ok? <==> forall v :: Listed(g, root, v) ==> WellFormedNode(g, v)
    ensures result.Ok? ==> forall v :: v in result.value <==> Listed(g, root, v)
    ensures result.Ok? ==> forall v <- result.value, role :: role in result.value[v] <==> Earned(g, root, v, role)
    ensures result.Err? ==> Listed(g, root, result.error.id) && !WellFormedNode(g, result.error.id)
  {
    var roles: Roles := map[root := {RuntimeRole}];
    var queue := [root];
    RootEarned(g, root);
    while queue != []
      invariant WorklistInv(g, root, roles, queue)
      invariant SettledOutside(g, roles, queue, None)
      decreases Unassigned(Universe(g, root), roles), |queue|
    {
      var v := queue[0];
      ghost var rest := queue[1..];
      assert queue == [v] + rest;
      EarnedListed(g, root, roles, v);
      if v !in g {
        return Err(MissingNode(v));
      }
      var ok, roles', queue' := ProcessPackage(g, root, roles, queue[1..], v);
      if !ok {
        return Err(UnsupportedKind(v));
      }
      roles, queue := roles', queue';
    }
    Fixpoint(g, root, roles);
    return Ok(roles);
  }

  lemma RootEarned(g: Graph, root: PackageId)
    ensures Earned(g, root, root, RuntimeRole)
  {
    assert IsWalk(g, root, []) && End(root, []) == root && !UsesBuild([]);
  }

  lemma EarnedListed(g: Graph, root: PackageId, roles: Roles, v: PackageId)
    requires AllEarned(g, root, roles) && v in roles
    ensures Listed(g, root, v)
  {
  }

  /** With an empty queue the roles are exactly what walks earn. */
  lemma Fixpoint(g: Graph, root: PackageId, roles: Roles)
    requires WorklistInv(g, root, roles, []) && SettledOutside(g, roles, [], None)
    ensures forall v :: Listed(g, root, v) <==> v in roles
    ensures forall v <- roles :: WellFormedNode(g, v)
    ensures forall v <- roles, role :: role in roles[v] <==> Earned(g, root, v, role)
  {
    forall v <- roles
      ensures Settled(g, roles, v)
    {
    }
    forall v
      ensures Listed(g, root, v) <==> v in roles
    {
      if Listed(g, root, v) {
        var hops :| IsWalk(g, root, hops) && End(root, hops) == v;
        SettledCovers(g, roles, root, hops);
      } else if v in roles {
        EarnedListed(g, root, roles, v);
      }
    }
    forall v <- roles, role | Earned(g, root, v, role)
      ensures role in roles[v]
    {
      var hops :| IsWalk(g, root, hops) && End(root, hops) == v && UsesBuild(hops) == role.BuildRole?;
      SettledCovers(g, roles, root, hops);
    }
  }
}
