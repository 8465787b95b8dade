/**
 The phase dependency check of the work-packet harness: a depth-first search that
 reports unknown dependencies and cycles.
 */
module PhaseGraph {

  type PhaseId = string

  /** `depends_on` of each phase of the manifest. */
  type Phases = map<PhaseId, seq<PhaseId>>

  datatype PhaseError = UnknownDependency(phase: PhaseId, dependency: PhaseId) | CycleIncludes(phase: PhaseId)

  /** A dependency on a known phase. */
  predicate Edge(phases: Phases, u: PhaseId, v: PhaseId) {
    u in phases && v in phases[u] && v in phases
  }

  predicate IsPath(phases: Phases, path: seq<PhaseId>) {
    forall i :: 0 <= i < |path| - 1 ==> Edge(phases, path[i], path[i + 1])
  }

  predicate IsCycle(phases: Phases, path: seq<PhaseId>) {
    |path| >= 2 && path[0] == path[|path| - 1] && IsPath(phases, path)
  }

  ghost predicate OnCycle(phases: Phases, p: PhaseId) {
    exists path :: IsCycle(phases, path) && path[0] == p
  }

  ghost predicate Acyclic(phases: Phases) {
    forall path :: !IsCycle(phases, path)
  }

  predicate AllKnown(phases: Phases) {
    forall p <- phases, d <- phases[p] :: d in phases
  }

  predicate Distinct(s: seq<PhaseId>) {
    forall i, j :: 0 <= i < j < |s| ==> s[i] != s[j]
  }

  // ----- a finishing order rules cycles out

  /** Every known dependency of a finished phase finished before it. */
  ghost predicate FinishingOrder(phases: Phases, order: seq<PhaseId>) {
    && Distinct(order)
    && forall i, v :: 0 <= i < |order| && Edge(phases, order[i], v) ==> v in order[..i]
  }

  lemma {:induction false} PathDescends(phases: Phases, order: seq<PhaseId>, path: seq<PhaseId>, i: nat)
    returns (j: nat)
    requires FinishingOrder(phases, order) && IsPath(phases, path)
    requires |path| >= 1 && i < |order| && path[0] == order[i]
    ensures j <= i && order[j] == path[|path| - 1]
    ensures |path| >= 2 ==> j < i
    decreases |path|
  {
    if |path| == 1 {
      return i;
    }
    assert Edge(phases, path[0], path[1]);
    var k :| 0 <= k < i && order[k] == path[1];
    assert IsPath(phases, path[1..]) by {
      forall m | 0 <= m < |path[1..]| - 1
        ensures Edge(phases, path[1..][m], path[1..][m + 1])
      {
        assert Edge(phases, path[m + 1], path[m + 2]);
      }
    }
    j := PathDescends(phases, order, path[1..], k);
  }

  lemma AppendFinished(phases: Phases, order: seq<PhaseId>, p: PhaseId)
    requires FinishingOrder(phases, order) && p !in order
    requires forall v :: Edge(phases, p, v) ==> v in order
    ensures FinishingOrder(phases, order + [p])
  {
    var longer := order + [p];
    forall i, v | 0 <= i < |longer| && Edge(phases, longer[i], v)
      ensures v in longer[..i]
    {
      assert longer[..i] == order[..i];
      assert order[..|order|] == order;
    }
  }

  lemma OrderedIsAcyclic(phases: Phases, order: seq<PhaseId>)
    requires FinishingOrder(phases, order)
    requires forall p <- phases :: p in order
    ensures Acyclic(phases)
  {
    forall path
      ensures !IsCycle(phases, path)
    {
      if IsCycle(phases, path) {
        assert Edge(phases, path[0], path[1]);
        var i :| 0 <= i < |order| && order[i] == path[0];
        var j := PathDescends(phases, order, path, i);
        assert false;
      }
    }
  }

  /** Meeting a phase that is on the search stack closes a cycle through it. */
  lemma StackClosesCycle(phases: Phases, stack: seq<PhaseId>, p: PhaseId)
    requires IsPath(phases, stack) && p in stack && Edge(phases, stack[|stack| - 1], p)
    ensures OnCycle(phases, p)
  {
    var i :| 0 <= i < |stack| && stack[i] == p;
    var path := stack[i..] + [p];
    forall m | 0 <= m < |path| - 1
      ensures Edge(phases, path[m], path[m + 1])
    {
      if m < |stack| - i - 1 {
        assert Edge(phases, stack[i + m], stack[i + m + 1]);
      }
    }
    assert IsCycle(phases, path);
  }

  // ----- the search

  predicate CycleFree(errors: seq<PhaseError>) {
    forall e <- errors :: !e.CycleIncludes?
  }

  /** From index `n` on there are only reports of phases that are on a cycle. */
  ghost predicate CycleReports(phases: Phases, errors: seq<PhaseError>, n: nat) {
    forall i :: n <= i < |errors| ==> errors[i].CycleIncludes? && OnCycle(phases, errors[i].phase)
  }

  class DependencySearch {
    const phases: Phases
    var visiting: set<PhaseId>
    var visited: set<PhaseId>
    var errors: seq<PhaseError>
    ghost var stack: seq<PhaseId>
    ghost var finished: seq<PhaseId>

    /** The stack is a path, the finished phases are ordered unless a cycle was reported. */
    ghost predicate Valid()
      reads this
    {
      && visiting <= phases.Keys && visited <= phases.Keys && visiting !! visited
      && (forall p :: p in visiting <==> p in stack)
      && (forall p :: p in visited <==> p in finished)
      && IsPath(phases, stack)
      && (CycleFree(errors) ==> FinishingOrder(phases, finished))
    }

    constructor (phases: Phases)
      ensures this.phases == phases && Valid()
      ensures visiting == {} && visited == {} && errors == [] && stack == []
    {
      this.phases := phases;
      visiting, visited, errors := {}, {}, [];
      stack, finished := [], [];
    }

    /** Only cycle reports are added, each about a phase that is on a cycle. */
    ghost predicate GenuineSince(before: seq<PhaseError>)
      reads this
    {
      before <= errors && CycleReports(phases, errors, |before|)
    }

    method Visit(p: PhaseId)
      requires Valid() && p in phases
      requires stack != [] ==> Edge(phases, stack[|stack| - 1], p)
      modifies this
      ensures Valid() && stack == old(stack) && visiting == old(visiting)
      ensures old(visited) <= visited && GenuineSince(old(errors))
      ensures CycleFree(errors) ==> p in visited
      decreases phases.Keys - visiting - visited, 0
    {
      if p in visiting {
        StackClosesCycle(phases, stack, p);
        errors := errors + [CycleIncludes(p)];
        assert CycleIncludes(p) in errors;
        return;
      }
      if p in visited {
        return;
      }
      ghost var unseen := phases.Keys - visiting - visited;
      Enter(p);
      assert phases.Keys - visiting - visited == unseen - {p} && p in unseen;
      VisitDependencies(p);
      assert stack[..|stack| - 1] == old(stack);
      Finish(p);
    }

    method Enter(p: PhaseId)
      requires Valid() && p in phases && p !in visiting && p !in visited
      requires stack != [] ==> Edge(phases, stack[|stack| - 1], p)
      modifies this
      ensures Valid() && stack == old(stack) + [p] && visiting == old(visiting) + {p}
      ensures visited == old(visited) && errors == old(errors)
    {
      visiting, stack := visiting + {p}, stack + [p];
    }

    method Finish(p: PhaseId)
      requires Valid() && stack != [] && stack[|stack| - 1] == p && p !in stack[..|stack| - 1]
      requires CycleFree(errors) ==> forall v :: Edge(phases, p, v) ==> v in visited
      modifies this
      ensures Valid() && stack == old(stack)[..|old(stack)| - 1] && visiting == old(visiting) - {p}
      ensures visited == old(visited) + {p} && errors == old(errors)
    {
      if CycleFree(errors) {
        AppendFinished(phases, finished, p);
      }
      assert stack == stack[..|stack| - 1] + [p];
      visiting, stack := visiting - {p}, stack[..|stack| - 1];
      visited, finished := visited + {p}, finished + [p];
    }

    method VisitDependencies(p: PhaseId)
      requires Valid() && p in phases && p in visiting
      requires stack != [] && stack[|stack| - 1] == p
      modifies this
      ensures Valid() && stack == old(stack) && visiting == old(visiting)
      ensures old(visited) <= visited && GenuineSince(old(errors))
      ensures CycleFree(errors) ==> forall v :: Edge(phases, p, v) ==> v in visited
      decreases phases.Keys - visiting - visited, 1
    {
      var i := 0;
      while i < |phases[p]|
        invariant 0 <= i <= |phases[p]|
        invariant Valid() && stack == old(stack) && visiting == old(visiting)
        invariant old(visited) <= visited && GenuineSince(old(errors))
        invariant CycleFree(errors) ==> forall j :: 0 <= j < i && phases[p][j] in phases ==> phases[p][j] in visited
      {
        var dependency := phases[p][i];
        if dependency in phases {
          Visit(dependency);
        }
        i := i + 1;
      }
    }
  }

  /**
   The check of a manifest.  It reports every unknown dependency and only those, only
   genuine cycles, and at least one of them when there is any; so it reports nothing
   exactly when all dependencies are known and the graph has no cycle.
   */
  method ValidateDependencies(phases: Phases, order: seq<PhaseId>) returns (errors: seq<PhaseError>)
    requires forall p :: p in order <==> p in phases
    ensures forall p, d :: UnknownDependency(p, d) in errors <==> p in phases && d in phases[p] && d !in phases
    ensures forall p :: CycleIncludes(p) in errors ==> OnCycle(phases, p)
    ensures errors == [] <==> AllKnown(phases) && Acyclic(phases)
  {
    var unknown := UnknownDependencies(phases, order);
    var search := new DependencySearch(phases);
    search.errors := unknown;
    var i := 0;
    while i < |order|
      invariant 0 <= i <= |order|
      invariant search.Valid() && search.stack == [] && search.phases == phases && fresh(search)
      invariant search.GenuineSince(unknown)
      invariant CycleFree(search.errors) ==> forall j :: 0 <= j < i ==> order[j] in search.visited
    {
      search.Visit(order[i]);
      i := i + 1;
    }
    errors := search.errors;
    if CycleFree(errors) {
      OrderedIsAcyclic(phases, search.finished);
    }
    Conclusion(phases, unknown, errors);
  }

  /** Unknown dependencies first, genuine cycles after them, and a cycle reported when there is one. */
  lemma Conclusion(phases: Phases, unknown: seq<PhaseError>, errors: seq<PhaseError>)
    requires forall e <- unknown :: e.UnknownDependency?
    requires forall p, d :: UnknownDependency(p, d) in unknown <==> p in phases && d in phases[p] && d !in phases
    requires unknown <= errors && CycleReports(phases, errors, |unknown|)
    requires CycleFree(errors) ==> Acyclic(phases)
    ensures forall p, d :: UnknownDependency(p, d) in errors <==> p in phases && d in phases[p] && d !in phases
    ensures forall p :: CycleIncludes(p) in errors ==> OnCycle(phases, p)
    ensures errors == [] <==> AllKnown(phases) && Acyclic(phases)
  {
    assert errors == unknown + errors[|unknown|..];
    if |unknown| < |errors| {
      assert errors[|unknown|] in errors && OnCycle(phases, errors[|unknown|].phase);
      assert !Acyclic(phases);
    }
    if unknown != [] {
      var e := unknown[0];
      assert UnknownDependency(e.phase, e.dependency) in unknown;
    }
  }

  method UnknownDependencies(phases: Phases, order: seq<PhaseId>) returns (errors: seq<PhaseError>)
    requires forall p :: p in order <==> p in phases
    ensures forall e <- errors :: e.UnknownDependency?
    ensures forall p, d :: UnknownDependency(p, d) in errors <==> p in phases && d in phases[p] && d !in phases
  {
    errors := [];
    var i := 0;
    while i < |order|
      invariant 0 <= i <= |order|
      invariant forall e <- errors :: e.UnknownDependency?
      invariant forall p, d :: UnknownDependency(p, d) in errors <==> p in order[..i] && d in phases[p] && d !in phases
    {
      var p, j := order[i], 0;
      ghost var before := errors;
      while j < |phases[p]|
        invariant 0 <= j <= |phases[p]|
        invariant forall e <- errors :: e.UnknownDependency?
        invariant forall q, d :: UnknownDependency(q, d) in errors <==>
                                 UnknownDependency(q, d) in before || (q == p && d in phases[p][..j] && d !in phases)
      {
        assert phases[p][..j + 1] == phases[p][..j] + [phases[p][j]];
        if phases[p][j] !in phases {
          errors := errors + [UnknownDependency(p, phases[p][j])];
        }
        j := j + 1;
      }
      assert phases[p][..j] == phases[p];
      assert order[..i + 1] == order[..i] + [p];
      i := i + 1;
    }
    assert order[..i] == order;
  }
}
