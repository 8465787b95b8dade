/**
 The startup check of the bundled resource tree against the declared model artifacts.
 */
module ResourceTree {
  import opened Wrappers
  import opened Ordering

  type Path = seq<string>
  type Bytes = string

  /** A directory lists its entries in whatever order the file system yields. */
  datatype Node =
    | Symlink
    | Special
    | File(executableBit: bool, bytes: Bytes)
    | Dir(entries: seq<Entry>)

  datatype Entry = Entry(name: string, node: Node)

  datatype Artifact = Artifact(
    path: string, length: nat, sha256: string, provider: string, revision: string, executionClass: string)

  /** The declared artifacts by resource path, and the shape tests of names and contents. */
  datatype Policy = Policy(
    modelRoot: Path,
    declared: map<Path, Artifact>,
    modelShaped: Path -> bool,
    executable: (Path, Bytes) -> bool,
    digest: Bytes -> string)

  predicate InModelRoot(policy: Policy, path: Path) {
    policy.modelRoot <= path
  }

  predicate Reviewed(policy: Policy, path: Path) {
    InModelRoot(policy, path) || policy.modelShaped(path)
  }

  predicate Matches(policy: Policy, bytes: Bytes, artifact: Artifact) {
    |bytes| == artifact.length && policy.digest(bytes) == artifact.sha256
  }

  predicate FileOk(policy: Policy, path: Path, executableBit: bool, bytes: Bytes) {
    && !executableBit && !policy.executable(path, bytes)
    && (if Reviewed(policy, path) then path in policy.declared && Matches(policy, bytes, policy.declared[path])
        else path !in policy.declared)
  }

  /** Nothing at or below this node is forbidden, undeclared or altered. */
  predicate NodeOk(policy: Policy, path: Path, node: Node)
    decreases node
  {
    match node
    case Symlink => false
    case Special => false
    case File(bit, bytes) => FileOk(policy, path, bit, bytes)
    case Dir(entries) =>
      !policy.modelShaped(path) && forall e <- entries :: NodeOk(policy, path + [e.name], e.node)
  }

  /** The reviewed files at or below a node. */
  function ReviewedFiles(policy: Policy, path: Path, node: Node): set<Path>
    decreases node
  {
    match node
    case File(_, _) => if Reviewed(policy, path) then {path} else {}
    case Dir(entries) => set e, q | e in entries && q in ReviewedFiles(policy, path + [e.name], e.node) :: q
    case _ => {}
  }

  // ----- the walk

  /** A directory still to be read. */
  datatype Pending = Pending(path: Path, entries: seq<Entry>)

  predicate PendingOk(policy: Policy, p: Pending) {
    forall e <- p.entries :: NodeOk(policy, p.path + [e.name], e.node)
  }

  function PendingFiles(policy: Policy, p: Pending): set<Path> {
    set e, q | e in p.entries && q in ReviewedFiles(policy, p.path + [e.name], e.node) :: q
  }

  /** The declarative form: every node acceptable, every declared artifact present. */
  predicate TreeOk(policy: Policy, root: seq<Entry>) {
    && PendingOk(policy, Pending([], root))
    && policy.declared.Keys <= PendingFiles(policy, Pending([], root))
  }

  predicate AllOk(policy: Policy, pending: seq<Pending>) {
    forall p <- pending :: PendingOk(policy, p)
  }

  function AllFiles(policy: Policy, pending: seq<Pending>): set<Path> {
    set p, q | p in pending && q in PendingFiles(policy, p) :: q
  }

  function Size(node: Node): nat
    decreases node, 1
  {
    if node.Dir? then 1 + SizeAll(node.entries) else 1
  }

  function SizeAll(entries: seq<Entry>): nat
    decreases entries, 0
  {
    if entries == [] then 0 else Size(entries[0].node) + SizeAll(entries[1..])
  }

  /** Directories and entries still to be visited. */
  function Remaining(pending: seq<Pending>): nat {
    if pending == [] then 0 else 1 + SizeAll(pending[|pending| - 1].entries) + Remaining(pending[..|pending| - 1])
  }

  /** One entry of a directory: refused, descended into, or checked and noted. */
  method VisitEntry(policy: Policy, path: Path, e: Entry, pending: seq<Pending>, observed: set<Path>)
    returns (ok: bool, pending': seq<Pending>, observed': set<Path>)
    ensures ok ==> (NodeOk(policy, path + [e.name], e.node) && AllOk(policy, pending) <==> AllOk(policy, pending'))
    ensures !ok ==> !NodeOk(policy, path + [e.name], e.node)
    ensures ok ==> observed' + AllFiles(policy, pending') ==
                   observed + AllFiles(policy, pending) + ReviewedFiles(policy, path + [e.name], e.node)
    ensures ok ==> Remaining(pending') <= Remaining(pending) + Size(e.node)
    ensures ok && observed <= policy.declared.Keys ==> observed' <= policy.declared.Keys
  {
    var at := path + [e.name];
    pending', observed' := pending, observed;
    match e.node {
      case Symlink => return false, pending', observed';
      case Special => return false, pending', observed';
      case Dir(entries) =>
        if policy.modelShaped(at) {
          return false, pending', observed';
        }
        pending' := pending + [Pending(at, entries)];
        PushPending(policy, pending, Pending(at, entries));
        return true, pending', observed';
      case File(bit, bytes) =>
        if bit || policy.executable(at, bytes) {
          return false, pending', observed';
        }
        if Reviewed(policy, at) {
          if at !in policy.declared || !Matches(policy, bytes, policy.declared[at]) {
            return false, pending', observed';
          }
          observed' := observed + {at};
        } else if at in policy.declared {
          return false, pending', observed';
        }
        return true, pending', observed';
    }
  }

  lemma PushPending(policy: Policy, pending: seq<Pending>, p: Pending)
    ensures AllOk(policy, pending + [p]) <==> AllOk(policy, pending) && PendingOk(policy, p)
    ensures AllFiles(policy, pending + [p]) == AllFiles(policy, pending) + PendingFiles(policy, p)
    ensures Remaining(pending + [p]) == Remaining(pending) + 1 + SizeAll(p.entries)
  {
  }

  lemma {:induction false} SizeAppend(entries: seq<Entry>, e: Entry)
    ensures SizeAll(entries + [e]) == SizeAll(entries) + Size(e.node)
  {
    if entries == [] {
      assert (entries + [e])[1..] == [];
    } else {
      assert (entries + [e])[1..] == entries[1..] + [e];
      SizeAppend(entries[1..], e);
    }
  }

  lemma OneEntryMore(policy: Policy, path: Path, entries: seq<Entry>, e: Entry)
    ensures PendingOk(policy, Pending(path, entries + [e])) <==>
            PendingOk(policy, Pending(path, entries)) && NodeOk(policy, path + [e.name], e.node)
    ensures PendingFiles(policy, Pending(path, entries + [e])) ==
            PendingFiles(policy, Pending(path, entries)) + ReviewedFiles(policy, path + [e.name], e.node)
    ensures SizeAll(entries + [e]) == SizeAll(entries) + Size(e.node)
  {
    var longer := entries + [e];
    assert forall x :: x in longer <==> x in entries || x == e;
    SizeAppend(entries, e);
  }

  /** The walk has moved from one worklist to another by reading these entries. */
  predicate HasRead(policy: Policy, read: Pending, pending: seq<Pending>, observed: set<Path>,
                    pending': seq<Pending>, observed': set<Path>) {
    && (AllOk(policy, pending) && PendingOk(policy, read) <==> AllOk(policy, pending'))
    && observed' + AllFiles(policy, pending') == observed + AllFiles(policy, pending) + PendingFiles(policy, read)
    && Remaining(pending') <= Remaining(pending) + SizeAll(read.entries)
    && (observed <= policy.declared.Keys ==> observed' <= policy.declared.Keys)
  }

  method ReadOneMore(policy: Policy, path: Path, read: seq<Entry>, e: Entry,
                     ghost pending: seq<Pending>, ghost observed: set<Path>, now: seq<Pending>, seen: set<Path>)
    returns (ok: bool, now': seq<Pending>, seen': set<Path>)
    requires HasRead(policy, Pending(path, read), pending, observed, now, seen)
    ensures ok ==> HasRead(policy, Pending(path, read + [e]), pending, observed, now', seen')
    ensures !ok ==> !NodeOk(policy, path + [e.name], e.node)
  {
    OneEntryMore(policy, path, read, e);
    ok, now', seen' := VisitEntry(policy, path, e, now, seen);
  }

  /** The entries of one directory, in the order the file system yields them. */
  method ReadDirectory(policy: Policy, p: Pending, pending: seq<Pending>, observed: set<Path>)
    returns (ok: bool, pending': seq<Pending>, observed': set<Path>)
    ensures !ok ==> !PendingOk(policy, p)
    ensures ok ==> HasRead(policy, p, pending, observed, pending', observed')
  {
    pending', observed' := pending, observed;
    var i := 0;
    var read: seq<Entry> := [];
    while i < |p.entries|
      invariant 0 <= i <= |p.entries| && read == p.entries[..i]
      invariant HasRead(policy, Pending(p.path, read), pending, observed, pending', observed')
    {
      var e := p.entries[i];
      ok, pending', observed' := ReadOneMore(policy, p.path, read, e, pending, observed, pending', observed');
      if !ok {
        assert e in p.entries;
        return;
      }
      read := read + [e];
      i := i + 1;
    }
    assert p == Pending(p.path, read);
    return true, pending', observed';
  }

  lemma PopPending(policy: Policy, pending: seq<Pending>)
    requires pending != []
    ensures var front, p := pending[..|pending| - 1], pending[|pending| - 1];
            && (AllOk(policy, pending) <==> AllOk(policy, front) && PendingOk(policy, p))
            && AllFiles(policy, pending) == AllFiles(policy, front) + PendingFiles(policy, p)
            && Remaining(pending) == Remaining(front) + 1 + SizeAll(p.entries)
  {
  }

  /** The final comparison: as many observed as declared, and every declared path observed. */
  method AllDeclaredObserved(policy: Policy, observed: set<Path>) returns (ok: bool)
    requires observed <= policy.declared.Keys
    ensures ok <==> policy.declared.Keys <= observed
  {
    ok := |observed| == |policy.declared.Keys| && policy.declared.Keys <= observed;
    if policy.declared.Keys <= observed {
      assert observed == policy.declared.Keys;
    }
  }

  /** The worklist: which directories remain does not change what the whole tree amounts to. */
  method WalkTree(policy: Policy, start: Pending) returns (ok: bool, observed: set<Path>)
    ensures ok <==> PendingOk(policy, start)
    ensures ok ==> observed == PendingFiles(policy, start) && observed <= policy.declared.Keys
  {
    var pending := [start];
    PushPending(policy, [], start);
    assert [] + [start] == pending;
    observed := {};
    while pending != []
      invariant PendingOk(policy, start) <==> AllOk(policy, pending)
      invariant PendingFiles(policy, start) == observed + AllFiles(policy, pending)
      invariant observed <= policy.declared.Keys
      decreases Remaining(pending)
    {
      PopPending(policy, pending);
      var directory := pending[|pending| - 1];
      ok, pending, observed := ReadDirectory(policy, directory, pending[..|pending| - 1], observed);
      if !ok {
        return;
      }
    }
    return true, observed;
  }

  /** The check accepts exactly the trees that `TreeOk` describes, for every finite tree and order. */
  method VerifyResourceTree(policy: Policy, root: seq<Entry>) returns (ok: bool)
    ensures ok <==> TreeOk(policy, root)
  {
    var observed;
    ok, observed := WalkTree(policy, Pending([], root));
    if ok {
      ok := AllDeclaredObserved(policy, observed);
    }
  }

  // ----- the same, node by node

  /** Descending from these entries along the path leads to the node. */
  ghost predicate Reaches(entries: seq<Entry>, path: Path, node: Node)
    decreases |path|
  {
    path != [] && exists e <- entries ::
      && e.name == path[0]
      && (if |path| == 1 then e.node == node else e.node.Dir? && Reaches(e.node.entries, path[1..], node))
  }

  /** What may stand at a path of the bundle. */
  predicate Allowed(policy: Policy, path: Path, node: Node) {
    match node
    case Symlink => false
    case Special => false
    case Dir(_) => !policy.modelShaped(path)
    case File(executableBit, bytes) =>
      var isModel := policy.modelRoot <= path || policy.modelShaped(path);
      && !executableBit && !policy.executable(path, bytes)
      && (path in policy.declared <==> isModel)
      && (isModel ==>
            |bytes| == policy.declared[path].length && policy.digest(bytes) == policy.declared[path].sha256)
  }

  ghost predicate AllAllowed(policy: Policy, base: Path, entries: seq<Entry>) {
    forall path, node :: Reaches(entries, path, node) ==> Allowed(policy, base + path, node)
  }

  lemma ReachesChild(entries: seq<Entry>, e: Entry, path: Path, node: Node)
    requires e in entries && e.node.Dir? && Reaches(e.node.entries, path, node)
    ensures Reaches(entries, [e.name] + path, node)
  {
    assert ([e.name] + path)[1..] == path;
  }

  lemma {:induction false} NodeOkIff(policy: Policy, base: Path, node: Node)
    ensures NodeOk(policy, base, node) <==>
            Allowed(policy, base, node) && (node.Dir? ==> AllAllowed(policy, base, node.entries))
    decreases node
  {
    if node.Dir? {
      forall e <- node.entries
        ensures NodeOk(policy, base + [e.name], e.node) <==>
                Allowed(policy, base + [e.name], e.node) &&
                (e.node.Dir? ==> AllAllowed(policy, base + [e.name], e.node.entries))
      {
        NodeOkIff(policy, base + [e.name], e.node);
      }
      if forall e <- node.entries :: NodeOk(policy, base + [e.name], e.node) {
        OkEntriesAllow(policy, base, node.entries);
      }
      if AllAllowed(policy, base, node.entries) {
        forall e <- node.entries
          ensures NodeOk(policy, base + [e.name], e.node)
        {
          EntryAllowed(policy, base, node.entries, e);
        }
      }
    }
  }

  lemma OkEntriesAllow(policy: Policy, base: Path, entries: seq<Entry>)
    requires forall e <- entries ::
               Allowed(policy, base + [e.name], e.node) &&
               (e.node.Dir? ==> AllAllowed(policy, base + [e.name], e.node.entries))
    ensures AllAllowed(policy, base, entries)
  {
    forall path, node | Reaches(entries, path, node)
      ensures Allowed(policy, base + path, node)
    {
      var e :| e in entries && e.name == path[0] &&
               (if |path| == 1 then e.node == node else e.node.Dir? && Reaches(e.node.entries, path[1..], node));
      if |path| == 1 {
        assert base + path == base + [e.name];
      } else {
        assert base + path == base + [e.name] + path[1..];
      }
    }
  }

  lemma EntryAllowed(policy: Policy, base: Path, entries: seq<Entry>, e: Entry)
    requires AllAllowed(policy, base, entries) && e in entries
    ensures Allowed(policy, base + [e.name], e.node)
    ensures e.node.Dir? ==> AllAllowed(policy, base + [e.name], e.node.entries)
  {
    assert Reaches(entries, [e.name], e.node);
    if e.node.Dir? {
      forall path, node | Reaches(e.node.entries, path, node)
        ensures Allowed(policy, base + [e.name] + path, node)
      {
        ReachesChild(entries, e, path, node);
        assert base + ([e.name] + path) == base + [e.name] + path;
      }
    }
  }

  /** A file of the bundle that has to be declared. */
  ghost predicate ModelFile(policy: Policy, entries: seq<Entry>, base: Path, q: Path) {
    exists path, bit, bytes ::
      q == base + path && Reaches(entries, path, File(bit, bytes)) && Reviewed(policy, q)
  }

  /** The node at `base` is, or holds, such a file. */
  ghost predicate HoldsModelFile(policy: Policy, base: Path, node: Node, q: Path) {
    match node
    case File(_, _) => q == base && Reviewed(policy, q)
    case Dir(entries) => ModelFile(policy, entries, base, q)
    case _ => false
  }

  lemma {:induction false} ReviewedFilesIff(policy: Policy, base: Path, node: Node, q: Path)
    ensures q in ReviewedFiles(policy, base, node) <==> HoldsModelFile(policy, base, node, q)
    decreases node
  {
    if node.Dir? {
      forall e <- node.entries
        ensures q in ReviewedFiles(policy, base + [e.name], e.node) <==>
                HoldsModelFile(policy, base + [e.name], e.node, q)
      {
        ReviewedFilesIff(policy, base + [e.name], e.node, q);
      }
      FilesOfEntries(policy, base, node.entries, q);
    }
  }

  lemma FileOfEntry(policy: Policy, base: Path, entries: seq<Entry>, e: Entry, q: Path)
    requires e in entries && HoldsModelFile(policy, base + [e.name], e.node, q)
    ensures ModelFile(policy, entries, base, q)
  {
    if e.node.File? {
      assert Reaches(entries, [e.name], e.node);
    } else {
      var path, bit, bytes :|
        q == base + [e.name] + path && Reaches(e.node.entries, path, File(bit, bytes)) && Reviewed(policy, q);
      ReachesChild(entries, e, path, File(bit, bytes));
      assert q == base + ([e.name] + path);
    }
  }

  lemma EntryOfFile(policy: Policy, base: Path, entries: seq<Entry>, q: Path) returns (e: Entry)
    requires ModelFile(policy, entries, base, q)
    ensures e in entries && HoldsModelFile(policy, base + [e.name], e.node, q)
  {
    var path, bit, bytes :| q == base + path && Reaches(entries, path, File(bit, bytes)) && Reviewed(policy, q);
    e :| e in entries && e.name == path[0] &&
         (if |path| == 1 then e.node == File(bit, bytes)
          else e.node.Dir? && Reaches(e.node.entries, path[1..], File(bit, bytes)));
    if |path| == 1 {
      assert q == base + [e.name];
    } else {
      assert q == base + [e.name] + path[1..];
    }
  }

  lemma FilesOfEntries(policy: Policy, base: Path, entries: seq<Entry>, q: Path)
    ensures (exists e <- entries :: HoldsModelFile(policy, base + [e.name], e.node, q)) <==>
            ModelFile(policy, entries, base, q)
  {
    if e :| e in entries && HoldsModelFile(policy, base + [e.name], e.node, q) {
      FileOfEntry(policy, base, entries, e, q);
    }
    if ModelFile(policy, entries, base, q) {
      var e := EntryOfFile(policy, base, entries, q);
    }
  }

  /**
   What the check demands, node by node: every node of the bundle is allowed where it
   stands, and at every declared path there is a file.
   */
  lemma TreeOkIff(policy: Policy, root: seq<Entry>)
    ensures TreeOk(policy, root) <==>
            && (forall path, node :: Reaches(root, path, node) ==> Allowed(policy, path, node))
            && (forall path <- policy.declared :: exists bit, bytes :: Reaches(root, path, File(bit, bytes)))
  {
    forall e <- root
      ensures NodeOk(policy, [] + [e.name], e.node) <==>
              Allowed(policy, [] + [e.name], e.node) &&
              (e.node.Dir? ==> AllAllowed(policy, [] + [e.name], e.node.entries))
    {
      NodeOkIff(policy, [] + [e.name], e.node);
    }
    assert forall path: Path :: [] + path == path;
    if PendingOk(policy, Pending([], root)) {
      OkEntriesAllow(policy, [], root);
    }
    if AllAllowed(policy, [], root) {
      forall e <- root
        ensures NodeOk(policy, [] + [e.name], e.node)
      {
        EntryAllowed(policy, [], root, e);
      }
    }
    forall q <- policy.declared
      ensures q in PendingFiles(policy, Pending([], root)) <==> ModelFile(policy, root, [], q)
    {
      forall e <- root
        ensures q in ReviewedFiles(policy, [] + [e.name], e.node) <==>
                HoldsModelFile(policy, [] + [e.name], e.node, q)
      {
        ReviewedFilesIff(policy, [] + [e.name], e.node, q);
      }
      FilesOfEntries(policy, [], root, q);
    }
  }

  // ----- validated policies

  /** The pieces between slashes. */
  function Split(s: string): (pieces: seq<string>)
    ensures pieces != []
  {
    if s == "" then [""]
    else if s[0] == '/' then [""] + Split(s[1..])
    else
      var rest := Split(s[1..]);
      [[s[0]] + rest[0]] + rest[1..]
  }

  predicate SafePiece(piece: string) {
    piece != "" && piece != "." && piece != ".."
  }

  predicate IsSafeRelative(s: string) {
    && s != "" && s[0] != '/' && s[|s| - 1] != '/' && '\\' !in s
    && forall piece <- Split(s) :: SafePiece(piece)
  }

  lemma {:induction false} SplitJoins(a: string, s: string)
    requires '/' !in a
    ensures Split(a) == [a] && Split(a + "/" + s) == [a] + Split(s)
  {
    var whole := a + "/" + s;
    if a == "" {
      assert whole[1..] == s;
    } else {
      SplitJoins(a[1..], s);
      assert whole[1..] == a[1..] + "/" + s && whole[0] == a[0];
      assert [a[0]] + a[1..] == a;
    }
  }

  lemma {:induction false} SplitUnsplit(pieces: seq<string>)
    requires pieces != [] && forall piece <- pieces :: '/' !in piece
    ensures Split(Unsplit(pieces)) == pieces
  {
    assert pieces[0] in pieces;
    if |pieces| == 1 {
      SplitJoins(pieces[0], "");
    } else {
      var rest := pieces[1..];
      assert forall piece <- rest :: piece in pieces;
      SplitUnsplit(rest);
      SplitJoins(pieces[0], Unsplit(rest));
      assert Unsplit(pieces) == pieces[0] + "/" + Unsplit(rest);
      assert [pieces[0]] + rest == pieces;
    }
  }

  /** The components of a path, as the standard library normalises them. */
  function Components(pieces: seq<string>): Path {
    if pieces == [] then []
    else (if pieces[0] == "" || pieces[0] == "." then [] else [pieces[0]]) + Components(pieces[1..])
  }

  /** `Path::join`: an absolute path replaces the base. */
  function Join(base: Path, s: string): Path {
    if s != "" && s[0] == '/' then Components(Split(s)) else base + Components(Split(s))
  }

  lemma {:induction false} SafeComponents(pieces: seq<string>)
    requires forall piece <- pieces :: SafePiece(piece)
    ensures Components(pieces) == pieces
  {
    if pieces == [] {
    } else {
      assert pieces[0] in pieces;
      SafeComponents(pieces[1..]);
    }
  }

  function Unsplit(pieces: seq<string>): string
    requires pieces != []
  {
    if |pieces| == 1 then pieces[0] else pieces[0] + "/" + Unsplit(pieces[1..])
  }

  lemma UnsplitPrepend(c: char, pieces: seq<string>)
    requires pieces != []
    ensures Unsplit([[c] + pieces[0]] + pieces[1..]) == [c] + Unsplit(pieces)
  {
    var longer := [[c] + pieces[0]] + pieces[1..];
    assert longer[1..] == pieces[1..];
    if |pieces| > 1 {
      assert Unsplit(longer) == [c] + (pieces[0] + "/" + Unsplit(pieces[1..]));
    }
  }

  lemma {:induction false} UnsplitSplit(s: string)
    ensures Unsplit(Split(s)) == s
  {
    if s == "" {
    } else {
      UnsplitSplit(s[1..]);
      var rest := Split(s[1..]);
      if s[0] == '/' {
        assert ([""] + rest)[1..] == rest;
      } else {
        UnsplitPrepend(s[0], rest);
      }
      assert s == [s[0]] + s[1..];
    }
  }

  lemma {:induction false} PiecesOf(s: string)
    ensures forall piece <- Split(s) :: '/' !in piece && forall c <- piece :: c in s
  {
    if s == "" {
    } else {
      PiecesOf(s[1..]);
      assert forall c <- s[1..] :: c in s;
      assert s[0] in s;
    }
  }

  /** A name that can stand between slashes of a contained path. */
  predicate ProperName(name: string) {
    name != "" && name != "." && name != ".." && '/' !in name && '\\' !in name
  }

  lemma {:induction false} ProperPath(names: seq<string>)
    requires names != [] && forall name <- names :: ProperName(name)
    ensures var s := Unsplit(names); s != "" && s[0] != '/' && s[|s| - 1] != '/' && '\\' !in s
  {
    assert ProperName(names[0]);
    if |names| == 1 {
    } else {
      assert forall name <- names[1..] :: name in names;
      ProperPath(names[1..]);
    }
  }

  /** A safe relative path is one or more proper names joined by slashes, and nothing else is. */
  lemma SafeRelativeIff(s: string)
    ensures IsSafeRelative(s) <==>
            exists names :: names != [] && s == Unsplit(names) && forall name <- names :: ProperName(name)
  {
    if IsSafeRelative(s) {
      UnsplitSplit(s);
      PiecesOf(s);
      assert forall name <- Split(s) :: ProperName(name);
    }
    if names :| names != [] && s == Unsplit(names) && forall name <- names :: ProperName(name) {
      ProperPath(names);
      SplitUnsplit(names);
    }
  }

  /** The artifact clauses of the policy check, in one pass. */
  method ValidateArtifacts(artifacts: seq<Artifact>, isSha256: string -> bool) returns (ok: bool)
    ensures ok <==> ArtifactsOk(artifacts, isSha256)
  {
    var previous: Option<string> := None;
    var i := 0;
    while i < |artifacts|
      invariant 0 <= i <= |artifacts|
      invariant previous == if i == 0 then None else Some(artifacts[i - 1].path)
      invariant forall j :: 0 <= j < i ==> ArtifactOk(artifacts[j], isSha256)
      invariant NeighboursSorted(StringLess, PathsOf(artifacts)[..i])
    {
      var a := artifacts[i];
      var paths := PathsOf(artifacts);
      if (previous.Some? && !StringLess(previous.value, a.path)) || !IsSafeRelative(a.path) || !isSha256(a.sha256) ||
         a.provider == "" || a.revision == "" || a.executionClass != "data" {
        assert a in artifacts;
        assert previous.Some? ==> previous.value == paths[i - 1] && a.path == paths[i];
        return false;
      }
      assert paths[..i + 1] == paths[..i] + [a.path];
      previous := Some(a.path);
      i := i + 1;
    }
    assert PathsOf(artifacts)[..i] == PathsOf(artifacts);
    return true;
  }

  predicate ArtifactOk(a: Artifact, isSha256: string -> bool) {
    IsSafeRelative(a.path) && isSha256(a.sha256) && a.provider != "" && a.revision != "" && a.executionClass == "data"
  }

  function PathsOf(artifacts: seq<Artifact>): seq<string> {
    seq(|artifacts|, i requires 0 <= i < |artifacts| => artifacts[i].path)
  }

  predicate ArtifactsOk(artifacts: seq<Artifact>, isSha256: string -> bool) {
    NeighboursSorted(StringLess, PathsOf(artifacts)) && forall a <- artifacts :: ArtifactOk(a, isSha256)
  }

  /** The map from resource paths to artifacts; a later artifact wins a collision. */
  function Declared(root: Path, artifacts: seq<Artifact>): map<Path, Artifact> {
    if artifacts == [] then map[]
    else
      var last := artifacts[|artifacts| - 1];
      Declared(root, artifacts[..|artifacts| - 1])[Join(root, last.path) := last]
  }

  lemma JoinSafe(root: Path, s: string)
    requires IsSafeRelative(s)
    ensures Join(root, s) == root + Split(s)
  {
    SafeComponents(Split(s));
  }

  lemma JoinInjective(root: Path, a: string, b: string)
    requires IsSafeRelative(a) && IsSafeRelative(b) && Join(root, a) == Join(root, b)
    ensures a == b
  {
    JoinSafe(root, a);
    JoinSafe(root, b);
    assert (root + Split(a))[|root|..] == Split(a) && (root + Split(b))[|root|..] == Split(b);
    UnsplitSplit(a);
    UnsplitSplit(b);
  }

  lemma {:induction false} DeclaredUnderRoot(root: Path, artifacts: seq<Artifact>)
    requires forall a <- artifacts :: IsSafeRelative(a.path)
    ensures forall path <- Declared(root, artifacts) ::
              root <= path && exists a <- artifacts :: Join(root, a.path) == path
  {
    if artifacts == [] {
    } else {
      var front, last := artifacts[..|artifacts| - 1], artifacts[|artifacts| - 1];
      assert last in artifacts && forall a <- front :: a in artifacts;
      DeclaredUnderRoot(root, front);
      JoinSafe(root, last.path);
    }
  }

  /**
   After policy validation a file outside the model root and without a model name is
   never declared, so the branch that refuses such a file is unreachable.
   */
  lemma UndeclaredOutsideRoot(policy: Policy, artifacts: seq<Artifact>, isSha256: string -> bool, path: Path)
    requires ArtifactsOk(artifacts, isSha256) && policy.declared == Declared(policy.modelRoot, artifacts)
    requires !Reviewed(policy, path)
    ensures path !in policy.declared
  {
    assert forall a <- artifacts :: ArtifactOk(a, isSha256);
    DeclaredUnderRoot(policy.modelRoot, artifacts);
  }

  /** Validated artifacts never collide: each one keeps its own place in the declared map. */
  lemma {:induction false} NoArtifactShadowed(root: Path, artifacts: seq<Artifact>, isSha256: string -> bool)
    requires ArtifactsOk(artifacts, isSha256)
    ensures |Declared(root, artifacts)| == |artifacts|
    ensures forall a <- artifacts ::
              Join(root, a.path) in Declared(root, artifacts) && Declared(root, artifacts)[Join(root, a.path)] == a
  {
    if artifacts == [] {
    } else {
      var front, last := artifacts[..|artifacts| - 1], artifacts[|artifacts| - 1];
      FrontOk(artifacts, isSha256);
      NoArtifactShadowed(root, front, isSha256);
      var declared := Declared(root, front);
      assert Join(root, last.path) !in declared by {
        DeclaredUnderRoot(root, front);
        LastIsNew(root, artifacts, isSha256);
      }
      assert (declared[Join(root, last.path) := last]).Keys == declared.Keys + {Join(root, last.path)};
      assert forall a <- artifacts :: a in front || a == last;
    }
  }

  lemma FrontOk(artifacts: seq<Artifact>, isSha256: string -> bool)
    requires artifacts != [] && ArtifactsOk(artifacts, isSha256)
    ensures ArtifactsOk(artifacts[..|artifacts| - 1], isSha256)
    ensures forall a <- artifacts[..|artifacts| - 1] :: IsSafeRelative(a.path)
  {
    var front := artifacts[..|artifacts| - 1];
    assert forall a <- front :: a in artifacts && ArtifactOk(a, isSha256);
    forall i | 0 < i < |front|
      ensures StringLess(PathsOf(front)[i - 1], PathsOf(front)[i])
    {
      assert StringLess(PathsOf(artifacts)[i - 1], PathsOf(artifacts)[i]);
    }
  }

  lemma LastIsNew(root: Path, artifacts: seq<Artifact>, isSha256: string -> bool)
    requires artifacts != [] && ArtifactsOk(artifacts, isSha256)
    ensures forall a <- artifacts[..|artifacts| - 1] :: Join(root, a.path) != Join(root,
            artifacts[|artifacts| - 1].path)
  {
    var last := artifacts[|artifacts| - 1];
    StringOrder();
    NeighboursSuffice(StringLess, PathsOf(artifacts));
    forall i | 0 <= i < |artifacts| - 1
      ensures Join(root, artifacts[i].path) != Join(root, last.path)
    {
      assert StringLess(PathsOf(artifacts)[i], PathsOf(artifacts)[|artifacts| - 1]);
      assert artifacts[i] in artifacts && last in artifacts;
      if Join(root, artifacts[i].path) == Join(root, last.path) {
        JoinInjective(root, artifacts[i].path, last.path);
      }
    }
  }
}
