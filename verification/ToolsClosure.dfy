/**
  The dependency closure that decides whether the native tools are republished
  (scripts/build_tools_release.py, `inputs_changed`).

  A lock is its list of parsed packages; `rest` holds the fields that no dependency is read from. The order by
  which the script sorts packages, their canonical JSON text, is a parameter.
 */
module ToolsClosure {
  import opened Wrappers
  import opened Sorting

  datatype Dependency = Dependency(name: string, extras: seq<string>)

  datatype Package = Package(
    name: string,
    dependencies: seq<Dependency>,
    optional: map<string, seq<Dependency>>,
    dev: map<string, seq<Dependency>>,
    rest: string)

  type Lock = seq<Package>

  /** A package name, alone or with one of its extras. */
  datatype Node = Node(name: string, extra: Option<string>)

  const SUPERVISOR := "dinkster-supervisor"
  const TOOLS_GROUP := "environment-tools"
  const ROOT := Node(SUPERVISOR, None)

  function DependenciesOf(p: Package, extra: Option<string>): seq<Dependency> {
    p.dependencies +
    (if extra.Some? && extra.value in p.optional then p.optional[extra.value] else []) +
    (if p.name == SUPERVISOR && TOOLS_GROUP in p.dev then p.dev[TOOLS_GROUP] else [])
  }

  predicate Requests(d: Dependency, n: Node) {
    n.name == d.name && (n.extra.Some? ==> n.extra.value in d.extras)
  }

  predicate Requested(ds: seq<Dependency>, n: Node) {
    exists i :: 0 <= i < |ds| && Requests(ds[i], n)
  }

  /** `p` is one of the packages behind `from`, and one of its dependencies asks for `to`. */
  predicate AsksFor(p: Package, from: Node, to: Node) {
    p.name == from.name && Requested(DependenciesOf(p, from.extra), to)
  }

  ghost predicate Edge(lock: Lock, from: Node, to: Node) {
    exists p :: p in lock && AsksFor(p, from, to)
  }

  ghost predicate IsPath(lock: Lock, path: seq<Node>) {
    && path != [] && path[0] == ROOT
    && forall i, j :: 0 <= i < j < |path| && j == i + 1 ==> Edge(lock, path[i], path[j])
  }

  ghost predicate Leads(lock: Lock, path: seq<Node>, n: Node) {
    IsPath(lock, path) && path[|path| - 1] == n
  }

  ghost predicate Reachable(lock: Lock, n: Node) {
    exists path :: Leads(lock, path, n)
  }

  ghost predicate InClosure(lock: Lock, name: string) {
    exists extra :: Reachable(lock, Node(name, extra))
  }

  lemma RootIsReachable(lock: Lock)
    ensures Reachable(lock, ROOT)
  {
    var path := [ROOT];
    assert Leads(lock, path, ROOT);
  }

  lemma EdgeKeepsReachable(lock: Lock, from: Node, to: Node)
    requires Reachable(lock, from) && Edge(lock, from, to)
    ensures Reachable(lock, to)
  {
    var path :| Leads(lock, path, from);
    var longer := path + [to];
    assert forall i :: 0 <= i < |path| ==> longer[i] == path[i];
    assert IsPath(lock, longer);
    assert Leads(lock, longer, to);
  }

  /** A set that holds the root and is closed under edges holds everything reachable. */
  lemma {:induction false} ClosedHoldsReachable(lock: Lock, s: set<Node>, path: seq<Node>)
    requires ROOT in s && forall from, to :: from in s && Edge(lock, from, to) ==> to in s
    requires IsPath(lock, path)
    ensures path[|path| - 1] in s
  {
    var n := |path| - 1;
    if n > 0 {
      var shorter := path[..n];
      assert forall i :: 0 <= i < n ==> shorter[i] == path[i];
      ClosedHoldsReachable(lock, s, shorter);
      assert shorter[|shorter| - 1] == path[n - 1];
      assert Edge(lock, path[n - 1], path[n]);
    }
  }

  // ---- the work list ------------------------------------------------------

  function Extras(d: Dependency): (ns: seq<Node>)
    ensures |ns| == |d.extras| && forall i :: 0 <= i < |ns| ==> ns[i] == Node(d.name, Some(d.extras[i]))
  {
    seq(|d.extras|, i requires 0 <= i < |d.extras| => Node(d.name, Some(d.extras[i])))
  }

  /** What one dependency pushes: the name alone, then one entry per extra. */
  function Pushes(d: Dependency): (ns: seq<Node>)
    ensures forall n :: n in ns <==> Requests(d, n)
  {
    var ns := [Node(d.name, None)] + Extras(d);
    assert forall n :: n in ns ==> Requests(d, n);
    assert forall n :: Requests(d, n) ==> n in ns by {
      forall n | Requests(d, n) ensures n in ns {
        if n.extra.Some? {
          var i :| 0 <= i < |d.extras| && d.extras[i] == n.extra.value;
          assert Extras(d)[i] == n;
        } else {
          assert ns[0] == n;
        }
      }
    }
    ns
  }

  function PushAll(ds: seq<Dependency>): seq<Node> {
    if ds == [] then [] else PushAll(ds[..|ds| - 1]) + Pushes(ds[|ds| - 1])
  }

  lemma RequestedOfAppend(ds: seq<Dependency>, d: Dependency, n: Node)
    ensures Requested(ds + [d], n) <==> Requested(ds, n) || Requests(d, n)
  {
    var longer := ds + [d];
    assert longer[|ds|] == d;
    assert forall i :: 0 <= i < |ds| ==> longer[i] == ds[i];
  }

  lemma {:induction false} PushAllPushes(ds: seq<Dependency>, n: Node)
    ensures n in PushAll(ds) <==> Requested(ds, n)
  {
    if ds != [] {
      var k := |ds| - 1;
      PushAllPushes(ds[..k], n);
      RequestedOfAppend(ds[..k], ds[k], n);
      assert ds == ds[..k] + [ds[k]];
    }
  }

  /** Everything that the packages of a lock can ever push. */
  function Universe(lock: Lock): set<Node> {
    {ROOT} + set p, d, n | p in lock && d in AllDependencies(p) && n in Pushes(d) :: n
  }

  function AllDependencies(p: Package): set<Dependency> {
    (set d | d in p.dependencies) +
    (set e, d | e in p.optional && d in p.optional[e] :: d) +
    (set e, d | e in p.dev && d in p.dev[e] :: d)
  }

  lemma PushedIsInUniverse(lock: Lock, p: Package, extra: Option<string>, n: Node)
    requires p in lock && n in PushAll(DependenciesOf(p, extra))
    ensures n in Universe(lock)
  {
    var ds := DependenciesOf(p, extra);
    PushAllPushes(ds, n);
    var i :| 0 <= i < |ds| && Requests(ds[i], n);
    var d := ds[i];
    assert d in ds && d in AllDependencies(p) && n in Pushes(d);
  }

  function Successors(packages: seq<Package>, from: Node): seq<Node> {
    if packages == [] then []
    else
      var p := packages[|packages| - 1];
      Successors(packages[..|packages| - 1], from) + if p.name == from.name then PushAll(DependenciesOf(p, from.extra)) else []
  }

  lemma {:induction false} SuccessorsAreEdges(packages: seq<Package>, from: Node, to: Node)
    ensures to in Successors(packages, from) <==> Edge(packages, from, to)
  {
    if packages != [] {
      var k := |packages| - 1;
      var p := packages[k];
      SuccessorsAreEdges(packages[..k], from, to);
      PushAllPushes(DependenciesOf(p, from.extra), to);
      assert packages == packages[..k] + [p];
      if Edge(packages, from, to) {
        var q :| q in packages && AsksFor(q, from, to);
        assert q in packages[..k] || q == p;
      }
      if Edge(packages[..k], from, to) {
        var q :| q in packages[..k] && AsksFor(q, from, to);
        assert q in packages;
      }
      assert AsksFor(p, from, to) ==> p in packages;
    }
  }

  lemma {:induction false} SuccessorsInUniverse(lock: Lock, packages: seq<Package>, from: Node, to: Node)
    requires (forall p :: p in packages ==> p in lock) && to in Successors(packages, from)
    ensures to in Universe(lock)
  {
    var k := |packages| - 1;
    if to in Successors(packages[..k], from) {
      SuccessorsInUniverse(lock, packages[..k], from, to);
    } else {
      PushedIsInUniverse(lock, packages[k], from.extra, to);
    }
  }

  /** The packages with one of the given names. */
  function Named(packages: seq<Package>, names: set<string>): seq<Package> {
    if packages == [] then []
    else Named(packages[..|packages| - 1], names) + if packages[|packages| - 1].name in names then [packages[|packages| - 1]] else []
  }

  /** What the worklist knows: everything met is reachable, and every edge from a visited entry was followed. */
  ghost predicate Explored(lock: Lock, pending: seq<Node>, visited: set<Node>, names: set<string>) {
    && (forall n :: n in pending || n in visited ==> Reachable(lock, n) && n in Universe(lock))
    && (ROOT in visited || ROOT in pending)
    && (forall from, to :: from in visited && Edge(lock, from, to) ==> to in visited || to in pending)
    && (forall name :: name in names <==> exists extra :: Node(name, extra) in visited)
  }

  lemma RootIsExplored(lock: Lock)
    ensures Explored(lock, [ROOT], {}, {})
  {
    RootIsReachable(lock);
  }

  lemma PopVisited(lock: Lock, rest: seq<Node>, node: Node, visited: set<Node>, names: set<string>)
    requires Explored(lock, rest + [node], visited, names) && node in visited
    ensures Explored(lock, rest, visited, names)
  {
  }

  lemma Popped(lock: Lock, rest: seq<Node>, node: Node, visited: set<Node>, names: set<string>)
    requires Explored(lock, rest + [node], visited, names)
    ensures node in Universe(lock) && Reachable(lock, node)
  {
    assert node in rest + [node];
  }

  lemma NamesOfVisited(visited: set<Node>, names: set<string>, node: Node)
    requires forall name :: name in names <==> exists extra :: Node(name, extra) in visited
    ensures forall name :: name in names + {node.name} <==> exists extra :: Node(name, extra) in visited + {node}
  {
    assert Node(node.name, node.extra) in visited + {node};
    forall name | name in names ensures exists extra :: Node(name, extra) in visited + {node} {
      var extra :| Node(name, extra) in visited;
      assert Node(name, extra) in visited + {node};
    }
  }

  lemma {:induction false} Visit(lock: Lock, rest: seq<Node>, node: Node, visited: set<Node>, names: set<string>)
    requires Explored(lock, rest + [node], visited, names)
    ensures Explored(lock, rest + Successors(lock, node), visited + {node}, names + {node.name})
  {
    var pushed := Successors(lock, node);
    Popped(lock, rest, node, visited, names);
    NamesOfVisited(visited, names, node);
    forall to | to in pushed ensures Reachable(lock, to) && to in Universe(lock) {
      SuccessorsAreEdges(lock, node, to);
      EdgeKeepsReachable(lock, node, to);
      SuccessorsInUniverse(lock, lock, node, to);
    }
    forall to | Edge(lock, node, to) ensures to in pushed {
      SuccessorsAreEdges(lock, node, to);
    }
  }

  lemma ExploredIsClosure(lock: Lock, visited: set<Node>, names: set<string>, name: string)
    requires Explored(lock, [], visited, names)
    ensures name in names <==> InClosure(lock, name)
  {
    if InClosure(lock, name) {
      var extra :| Reachable(lock, Node(name, extra));
      var path :| Leads(lock, path, Node(name, extra));
      ClosedHoldsReachable(lock, visited, path);
    }
  }

  /** The names of the closure, whatever order entries are popped in and whether or not the lock is cyclic. */
  method ClosureNames(lock: Lock) returns (names: set<string>)
    ensures forall name :: name in names <==> InClosure(lock, name)
  {
    hide Explored, Reachable, InClosure, Successors, Universe;
    names := {};
    var pending: seq<Node> := [ROOT];
    var visited: set<Node> := {};
    RootIsExplored(lock);
    while pending != []
      invariant Explored(lock, pending, visited, names)
      decreases Universe(lock) - visited, |pending|
    {
      var node := pending[|pending| - 1];
      assert pending == pending[..|pending| - 1] + [node];
      pending := pending[..|pending| - 1];
      Popped(lock, pending, node, visited, names);
      if node in visited {
        PopVisited(lock, pending, node, visited, names);
        continue;
      }
      Visit(lock, pending, node, visited, names);
      visited := visited + {node};
      names := names + {node.name};
      var pushed := PushedBy(lock, node);
      pending := pending + pushed;
    }
    forall name ensures name in names <==> InClosure(lock, name) {
      ExploredIsClosure(lock, visited, names, name);
    }
  }

  method PushDependencies(dependencies: seq<Dependency>) returns (pushed: seq<Node>)
    ensures pushed == PushAll(dependencies)
  {
    pushed := [];
    for k := 0 to |dependencies|
      invariant pushed == PushAll(dependencies[..k])
    {
      assert dependencies[..k + 1][..k] == dependencies[..k];
      pushed := pushed + Pushes(dependencies[k]);
    }
    assert dependencies[..|dependencies|] == dependencies;
  }

  /** The inner loops over the packages of one name and their dependencies. */
  method PushedBy(lock: Lock, node: Node) returns (pushed: seq<Node>)
    ensures pushed == Successors(lock, node)
  {
    pushed := [];
    for i := 0 to |lock|
      invariant pushed == Successors(lock[..i], node)
    {
      var p := lock[i];
      assert lock[..i + 1][..i] == lock[..i];
      if p.name != node.name {
        continue;
      }
      var dependencies := p.dependencies;
      if node.extra.Some? {
        dependencies := dependencies + if node.extra.value in p.optional then p.optional[node.extra.value] else [];
      }
      if node.name == SUPERVISOR {
        dependencies := dependencies + if TOOLS_GROUP in p.dev then p.dev[TOOLS_GROUP] else [];
      }
      assert dependencies == DependenciesOf(p, node.extra);
      var more := PushDependencies(dependencies);
      pushed := pushed + more;
    }
    assert lock[..|lock|] == lock;
  }

  // ---- when tools are republished -----------------------------------------

  /** Both locks carry the same packages of this name. */
  ghost predicate AgreeOn(a: Lock, b: Lock, name: string) {
    multiset(Named(a, {name})) == multiset(Named(b, {name}))
  }

  ghost predicate AgreeOnClosure(a: Lock, b: Lock) {
    forall name :: InClosure(a, name) ==> AgreeOn(a, b, name)
  }

  lemma {:induction false} NamedMembers(packages: seq<Package>, names: set<string>, p: Package)
    ensures multiset(Named(packages, names))[p] == if p.name in names then multiset(packages)[p] else 0
  {
    if packages != [] {
      var k := |packages| - 1;
      NamedMembers(packages[..k], names, p);
      assert packages == packages[..k] + [packages[k]];
      assert multiset(packages) == multiset(packages[..k]) + multiset{packages[k]};
    }
  }

  lemma AgreementIsMembership(a: Lock, b: Lock, name: string, p: Package)
    requires AgreeOn(a, b, name) && p.name == name
    ensures multiset(a)[p] == multiset(b)[p]
    ensures p in a <==> p in b
  {
    NamedMembers(a, {name}, p);
    NamedMembers(b, {name}, p);
    assert p in a <==> p in multiset(a);
    assert p in b <==> p in multiset(b);
  }

  /** Locks that agree on every package of the path so far have the same path. */
  lemma {:induction false} PathsCarryOver(a: Lock, b: Lock, path: seq<Node>)
    requires IsPath(a, path)
    requires forall p :: p in a && InClosure(a, p.name) ==> p in b
    ensures IsPath(b, path)
  {
    forall i, j | 0 <= i < j < |path| && j == i + 1 ensures Edge(b, path[i], path[j]) {
      var p :| p in a && AsksFor(p, path[i], path[j]);
      assert Leads(a, path[..j], path[i]) by {
        assert forall k :: 0 <= k < j ==> path[..j][k] == path[k];
      }
      assert Reachable(a, Node(path[i].name, path[i].extra));
      assert InClosure(a, p.name);
    }
  }

  lemma ClosureCarriesOver(a: Lock, b: Lock, name: string)
    requires InClosure(a, name)
    requires forall p :: p in a && InClosure(a, p.name) ==> p in b
    ensures InClosure(b, name)
  {
    var extra :| Reachable(a, Node(name, extra));
    var path :| Leads(a, path, Node(name, extra));
    PathsCarryOver(a, b, path);
    assert Leads(b, path, Node(name, extra));
  }

  lemma PackagesCarryOver(a: Lock, b: Lock)
    requires AgreeOnClosure(a, b)
    ensures forall p :: p in a && InClosure(a, p.name) ==> p in b
  {
    forall p | p in a && InClosure(a, p.name) ensures p in b {
      AgreementIsMembership(a, b, p.name, p);
    }
  }

  /** A path of `b` stays inside the closure of `a`. */
  lemma {:induction false} PathsCarryBack(a: Lock, b: Lock, path: seq<Node>)
    requires IsPath(b, path) && AgreeOnClosure(a, b)
    ensures Leads(a, path, path[|path| - 1])
  {
    var n := |path| - 1;
    if n > 0 {
      var shorter := path[..n];
      assert forall k :: 0 <= k < n ==> shorter[k] == path[k];
      PathsCarryBack(a, b, shorter);
      assert Reachable(a, Node(path[n - 1].name, path[n - 1].extra));
      assert Edge(b, path[n - 1], path[n]);
      var p :| p in b && AsksFor(p, path[n - 1], path[n]);
      assert InClosure(a, p.name);
      AgreementIsMembership(a, b, p.name, p);
      assert Edge(a, path[n - 1], path[n]);
      forall i, j | 0 <= i < j < |path| && j == i + 1 ensures Edge(a, path[i], path[j]) {
        if j < n {
          assert Edge(a, shorter[i], shorter[j]);
        }
      }
    }
  }

  /** Locks that agree on the closure of the first have the same closure. */
  lemma SameClosure(a: Lock, b: Lock, name: string)
    requires AgreeOnClosure(a, b)
    ensures InClosure(a, name) <==> InClosure(b, name)
  {
    if InClosure(a, name) {
      PackagesCarryOver(a, b);
      ClosureCarriesOver(a, b, name);
    }
    if InClosure(b, name) {
      var extra :| Reachable(b, Node(name, extra));
      var path :| Leads(b, path, Node(name, extra));
      PathsCarryBack(a, b, path);
      assert Reachable(a, Node(name, extra));
    }
  }

  ghost predicate AreClosureNames(lock: Lock, names: set<string>) {
    forall name :: name in names <==> InClosure(lock, name)
  }

  /** The selected packages are equal exactly when the locks agree on every package of the first closure:
      changes outside it are invisible, and no change inside it is missed. */
  lemma {:induction false} SelectionSeesTheClosure(a: Lock, b: Lock, namesA: set<string>, namesB: set<string>)
    requires AreClosureNames(a, namesA) && AreClosureNames(b, namesB)
    ensures multiset(Named(a, namesA)) == multiset(Named(b, namesB)) <==> AgreeOnClosure(a, b)
  {
    if AgreeOnClosure(a, b) {
      forall p ensures multiset(Named(a, namesA))[p] == multiset(Named(b, namesB))[p] {
        NamedMembers(a, namesA, p);
        NamedMembers(b, namesB, p);
        SameClosure(a, b, p.name);
        if InClosure(a, p.name) {
          AgreementIsMembership(a, b, p.name, p);
        }
      }
    }
    if multiset(Named(a, namesA)) == multiset(Named(b, namesB)) {
      EqualSelectionsAgree(a, b, namesA, namesB);
    }
  }

  lemma {:induction false} EqualSelectionsAgree(a: Lock, b: Lock, namesA: set<string>, namesB: set<string>)
    requires AreClosureNames(a, namesA) && AreClosureNames(b, namesB)
    requires multiset(Named(a, namesA)) == multiset(Named(b, namesB))
    ensures AgreeOnClosure(a, b)
  {
    forall p | p in a && InClosure(a, p.name) ensures p in b {
      NamedMembers(a, namesA, p);
      NamedMembers(b, namesB, p);
      assert p in multiset(a) && (p in b <==> p in multiset(b));
    }
    forall name | InClosure(a, name) ensures AgreeOn(a, b, name) {
      ClosureCarriesOver(a, b, name);
      forall p ensures multiset(Named(a, {name}))[p] == multiset(Named(b, {name}))[p] {
        NamedMembers(a, {name}, p);
        NamedMembers(b, {name}, p);
        NamedMembers(a, namesA, p);
        NamedMembers(b, namesB, p);
      }
    }
  }

  method Selected(lock: Lock, le: (Package, Package) -> bool) returns (packages: seq<Package>, ghost names: set<string>)
    requires TotalPreorder(le)
    ensures AreClosureNames(lock, names) && packages == SortBy(le, Named(lock, names))
    ensures forall p :: p in packages <==> p in lock && InClosure(lock, p.name)
    ensures SortedBy(le, packages)
  {
    var found := ClosureNames(lock);
    names := found;
    packages := [];
    for i := 0 to |lock|
      invariant packages == Named(lock[..i], names)
    {
      assert lock[..i + 1][..i] == lock[..i];
      if lock[i].name in found {
        packages := packages + [lock[i]];
      }
    }
    assert lock[..|lock|] == lock;
    packages := SortBy(le, packages);
    SortBySorts(le, Named(lock, names));
    forall p ensures p in packages <==> p in lock && InClosure(lock, p.name) {
      SortByElements(le, Named(lock, names));
      NamedMembers(lock, names, p);
    }
  }

  /** Tools are republished when a direct input changed, or when the project or lock file changed and the locks
      differ somewhere in the closure of the old one. */
  method InputsChanged(directChanged: bool, lockTouched: bool, before: Lock, after: Lock, le: (Package, Package) -> bool)
    returns (changed: bool)
    requires TotalPreorder(le) && Antisymmetric(le)
    ensures changed <==> directChanged || (lockTouched && !AgreeOnClosure(before, after))
  {
    if directChanged {
      return true;
    }
    if !lockTouched {
      return false;
    }
    var old_, oldNames := Selected(before, le);
    var new_, newNames := Selected(after, le);
    SelectionSeesTheClosure(before, after, oldNames, newNames);
    SortBySorts(le, Named(before, oldNames));
    SortBySorts(le, Named(after, newNames));
    if multiset(old_) == multiset(new_) {
      SortedIsUnique(le, old_, new_);
    }
    changed := old_ != new_;
  }
}
