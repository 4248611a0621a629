/**
  The name fixpoint of `directory_file_inputs` (tools/dump_comfy_nodes.py): which variables, and then which
  combo inputs, carry a raw directory listing.

  An assignment is reduced to what the walk over its syntax tree can see: the plain names it assigns, the names
  its value mentions, and whether the value calls `os.listdir`.
 */
module TaintFixpoint {

  datatype Expression = Expression(names: set<string>, lists: bool)

  datatype Assignment = Assignment(targets: set<string>, value: Expression)

  /** One `"key": (first, ...)` entry of a returned dictionary. */
  datatype Entry = Entry(key: string, first: Expression)

  predicate FromDirectory(e: Expression, names: set<string>) {
    e.lists || exists name :: name in e.names && name in names
  }

  /** A listing reaches `name` through at most `n` assignments. */
  ghost predicate DerivesWithin(assignments: seq<Assignment>, n: nat, name: string)
    decreases n, 0
  {
    n > 0 && exists a :: a in assignments && name in a.targets && CarriesWithin(assignments, n - 1, a.value)
  }

  ghost predicate CarriesWithin(assignments: seq<Assignment>, n: nat, e: Expression)
    decreases n, 1
  {
    e.lists || exists name :: name in e.names && DerivesWithin(assignments, n, name)
  }

  ghost predicate Derives(assignments: seq<Assignment>, name: string) {
    exists n: nat :: DerivesWithin(assignments, n, name)
  }

  ghost predicate Carries(assignments: seq<Assignment>, e: Expression) {
    e.lists || exists name :: name in e.names && Derives(assignments, name)
  }

  // ---- closed sets --------------------------------------------------------

  predicate Closed(assignments: seq<Assignment>, names: set<string>) {
    forall i :: 0 <= i < |assignments| ==> FromDirectory(assignments[i].value, names) ==> assignments[i].targets <= names
  }

  lemma {:induction false} ClosedHoldsDerived(assignments: seq<Assignment>, names: set<string>, n: nat, name: string)
    requires Closed(assignments, names) && DerivesWithin(assignments, n, name)
    ensures name in names
  {
    var a :| a in assignments && name in a.targets && CarriesWithin(assignments, n - 1, a.value);
    var i :| 0 <= i < |assignments| && assignments[i] == a;
    if !a.value.lists {
      var other :| other in a.value.names && DerivesWithin(assignments, n - 1, other);
      ClosedHoldsDerived(assignments, names, n - 1, other);
    }
    assert FromDirectory(assignments[i].value, names);
  }

  lemma TargetDerives(assignments: seq<Assignment>, a: Assignment, name: string)
    requires a in assignments && name in a.targets && Carries(assignments, a.value)
    ensures Derives(assignments, name)
  {
    if a.value.lists {
      assert CarriesWithin(assignments, 0, a.value);
      assert DerivesWithin(assignments, 1, name);
    } else {
      var other :| other in a.value.names && Derives(assignments, other);
      var n: nat :| DerivesWithin(assignments, n, other);
      assert CarriesWithin(assignments, n, a.value);
      assert DerivesWithin(assignments, n + 1, name);
    }
  }

  function AllTargets(assignments: seq<Assignment>): set<string> {
    set a, name | a in assignments && name in a.targets :: name
  }

  // ---- the passes ---------------------------------------------------------

  lemma {:induction false} SubsetCardinality(a: set<string>, b: set<string>)
    requires a <= b
    ensures |a| <= |b|
    ensures |a| == |b| ==> a == b
  {
    if a != {} {
      var x :| x in a;
      SubsetCardinality(a - {x}, b - {x});
      assert a == (a - {x}) + {x} && b == (b - {x}) + {x};
    }
  }

  /** Repeated passes until the number of names stops changing. The names are exactly those a listing reaches,
      so the order of the assignments does not matter; there is at most one more pass than there are assigned
      names. */
  method ListedNames(assignments: seq<Assignment>) returns (names: set<string>, ghost passes: nat)
    ensures forall name :: name in names <==> Derives(assignments, name)
    ensures Closed(assignments, names)
    ensures passes <= |AllTargets(assignments)| + 1
  {
    names := {};
    passes := 0;
    var stable := false;
    while !stable
      invariant names <= AllTargets(assignments)
      invariant forall name :: name in names ==> Derives(assignments, name)
      invariant stable ==> Closed(assignments, names)
      invariant if stable then passes <= |names| + 1 else passes <= |names|
      decreases !stable, |AllTargets(assignments)| - |names|
    {
      var before := names;
      names := OnePass(assignments, before);
      passes := passes + 1;
      SubsetCardinality(before, names);
      SubsetCardinality(names, AllTargets(assignments));
      stable := |names| == |before|;
    }
    SubsetCardinality(names, AllTargets(assignments));
    forall name ensures name in names <==> Derives(assignments, name) {
      if Derives(assignments, name) {
        var n: nat :| DerivesWithin(assignments, n, name);
        ClosedHoldsDerived(assignments, names, n, name);
      }
    }
  }

  method OnePass(assignments: seq<Assignment>, before: set<string>) returns (names: set<string>)
    requires before <= AllTargets(assignments)
    requires forall name :: name in before ==> Derives(assignments, name)
    ensures before <= names <= AllTargets(assignments)
    ensures forall name :: name in names ==> Derives(assignments, name)
    ensures names == before ==> Closed(assignments, names)
  {
    names := before;
    for i := 0 to |assignments|
      invariant before <= names <= AllTargets(assignments)
      invariant forall name :: name in names ==> Derives(assignments, name)
      invariant forall k :: 0 <= k < i ==> FromDirectory(assignments[k].value, before) ==> assignments[k].targets <= names
    {
      var a := assignments[i];
      assert a in assignments;
      if FromDirectory(a.value, names) {
        forall name | name in a.targets ensures Derives(assignments, name) {
          TargetDerives(assignments, a, name);
        }
        names := names + a.targets;
      }
    }
  }

  /** The reported keys are exactly those whose first element carries a listing. */
  method DirectoryFileInputs(assignments: seq<Assignment>, entries: seq<Entry>) returns (keys: set<string>)
    ensures forall key :: key in keys <==>
              exists i :: 0 <= i < |entries| && entries[i].key == key && Carries(assignments, entries[i].first)
  {
    var names, _ := ListedNames(assignments);
    keys := {};
    for i := 0 to |entries|
      invariant forall key :: key in keys <==>
                  exists k :: 0 <= k < i && entries[k].key == key && Carries(assignments, entries[k].first)
    {
      if FromDirectory(entries[i].first, names) {
        keys := keys + {entries[i].key};
      }
    }
  }

  /** Reordering or repeating assignments changes nothing. */
  lemma {:induction false} OrderDoesNotMatter(a: seq<Assignment>, b: seq<Assignment>, n: nat, name: string)
    requires (forall x :: x in a ==> x in b) && DerivesWithin(a, n, name)
    ensures DerivesWithin(b, n, name)
  {
    var x :| x in a && name in x.targets && CarriesWithin(a, n - 1, x.value);
    if !x.value.lists {
      var other :| other in x.value.names && DerivesWithin(a, n - 1, other);
      OrderDoesNotMatter(a, b, n - 1, other);
    }
    assert CarriesWithin(b, n - 1, x.value);
  }

  /** The derived names are the least closed set. */
  lemma DerivedIsLeastClosed(assignments: seq<Assignment>, closed: set<string>)
    requires Closed(assignments, closed)
    ensures forall name :: Derives(assignments, name) ==> name in closed
  {
    forall name | Derives(assignments, name) ensures name in closed {
      var n: nat :| DerivesWithin(assignments, n, name);
      ClosedHoldsDerived(assignments, closed, n, name);
    }
  }
}
