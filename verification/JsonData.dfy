/**
  `_validate_json` and `_exact_json` (tools/comfy_confidence.py) on parsed values.

  A Python object is a finite tree; `Other` is any object that is no JSON data.
 */
module JsonData {
  import opened Wrappers
  import opened DecimalDifference

  const MAX_JSON_DEPTH := 32
  const MAX_JSON_ITEMS := 100000

  datatype Key = Text(s: string) | Foreign(tag: int)

  datatype Json =
    | Null
    | Bool(b: bool)
    | Int(n: int)
    | Str(s: string)
    | Float(finite: bool, value: real)
    | Dec(finite: bool, d: Decimal)
    | Arr(items: seq<Json>)
    | Obj(entries: seq<(Key, Json)>)
    | Other

  datatype Error = TooManyItems | TooDeep | NotFinite | NotJson

  // ---- what is accepted ---------------------------------------------------

  function Children(j: Json): (cs: seq<Json>)
    ensures forall i :: 0 <= i < |cs| ==> cs[i] < j
  {
    match j
    case Arr(items) => items
    case Obj(entries) => seq(|entries|, i requires 0 <= i < |entries| => entries[i].1)
    case _ => []
  }

  /** The number of nodes of a tree. */
  function Size(j: Json): nat
    decreases j, 1
  {
    1 + SizeOfFirst(j, |Children(j)|)
  }

  function SizeOfFirst(j: Json, k: nat): nat
    requires k <= |Children(j)|
    decreases j, 0, k
  {
    if k == 0 then 0 else SizeOfFirst(j, k - 1) + Size(Children(j)[k - 1])
  }

  predicate AllowedNode(j: Json, decimals: bool) {
    match j
    case Float(finite, _) => finite
    case Dec(finite, _) => decimals && finite
    case Obj(entries) => forall i :: 0 <= i < |entries| ==> entries[i].0.Text?
    case Other => false
    case _ => true
  }

  /** Every node is of an allowed kind and no deeper than the limit. */
  predicate Fits(j: Json, depth: nat, decimals: bool)
    decreases j
  {
    depth <= MAX_JSON_DEPTH && AllowedNode(j, decimals) &&
    forall i :: 0 <= i < |Children(j)| ==> Fits(Children(j)[i], depth + 1, decimals)
  }

  predicate Acceptable(j: Json, decimals: bool) {
    Fits(j, 0, decimals) && Size(j) <= MAX_JSON_ITEMS
  }

  // ---- the explicit stack -------------------------------------------------

  type Stack = seq<(Json, nat)>

  function StackSize(stack: Stack): nat {
    if stack == [] then 0 else StackSize(stack[..|stack| - 1]) + Size(stack[|stack| - 1].0)
  }

  predicate StackFits(stack: Stack, decimals: bool) {
    forall i :: 0 <= i < |stack| ==> Fits(stack[i].0, stack[i].1, decimals)
  }

  function Pushed(j: Json, depth: nat, k: nat): (s: Stack)
    requires k <= |Children(j)|
    ensures |s| == k && forall i :: 0 <= i < k ==> s[i] == (Children(j)[i], depth + 1)
  {
    seq(k, i requires 0 <= i < k => (Children(j)[i], depth + 1))
  }

  lemma {:induction false} StackSizeOfPush(stack: Stack, j: Json, depth: nat)
    ensures StackSize(stack + [(j, depth)]) == StackSize(stack) + Size(j)
  {
    assert (stack + [(j, depth)])[..|stack|] == stack;
  }

  lemma {:induction false} PushedSize(stack: Stack, j: Json, depth: nat, k: nat)
    requires k <= |Children(j)|
    ensures StackSize(stack + Pushed(j, depth, k)) == StackSize(stack) + SizeOfFirst(j, k)
  {
    hide StackSize, Size;
    if k == 0 {
      assert stack + Pushed(j, depth, 0) == stack;
    } else {
      PushedSize(stack, j, depth, k - 1);
      var shorter := stack + Pushed(j, depth, k - 1);
      assert stack + Pushed(j, depth, k) == shorter + [(Children(j)[k - 1], depth + 1)];
      StackSizeOfPush(shorter, Children(j)[k - 1], depth + 1);
    }
  }

  lemma {:induction false} PushedFits(stack: Stack, j: Json, depth: nat, decimals: bool)
    ensures StackFits(stack + Pushed(j, depth, |Children(j)|), decimals) <==>
            StackFits(stack, decimals) && forall i :: 0 <= i < |Children(j)| ==> Fits(Children(j)[i], depth + 1, decimals)
  {
    var children := Pushed(j, depth, |Children(j)|);
    var longer := stack + children;
    assert forall i :: 0 <= i < |stack| ==> longer[i] == stack[i];
    assert forall i :: 0 <= i < |children| ==> longer[|stack| + i] == children[i];
    assert forall i :: |stack| <= i < |longer| ==> longer[i] == children[i - |stack|];
  }

  lemma {:induction false} PopFits(stack: Stack, decimals: bool)
    requires stack != []
    ensures var n := |stack| - 1;
            StackFits(stack, decimals) <==> StackFits(stack[..n], decimals) && Fits(stack[n].0, stack[n].1, decimals)
  {
    var n := |stack| - 1;
    assert forall i :: 0 <= i < n ==> stack[..n][i] == stack[i];
  }

  /** The checks on one node, in the order of the script. */
  method CheckNode(item: Json, decimals: bool) returns (error: Option<Error>)
    ensures error == None <==> AllowedNode(item, decimals)
  {
    match item {
      case Float(finite, _) =>
        return if finite then None else Some(NotFinite);
      case Dec(finite, _) =>
        return if !decimals then Some(NotJson) else if finite then None else Some(NotFinite);
      case Obj(entries) =>
        return if forall i :: 0 <= i < |entries| ==> entries[i].0.Text? then None else Some(NotJson);
      case Other =>
        return Some(NotJson);
      case _ =>
        return None;
    }
  }

  /** Visiting one node: its children replace it on the stack. */
  lemma VisitNode(before: Stack, remaining: int, decimals: bool)
    requires before != []
    ensures var n := |before| - 1;
            var (item, depth) := before[n];
            var stack := before[..n] + Pushed(item, depth, |Children(item)|);
            && StackSize(stack) == StackSize(before) - 1
            && StackSize(before) >= 1
            && (StackFits(before, decimals) <==>
                  depth <= MAX_JSON_DEPTH && AllowedNode(item, decimals) && StackFits(stack, decimals))
  {
    var n := |before| - 1;
    var (item, depth) := before[n];
    PopFits(before, decimals);
    PushedSize(before[..n], item, depth, |Children(item)|);
    PushedFits(before[..n], item, depth, decimals);
  }

  /** The loop accepts exactly the trees that a recursive reading accepts, whatever order it visits them in. */
  method ValidateJson(value: Json, decimals: bool) returns (r: Result<(), Error>)
    ensures r.Success? <==> Acceptable(value, decimals)
  {
    var remaining: int := MAX_JSON_ITEMS;
    var stack: Stack := [(value, 0)];
    assert stack[..0] == [];
    while stack != []
      invariant remaining >= 0
      invariant Acceptable(value, decimals) <==> StackFits(stack, decimals) && StackSize(stack) <= remaining
      decreases StackSize(stack)
    {
      VisitNode(stack, remaining, decimals);
      var (item, depth) := stack[|stack| - 1];
      stack := stack[..|stack| - 1];
      remaining := remaining - 1;
      if remaining < 0 {
        return Failure(TooManyItems);
      }
      if depth > MAX_JSON_DEPTH {
        return Failure(TooDeep);
      }
      var error := CheckNode(item, decimals);
      if error.Some? {
        return Failure(error.value);
      }
      stack := stack + Pushed(item, depth, |Children(item)|);
    }
    return Success(());
  }

  // ---- exact equality -----------------------------------------------------

  predicate SameKind(a: Json, b: Json) {
    || (a.Null? && b.Null?) || (a.Bool? && b.Bool?) || (a.Int? && b.Int?) || (a.Str? && b.Str?)
    || (a.Float? && b.Float?) || (a.Dec? && b.Dec?) || (a.Arr? && b.Arr?) || (a.Obj? && b.Obj?)
  }

  function Lookup(entries: seq<(Key, Json)>, key: Key): (r: Option<Json>)
    ensures r.Some? ==> exists i :: 0 <= i < |entries| && entries[i] == (key, r.value)
    ensures r == None <==> forall i :: 0 <= i < |entries| ==> entries[i].0 != key
  {
    if entries == [] then None
    else
      var n := |entries| - 1;
      if entries[n].0 == key then Some(entries[n].1)
      else
        var r := Lookup(entries[..n], key);
        assert r.Some? ==> forall i :: 0 <= i < n ==> entries[..n][i] == entries[i];
        r
  }

  predicate HasKey(entries: seq<(Key, Json)>, key: Key) {
    exists i :: 0 <= i < |entries| && entries[i].0 == key
  }

  /** `_exact_json`: equal types, equal keys, and equal parts; decimals and floats by value. */
  predicate Exact(a: Json, b: Json)
    decreases a
  {
    SameKind(a, b) &&
    match a
    case Obj(entries) =>
      && (forall i :: 0 <= i < |b.entries| ==> HasKey(entries, b.entries[i].0))
      && (forall i :: 0 <= i < |Children(a)| ==>
            Lookup(b.entries, entries[i].0).Some? && Exact(Children(a)[i], Lookup(b.entries, entries[i].0).value))
    case Arr(items) =>
      |items| == |b.items| && forall i :: 0 <= i < |Children(a)| ==> Exact(Children(a)[i], b.items[i])
    case Float(finite, value) => finite && b.finite && value == b.value
    case Dec(finite, d) => finite && b.finite && Equal(d, b.d)
    case _ => a == b
  }

  /** A value as a JSON reader builds it: finite numbers, and no key twice. */
  predicate Proper(j: Json)
    decreases j
  {
    && AllowedNode(j, true)
    && (j.Obj? ==> forall i, k :: 0 <= i < k < |j.entries| ==> j.entries[i].0 != j.entries[k].0)
    && forall i :: 0 <= i < |Children(j)| ==> Proper(Children(j)[i])
  }

  lemma {:induction false} LookupFinds(entries: seq<(Key, Json)>, i: nat)
    requires i < |entries| && forall k, l :: 0 <= k < l < |entries| ==> entries[k].0 != entries[l].0
    ensures Lookup(entries, entries[i].0) == Some(entries[i].1)
  {
  }

  lemma {:induction false} ExactReflexive(a: Json)
    requires Proper(a)
    ensures Exact(a, a)
    decreases a
  {
    forall i | 0 <= i < |Children(a)| ensures Exact(Children(a)[i], Children(a)[i]) {
      ExactReflexive(Children(a)[i]);
    }
    if a.Obj? {
      forall i | 0 <= i < |a.entries| ensures Lookup(a.entries, a.entries[i].0) == Some(Children(a)[i]) {
        LookupFinds(a.entries, i);
      }
    }
  }

  /** The exact comparison is symmetric on proper values, although it looks keys up one way only. */
  lemma {:induction false} ExactSymmetric(a: Json, b: Json)
    requires Proper(a) && Proper(b) && Exact(a, b)
    ensures Exact(b, a)
    decreases a
  {
    if a.Arr? {
      forall i | 0 <= i < |Children(b)| ensures Exact(Children(b)[i], a.items[i]) {
        assert Exact(Children(a)[i], b.items[i]) && Proper(Children(a)[i]) && Proper(Children(b)[i]);
        ExactSymmetric(Children(a)[i], b.items[i]);
      }
    } else if a.Obj? {
      forall i | 0 <= i < |Children(b)|
        ensures Lookup(a.entries, b.entries[i].0).Some? && Exact(Children(b)[i], Lookup(a.entries, b.entries[i].0).value)
      {
        assert HasKey(a.entries, b.entries[i].0);
        var k :| 0 <= k < |a.entries| && a.entries[k].0 == b.entries[i].0;
        LookupFinds(a.entries, k);
        LookupFinds(b.entries, i);
        assert Exact(Children(a)[k], Lookup(b.entries, a.entries[k].0).value);
        assert Proper(Children(a)[k]) && Proper(Children(b)[i]);
        ExactSymmetric(Children(a)[k], Children(b)[i]);
      }
      forall i | 0 <= i < |a.entries| ensures HasKey(b.entries, a.entries[i].0) {
        assert Lookup(b.entries, a.entries[i].0).Some?;
      }
    }
  }

  /** What exact equality of objects says about one key. */
  lemma ExactAtKey(a: Json, b: Json, i: nat) returns (k: nat)
    requires a.Obj? && Exact(a, b) && i < |a.entries|
    ensures b.Obj? && k < |b.entries| && b.entries[k].0 == a.entries[i].0
    ensures Lookup(b.entries, a.entries[i].0) == Some(b.entries[k].1) && Exact(Children(a)[i], b.entries[k].1)
  {
    assert Exact(Children(a)[i], Lookup(b.entries, a.entries[i].0).value);
    k :| 0 <= k < |b.entries| && b.entries[k] == (a.entries[i].0, Lookup(b.entries, a.entries[i].0).value);
  }

  lemma {:induction false} ExactKeys(a: Json, b: Json, i: nat)
    requires a.Obj? && Exact(a, b) && b.Obj? && i < |b.entries|
    ensures HasKey(a.entries, b.entries[i].0)
  {
  }

  lemma {:induction false} KeysCompose(a: Json, b: Json, c: Json, i: nat)
    requires a.Obj? && b.Obj? && c.Obj? && Exact(a, b) && Exact(b, c) && i < |c.entries|
    ensures HasKey(a.entries, c.entries[i].0)
  {
    ExactKeys(b, c, i);
    var k :| 0 <= k < |b.entries| && b.entries[k].0 == c.entries[i].0;
    ExactKeys(a, b, k);
  }

  lemma {:induction false} ExactTransitive(a: Json, b: Json, c: Json)
    requires Exact(a, b) && Exact(b, c)
    ensures Exact(a, c)
    decreases a
  {
    match a {
      case Dec(_, d) =>
        EqualTransitive(d, b.d, c.d);
      case Arr(items) =>
        forall i | 0 <= i < |Children(a)| ensures Exact(Children(a)[i], c.items[i]) {
          assert Exact(Children(b)[i], c.items[i]);
          ExactTransitive(Children(a)[i], b.items[i], c.items[i]);
        }
      case Obj(entries) =>
        forall i | 0 <= i < |Children(a)|
          ensures Lookup(c.entries, entries[i].0).Some? && Exact(Children(a)[i], Lookup(c.entries, entries[i].0).value)
        {
          var k := ExactAtKey(a, b, i);
          var l := ExactAtKey(b, c, k);
          ExactTransitive(Children(a)[i], b.entries[k].1, c.entries[l].1);
        }
        forall i | 0 <= i < |c.entries| ensures HasKey(entries, c.entries[i].0) {
          KeysCompose(a, b, c, i);
        }
      case _ =>
    }
  }
}
