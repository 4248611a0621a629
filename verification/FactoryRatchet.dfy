/**
  The allowlist guard (scripts/check_extension_factories.py): matching scanned sites with entries that carry
  an owning issue, and the `--write` and plain runs over the allowlist file.

  The source tree is its scanned sites; the file is its parsed value. Python's `True` and `False` are the
  integers 1 and 0 here.
 */
module FactoryRatchet {
  import opened Integers
  import opened Wrappers

  datatype Site = Site(kind: string, call: string, path: string)

  datatype Field = Missing | Text(text: string) | Number(n: int) | Other(id: nat)

  /** An object of the allowlist's `sites` array; any field may be absent or of another type. */
  datatype Entry = Entry(kind: Field, call: Field, path: Field, issue: Field, extra: map<string, Field>)

  predicate Owns(e: Entry, s: Site) {
    e.kind == Text(s.kind) && e.call == Text(s.call) && e.path == Text(s.path) && e.issue.Number? && e.issue.n > 0
  }

  function Owned(s: Site, issue: int): Entry {
    Entry(Text(s.kind), Text(s.call), Text(s.path), Number(issue), map[])
  }

  // ---- attach_owning_issues ------------------------------------------------

  /** Where the first entry that owns the site stands, or the length when none does. */
  function FirstOwner(remaining: seq<Entry>, s: Site): (i: nat)
    ensures i <= |remaining|
    ensures forall k :: 0 <= k < i ==> !Owns(remaining[k], s)
    ensures i < |remaining| ==> Owns(remaining[i], s)
  {
    if remaining == [] then 0
    else if Owns(remaining[0], s) then 0
    else 1 + FirstOwner(remaining[1..], s)
  }

  function Without(entries: seq<Entry>, i: nat): seq<Entry>
    requires i < |entries|
  {
    entries[..i] + entries[i + 1..]
  }

  /** One turn of the outer loop: what the site resolves to, and the entries left for the later ones. */
  function ResolveOne(site: Site, remaining: seq<Entry>): (Option<Entry>, seq<Entry>) {
    var i := FirstOwner(remaining, site);
    if i == |remaining| then (None, remaining)
    else (Some(Owned(site, remaining[i].issue.n)), Without(remaining, i))
  }

  function Resolve(scanned: seq<Site>, remaining: seq<Entry>): (r: seq<Option<Entry>>)
    ensures |r| == |scanned|
  {
    if scanned == [] then []
    else
      var (x, left) := ResolveOne(scanned[0], remaining);
      [x] + Resolve(scanned[1..], left)
  }

  function Attached(resolved: seq<Option<Entry>>): seq<Entry> {
    if resolved == [] then []
    else (if resolved[0].Some? then [resolved[0].value] else []) + Attached(resolved[1..])
  }

  function Unattached(scanned: seq<Site>, resolved: seq<Option<Entry>>): seq<Site>
    requires |scanned| == |resolved|
  {
    if resolved == [] then []
    else (if resolved[0].Some? then [] else [scanned[0]]) + Unattached(scanned[1..], resolved[1..])
  }

  lemma {:induction false} AttachedOfAppend(a: seq<Option<Entry>>, x: Option<Entry>)
    ensures Attached(a + [x]) == Attached(a) + (if x.Some? then [x.value] else [])
  {
    if a == [] {
      assert a + [x] == [x];
    } else {
      AttachedOfAppend(a[1..], x);
      assert (a + [x])[1..] == a[1..] + [x];
    }
  }

  lemma {:induction false} UnattachedOfAppend(ss: seq<Site>, a: seq<Option<Entry>>, s: Site, x: Option<Entry>)
    requires |ss| == |a|
    ensures Unattached(ss + [s], a + [x]) == Unattached(ss, a) + (if x.Some? then [] else [s])
    decreases |a|
  {
    var ss', a' := ss + [s], a + [x];
    if a == [] {
      assert a'[1..] == [] && ss'[1..] == [];
      assert Unattached(ss'[1..], a'[1..]) == [];
    } else {
      assert a'[1..] == a[1..] + [x] && ss'[1..] == ss[1..] + [s];
      UnattachedOfAppend(ss[1..], a[1..], s, x);
      assert a'[0] == a[0] && ss'[0] == ss[0];
    }
  }

  lemma {:induction false} ResolveNext(scanned: seq<Site>, index: nat, allowed: seq<Entry>, done: seq<Option<Entry>>,
                                       remaining: seq<Entry>)
    requires index < |scanned|
    requires Resolve(scanned, allowed) == done + Resolve(scanned[index..], remaining)
    ensures var (x, left) := ResolveOne(scanned[index], remaining);
            Resolve(scanned, allowed) == (done + [x]) + Resolve(scanned[index + 1..], left)
  {
    assert scanned[index..][0] == scanned[index] && scanned[index..][1..] == scanned[index + 1..];
    var (x, left) := ResolveOne(scanned[index], remaining);
    var rest := Resolve(scanned[index + 1..], left);
    assert Resolve(scanned[index..], remaining) == [x] + rest;
    assert done + ([x] + rest) == (done + [x]) + rest;
  }

  /** The inner loop: the position `remaining.pop` gets, or the length. */
  method FindOwner(remaining: seq<Entry>, site: Site) returns (a: nat)
    ensures a == FirstOwner(remaining, site)
  {
    a := 0;
    while a < |remaining| && !Owns(remaining[a], site)
      invariant a <= |remaining|
      invariant forall k :: 0 <= k < a ==> !Owns(remaining[k], site)
    {
      a := a + 1;
    }
    var i := FirstOwner(remaining, site);
    assert !(i < a) && !(a < i);
  }

  method ResolveSites(scanned: seq<Site>, allowed: seq<Entry>) returns (resolved: seq<Option<Entry>>)
    ensures resolved == Resolve(scanned, allowed)
  {
    var remaining := allowed;
    resolved := [];
    assert scanned[0..] == scanned;
    for index := 0 to |scanned|
      invariant Resolve(scanned, allowed) == resolved + Resolve(scanned[index..], remaining)
    {
      ResolveNext(scanned, index, allowed, resolved, remaining);
      var a := FindOwner(remaining, scanned[index]);
      if a < |remaining| {
        resolved := resolved + [Some(Owned(scanned[index], remaining[a].issue.n))];
        remaining := Without(remaining, a);
      } else {
        resolved := resolved + [None];
      }
    }
  }

  method AttachOwningIssues(scanned: seq<Site>, allowed: seq<Entry>) returns (sites: seq<Entry>, unowned: seq<Site>)
    ensures sites == Attached(Resolve(scanned, allowed))
    ensures unowned == Unattached(scanned, Resolve(scanned, allowed))
  {
    var resolved := ResolveSites(scanned, allowed);
    sites, unowned := [], [];
    for index := 0 to |scanned|
      invariant sites == Attached(resolved[..index])
      invariant unowned == Unattached(scanned[..index], resolved[..index])
    {
      assert resolved[..index + 1] == resolved[..index] + [resolved[index]];
      assert scanned[..index + 1] == scanned[..index] + [scanned[index]];
      AttachedOfAppend(resolved[..index], resolved[index]);
      UnattachedOfAppend(scanned[..index], resolved[..index], scanned[index], resolved[index]);
      if resolved[index].Some? {
        sites := sites + [resolved[index].value];
      } else {
        unowned := unowned + [scanned[index]];
      }
    }
    assert resolved[..|scanned|] == resolved && scanned[..|scanned|] == scanned;
  }

  // ---- what the greedy match gives -----------------------------------------

  /** How often a site occurs. */
  function Count(s: Site, scanned: seq<Site>): nat {
    if scanned == [] then 0 else (if scanned[0] == s then 1 else 0) + Count(s, scanned[1..])
  }

  /** The issues that valid entries offer for a site, in the order of the file. */
  function Issues(s: Site, entries: seq<Entry>): seq<int> {
    if entries == [] then []
    else Offer(s, entries[0]) + Issues(s, entries[1..])
  }

  function Offer(s: Site, e: Entry): seq<int> {
    if Owns(e, s) then [e.issue.n] else []
  }

  lemma {:induction false} IssuesOfCons(s: Site, e: Entry, rest: seq<Entry>)
    ensures Issues(s, [e] + rest) == Offer(s, e) + Issues(s, rest)
  {
    assert ([e] + rest)[1..] == rest;
  }

  lemma {:induction false} IssuesOfConcat(s: Site, a: seq<Entry>, b: seq<Entry>)
    ensures Issues(s, a + b) == Issues(s, a) + Issues(s, b)
  {
    hide Offer;
    if a == [] {
      assert a + b == b;
    } else {
      IssuesOfConcat(s, a[1..], b);
      assert (a + b)[0] == a[0] && (a + b)[1..] == a[1..] + b;
      assert Issues(s, a + b) == Offer(s, a[0]) + (Issues(s, a[1..]) + Issues(s, b));
    }
  }

  lemma {:induction false} NoOwnerNoIssues(s: Site, entries: seq<Entry>)
    requires forall k :: 0 <= k < |entries| ==> !Owns(entries[k], s)
    ensures Issues(s, entries) == []
  {
    if entries != [] {
      NoOwnerNoIssues(s, entries[1..]);
    }
  }

  /** Taking the first owner of one site takes the first issue offered for it and no issue offered for another. */
  lemma {:induction false} TakingTheFirstOwner(s: Site, t: Site, remaining: seq<Entry>)
    requires FirstOwner(remaining, s) < |remaining|
    ensures var i := FirstOwner(remaining, s);
            if t == s then Issues(t, remaining) == [remaining[i].issue.n] + Issues(t, Without(remaining, i))
            else Issues(t, remaining) == Issues(t, Without(remaining, i))
  {
    hide Issues;
    var i := FirstOwner(remaining, s);
    assert remaining == remaining[..i] + ([remaining[i]] + remaining[i + 1..]);
    IssuesOfConcat(t, remaining[..i], [remaining[i]] + remaining[i + 1..]);
    IssuesOfConcat(t, remaining[..i], remaining[i + 1..]);
    IssuesOfCons(t, remaining[i], remaining[i + 1..]);
    if t == s {
      NoOwnerNoIssues(s, remaining[..i]);
    }
  }

  ghost predicate GreedyGives(t: Site, scanned: seq<Site>, allowed: seq<Entry>, owned: seq<Entry>, unowned: seq<Site>) {
    var offered := Issues(t, allowed);
    var taken := Min(Count(t, scanned), |offered|);
    Issues(t, owned) == offered[..taken] && Count(t, unowned) == Count(t, scanned) - taken
  }

  lemma {:induction false} GreedyWithoutOwner(t: Site, s: Site, rest: seq<Site>, allowed: seq<Entry>,
                                              owned: seq<Entry>, unowned: seq<Site>)
    requires GreedyGives(t, rest, allowed, owned, unowned)
    requires FirstOwner(allowed, s) == |allowed|
    ensures GreedyGives(t, [s] + rest, allowed, owned, [s] + unowned)
  {
    assert ([s] + rest)[1..] == rest && ([s] + unowned)[1..] == unowned;
    if t == s {
      NoOwnerNoIssues(s, allowed);
    }
  }

  lemma {:induction false} GreedyWithOwner(t: Site, s: Site, rest: seq<Site>, allowed: seq<Entry>, owned: seq<Entry>,
                                           unowned: seq<Site>)
    requires FirstOwner(allowed, s) < |allowed|
    requires GreedyGives(t, rest, Without(allowed, FirstOwner(allowed, s)), owned, unowned)
    ensures GreedyGives(t, [s] + rest, allowed, [Owned(s, allowed[FirstOwner(allowed, s)].issue.n)] + owned, unowned)
  {
    var e := Owned(s, allowed[FirstOwner(allowed, s)].issue.n);
    assert ([s] + rest)[1..] == rest && ([e] + owned)[1..] == owned;
    TakingTheFirstOwner(s, t, allowed);
    assert Owns(e, t) <==> t == s;
    if t == s {
      var offered := Issues(t, allowed);
      var n := Min(Count(t, rest), |offered| - 1);
      assert offered[1..] == Issues(t, Without(allowed, FirstOwner(allowed, s)));
      assert offered[..n + 1] == [offered[0]] + offered[1..][..n];
    }
  }

  /**
    For every site, min(times scanned, valid entries) of its occurrences are owned, they carry the first issues
    the file offers for it, in order and each once, and the other occurrences are reported.
   */
  lemma {:induction false} OwnsAsManyAsOffered(t: Site, scanned: seq<Site>, allowed: seq<Entry>)
    ensures var r := Resolve(scanned, allowed); GreedyGives(t, scanned, allowed, Attached(r), Unattached(scanned, r))
    decreases |scanned|
  {
    var r := Resolve(scanned, allowed);
    if scanned == [] {
      assert Issues(t, allowed)[..0] == [];
    } else {
      var s, rest := scanned[0], scanned[1..];
      assert scanned == [s] + rest;
      var i := FirstOwner(allowed, s);
      if i == |allowed| {
        OwnsAsManyAsOffered(t, rest, allowed);
        assert r[1..] == Resolve(rest, allowed);
        GreedyWithoutOwner(t, s, rest, allowed, Attached(r[1..]), Unattached(rest, r[1..]));
        assert Attached(r) == Attached(r[1..]);
      } else {
        OwnsAsManyAsOffered(t, rest, Without(allowed, i));
        assert r[1..] == Resolve(rest, Without(allowed, i));
        GreedyWithOwner(t, s, rest, allowed, Attached(r[1..]), Unattached(rest, r[1..]));
        assert Unattached(scanned, r) == Unattached(rest, r[1..]);
      }
    }
  }

  /** Nothing is reported exactly when the file offers at least as many issues for each site as it occurs. */
  lemma {:induction false} NothingUnownedExactlyWhenOffered(scanned: seq<Site>, allowed: seq<Entry>)
    ensures Unattached(scanned, Resolve(scanned, allowed)) == []
       <==> forall t :: Count(t, scanned) <= |Issues(t, allowed)|
  {
    var r := Resolve(scanned, allowed);
    var unowned := Unattached(scanned, r);
    forall t ensures GreedyGives(t, scanned, allowed, Attached(r), unowned) {
      OwnsAsManyAsOffered(t, scanned, allowed);
    }
    if unowned == [] {
      forall t ensures Count(t, scanned) <= |Issues(t, allowed)| {
        assert GreedyGives(t, scanned, allowed, Attached(r), unowned);
        assert Count(t, unowned) == 0;
      }
    } else {
      var t := unowned[0];
      assert GreedyGives(t, scanned, allowed, Attached(r), unowned);
      assert Count(t, unowned) > 0;
      assert !(Count(t, scanned) <= |Issues(t, allowed)|);
    }
  }

  /** The entries are the scanned sites in scan order, each with a positive issue and nothing more. */
  ghost predicate Lists(scanned: seq<Site>, entries: seq<Entry>) {
    |entries| == |scanned| &&
    forall i :: 0 <= i < |scanned| ==> Owns(entries[i], scanned[i]) && entries[i].extra == map[]
  }

  lemma {:induction false} FullyOwnedLists(scanned: seq<Site>, allowed: seq<Entry>)
    requires Unattached(scanned, Resolve(scanned, allowed)) == []
    ensures Lists(scanned, Attached(Resolve(scanned, allowed)))
    decreases |scanned|
  {
    if scanned != [] {
      var r := Resolve(scanned, allowed);
      var i := FirstOwner(allowed, scanned[0]);
      assert r[0].Some?;
      var left := Without(allowed, i);
      assert r[1..] == Resolve(scanned[1..], left);
      FullyOwnedLists(scanned[1..], left);
    }
  }

  /** Matching the scanned sites with their own list gives the list back. */
  lemma {:induction false} ListMatchesItself(scanned: seq<Site>, entries: seq<Entry>)
    requires Lists(scanned, entries)
    ensures Attached(Resolve(scanned, entries)) == entries
    ensures Unattached(scanned, Resolve(scanned, entries)) == []
    decreases |scanned|
  {
    if scanned != [] {
      assert FirstOwner(entries, scanned[0]) == 0;
      assert Without(entries, 0) == entries[1..];
      ListMatchesItself(scanned[1..], entries[1..]);
      assert entries[0] == Owned(scanned[0], entries[0].issue.n);
      assert Resolve(scanned, entries)[1..] == Resolve(scanned[1..], entries[1..]);
      assert entries == [entries[0]] + entries[1..];
    }
  }

  // ---- main ----------------------------------------------------------------

  const KINDS: seq<string> := ["assemblyBuilder", "descriptorCatalog", "registryFactory"]

  /** The allowlist file, as JSON gives it. */
  datatype File = File(ceilings: map<string, int>, slack: Option<map<string, int>>, sites: seq<Entry>)

  datatype Allowlist = Allowlist(ceilings: map<string, nat>, slack: map<string, nat>, sites: seq<Entry>)

  predicate Counts(m: map<string, int>) {
    forall k :: k in m ==> m[k] >= 0
  }

  function Parse(file: File, requireSlack: bool): Option<Allowlist> {
    if Counts(file.ceilings) && (requireSlack ==> file.slack.Some?) && (file.slack.Some? ==> Counts(file.slack.value))
    then Some(Allowlist(file.ceilings, if file.slack.Some? then file.slack.value else map[], file.sites))
    else None
  }

  /** What `--baseline-ref` or `--baseline-allowlist` leads to. */
  datatype Baseline = NotAsked | Unreadable | FromRef(file: File) | FromFile(file: File)

  function BaselineCeilings(b: Baseline): Option<map<string, nat>>
    requires b.FromRef? || b.FromFile?
  {
    var parsed := Parse(b.file, b.FromFile?);
    if parsed.Some? then Some(parsed.value.ceilings) else None
  }

  predicate Above(ceiling: nat, baseline: map<string, nat>, kind: string) {
    kind !in baseline || ceiling > baseline[kind]
  }

  function CountKind(kind: string, sites: seq<Entry>): nat {
    if sites == [] then 0 else (if sites[0].kind == Text(kind) then 1 else 0) + CountKind(kind, sites[1..])
  }

  predicate CoversKinds<V>(m: map<string, V>) {
    m.Keys == set k | k in KINDS
  }

  predicate BaselineHolds(list: Allowlist, b: Baseline)
    requires CoversKinds(list.ceilings)
  {
    match b
    case NotAsked => true
    case Unreadable => false
    case _ =>
      var base := BaselineCeilings(b);
      base.Some? && forall k :: k in KINDS ==> !Above(list.ceilings[k], base.value, k)
  }

  /** The exit code and the file afterwards. */
  datatype Outcome = Outcome(code: nat, file: File)

  predicate WithinSlack(count: nat, ceiling: nat, slack: nat) {
    count <= ceiling <= count + slack
  }

  predicate Over(list: Allowlist, sites: seq<Entry>, kinds: seq<string>)
    requires forall k :: k in kinds ==> k in list.ceilings
  {
    exists k :: k in kinds && CountKind(k, sites) > list.ceilings[k]
  }

  predicate Off(list: Allowlist, sites: seq<Entry>, kinds: seq<string>)
    requires forall k :: k in kinds ==> k in list.ceilings && k in list.slack
  {
    exists k :: k in kinds && !WithinSlack(CountKind(k, sites), list.ceilings[k], list.slack[k])
  }

  function Smallest(list: Allowlist, sites: seq<Entry>, kinds: seq<string>): map<string, int>
    requires forall k :: k in kinds ==> k in list.ceilings
  {
    map k | k in kinds :: Min(list.ceilings[k], CountKind(k, sites))
  }

  predicate Raised(list: Allowlist, sites: seq<Entry>)
    requires CoversKinds(list.ceilings)
  {
    Over(list, sites, KINDS)
  }

  predicate Drifted(list: Allowlist, sites: seq<Entry>)
    requires CoversKinds(list.ceilings) && CoversKinds(list.slack)
  {
    Off(list, sites, KINDS)
  }

  function Lowered(list: Allowlist, sites: seq<Entry>): (m: map<string, int>)
    requires CoversKinds(list.ceilings)
    ensures CoversKinds(m)
    ensures forall k :: k in KINDS ==> m[k] == Min(list.ceilings[k], CountKind(k, sites)) <= list.ceilings[k]
    ensures Counts(m)
  {
    Smallest(list, sites, KINDS)
  }

  predicate Usable(file: File, baseline: Baseline) {
    var parsed := Parse(file, true);
    && parsed.Some? && CoversKinds(parsed.value.ceilings) && CoversKinds(parsed.value.slack)
    && BaselineHolds(parsed.value, baseline)
  }

  function Guard(scanned: seq<Site>, file: File, baseline: Baseline, write: bool): Outcome {
    var refused := Outcome(1, file);
    if !Usable(file, baseline) then refused
    else
      var list := Parse(file, true).value;
      var r := Resolve(scanned, list.sites);
      var sites := Attached(r);
      if Unattached(scanned, r) != [] then refused
      else if write then
        if Raised(list, sites) then refused else Outcome(0, File(Lowered(list, sites), file.slack, sites))
      else if Drifted(list, sites) || sites != list.sites then refused
      else Outcome(0, file)
  }

  method CompareKinds(list: Allowlist, sites: seq<Entry>, kinds: seq<string>)
    returns (raised: bool, drifted: bool, lowered: map<string, int>)
    requires forall k :: k in kinds ==> k in list.ceilings && k in list.slack
    ensures raised == Over(list, sites, kinds)
    ensures drifted == Off(list, sites, kinds)
    ensures lowered == Smallest(list, sites, kinds)
  {
    raised, drifted, lowered := false, false, map[];
    for i := 0 to |kinds|
      invariant raised == Over(list, sites, kinds[..i])
      invariant drifted == Off(list, sites, kinds[..i])
      invariant lowered == Smallest(list, sites, kinds[..i])
    {
      var kind := kinds[i];
      assert kinds[..i + 1] == kinds[..i] + [kind];
      var count := CountKind(kind, sites);
      raised := raised || count > list.ceilings[kind];
      drifted := drifted || count > list.ceilings[kind] || list.ceilings[kind] - count > list.slack[kind];
      lowered := lowered[kind := Min(list.ceilings[kind], count)];
    }
    assert kinds[..|kinds|] == kinds;
  }

  method CompareCounts(list: Allowlist, sites: seq<Entry>) returns (raised: bool, drifted: bool, lowered: map<string, int>)
    requires CoversKinds(list.ceilings) && CoversKinds(list.slack)
    ensures raised == Raised(list, sites)
    ensures drifted == Drifted(list, sites)
    ensures lowered == Lowered(list, sites)
  {
    raised, drifted, lowered := CompareKinds(list, sites, KINDS);
  }

  /** `main` after its arguments: one scan, one read of the file, at most one write. */
  method RunGuard(scanned: seq<Site>, file: File, baseline: Baseline, write: bool) returns (code: nat, after: File)
    ensures Outcome(code, after) == Guard(scanned, file, baseline, write)
  {
    code, after := 1, file;
    if !Usable(file, baseline) {
      return;
    }
    var list := Parse(file, true).value;
    var sites, unowned := AttachOwningIssues(scanned, list.sites);
    if unowned != [] {
      return;
    }
    var raised, drifted, lowered := CompareCounts(list, sites);
    if write {
      if raised {
        return;
      }
      after := File(lowered, file.slack, sites);
    } else if drifted || sites != list.sites {
      return;
    }
    code := 0;
  }

  ghost predicate ChecksOut(scanned: seq<Site>, file: File, baseline: Baseline) {
    && Usable(file, baseline)
    && var list := Parse(file, true).value;
    && Lists(scanned, file.sites)
    && forall k :: k in KINDS ==>
         WithinSlack(CountKind(k, file.sites), list.ceilings[k], list.slack[k])
  }

  /**
    A plain run passes exactly when the file lists the scanned sites, in scan order and with nothing else, and
    each ceiling lies between its kind's count and that count plus the slack. It never changes the file.
   */
  lemma PlainRunPassesExactly(scanned: seq<Site>, file: File, baseline: Baseline)
    ensures Guard(scanned, file, baseline, false).code == 0 <==> ChecksOut(scanned, file, baseline)
    ensures Guard(scanned, file, baseline, false).file == file
  {
    if Lists(scanned, file.sites) {
      ListMatchesItself(scanned, file.sites);
    }
    if Unattached(scanned, Resolve(scanned, file.sites)) == [] {
      FullyOwnedLists(scanned, file.sites);
    }
  }

  /** A run that fails leaves the file alone; a run that succeeds raises no ceiling and keeps the slack. */
  lemma NoCeilingRises(scanned: seq<Site>, file: File, baseline: Baseline, write: bool)
    ensures var o := Guard(scanned, file, baseline, write);
            && (o.code != 0 || !write ==> o.file == file)
            && o.file.slack == file.slack
            && o.file.ceilings.Keys == file.ceilings.Keys
            && forall k :: k in file.ceilings ==> o.file.ceilings[k] <= file.ceilings[k]
  {
  }

  /** What a successful `--write` leaves: the scanned sites, and each ceiling at its count. */
  lemma WhatIsWritten(scanned: seq<Site>, file: File, baseline: Baseline)
    requires Guard(scanned, file, baseline, true).code == 0
    ensures var written := Guard(scanned, file, baseline, true).file;
            && Usable(written, baseline) && Lists(scanned, written.sites)
            && forall k :: k in KINDS ==> written.ceilings[k] == CountKind(k, written.sites)
  {
    FullyOwnedLists(scanned, file.sites);
    var list, written := Parse(file, true).value, Guard(scanned, file, baseline, true).file;
    assert Counts(written.ceilings) && Parse(written, true).Some?;
    forall k | k in KINDS ensures written.ceilings[k] == CountKind(k, written.sites) {
      assert CountKind(k, written.sites) <= list.ceilings[k];
    }
  }

  /** After a successful `--write` an unchanged tree passes the plain run, against the same baseline. */
  lemma WriteThenCheckPasses(scanned: seq<Site>, file: File, baseline: Baseline)
    requires Guard(scanned, file, baseline, true).code == 0
    ensures Guard(scanned, Guard(scanned, file, baseline, true).file, baseline, false).code == 0
  {
    WhatIsWritten(scanned, file, baseline);
    PlainRunPassesExactly(scanned, Guard(scanned, file, baseline, true).file, baseline);
  }

  /** Writing again over an unchanged tree writes the same file. */
  lemma WriteIsIdempotent(scanned: seq<Site>, file: File, baseline: Baseline)
    requires Guard(scanned, file, baseline, true).code == 0
    ensures Guard(scanned, Guard(scanned, file, baseline, true).file, baseline, true)
         == Guard(scanned, file, baseline, true)
  {
    var written := Guard(scanned, file, baseline, true).file;
    WhatIsWritten(scanned, file, baseline);
    ListMatchesItself(scanned, written.sites);
    var list := Parse(written, true).value;
    assert !Raised(list, written.sites);
    assert Lowered(list, written.sites) == written.ceilings;
  }

  /** One step of the allowlist's history: what the tree held then, and how the guard was run. */
  datatype Step = Step(scanned: seq<Site>, baseline: Baseline, write: bool)

  function After(file: File, steps: seq<Step>): File
    decreases |steps|
  {
    if steps == [] then file
    else After(Guard(steps[0].scanned, file, steps[0].baseline, steps[0].write).file, steps[1..])
  }

  /** Over any history of runs, on any trees, every ceiling only falls: the ratchet. */
  lemma {:induction false} CeilingsOnlyFall(file: File, steps: seq<Step>, n: nat)
    requires n <= |steps|
    ensures After(file, steps).ceilings.Keys == After(file, steps[..n]).ceilings.Keys == file.ceilings.Keys
    ensures forall k :: k in file.ceilings ==>
              After(file, steps).ceilings[k] <= After(file, steps[..n]).ceilings[k] <= file.ceilings[k]
    decreases |steps|
  {
    if steps != [] {
      var s := steps[0];
      var next := Guard(s.scanned, file, s.baseline, s.write).file;
      NoCeilingRises(s.scanned, file, s.baseline, s.write);
      if n == 0 {
        CeilingsOnlyFall(next, steps[1..], 0);
        assert steps[..0] == [];
      } else {
        CeilingsOnlyFall(next, steps[1..], n - 1);
        assert steps[..n][1..] == steps[1..][..n - 1];
      }
    }
  }
}
