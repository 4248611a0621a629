/**
  Range tables (tools/gen_grapheme_tables.py) for the property values of section 3 of UAX #29: coalescing,
  removing surrogates, and the check that categories do not overlap.
 */
module GraphemeRanges {
  import opened Integers
  import opened Wrappers
  import opened Sorting

  datatype Range = Range(lo: int, hi: int)

  const SURROGATE_LOW := 0xD800
  const SURROGATE_HIGH := 0xDFFF

  predicate Contains(r: Range, cp: int) {
    r.lo <= cp <= r.hi
  }

  /** The set of code points a list of ranges stands for. */
  predicate Denotes(rs: seq<Range>, cp: int) {
    exists i :: 0 <= i < |rs| && Contains(rs[i], cp)
  }

  ghost predicate SameSet(a: seq<Range>, b: seq<Range>) {
    forall cp :: Denotes(a, cp) <==> Denotes(b, cp)
  }

  ghost predicate Proper(rs: seq<Range>) {
    forall i :: 0 <= i < |rs| ==> rs[i].lo <= rs[i].hi
  }

  /** Each range ends at least one code point before the next one begins. */
  ghost predicate Gapped(rs: seq<Range>) {
    forall i, j :: 0 <= i < j < |rs| && j == i + 1 ==> rs[i].hi + 1 < rs[j].lo
  }

  ghost predicate Canonical(rs: seq<Range>) {
    Proper(rs) && Gapped(rs)
  }

  /** Python's order on pairs. */
  predicate ByPair(a: Range, b: Range) {
    a.lo < b.lo || (a.lo == b.lo && a.hi <= b.hi)
  }

  // ---- merge_ranges -------------------------------------------------------

  function MergeNext(out: seq<Range>, r: Range): seq<Range> {
    var n := |out| - 1;
    if out != [] && r.lo <= out[n].hi + 1 then out[..n] + [Range(out[n].lo, Max(out[n].hi, r.hi))] else out + [r]
  }

  function Merge(sorted: seq<Range>): seq<Range> {
    if sorted == [] then [] else MergeNext(Merge(sorted[..|sorted| - 1]), sorted[|sorted| - 1])
  }

  lemma MergeStep(sorted: seq<Range>, k: nat)
    requires k < |sorted|
    ensures Merge(sorted[..k + 1]) == MergeNext(Merge(sorted[..k]), sorted[k])
  {
    assert sorted[..k + 1][..k] == sorted[..k];
  }

  /** The loop, which edits the end of the table in place. */
  method MergeSorted(sorted: seq<Range>) returns (out: seq<Range>)
    ensures out == Merge(sorted)
  {
    out := [];
    for k := 0 to |sorted|
      invariant out == Merge(sorted[..k])
    {
      var r := sorted[k];
      MergeStep(sorted, k);
      var n := |out| - 1;
      if out != [] && r.lo <= out[n].hi + 1 {
        assert out[n := Range(out[n].lo, Max(out[n].hi, r.hi))] == out[..n] + [Range(out[n].lo, Max(out[n].hi, r.hi))];
        out := out[n := Range(out[n].lo, Max(out[n].hi, r.hi))];
      } else {
        out := out + [r];
      }
    }
    assert sorted[..|sorted|] == sorted;
  }

  method MergeRanges(ranges: seq<Range>) returns (out: seq<Range>)
    ensures out == Merge(SortBy(ByPair, ranges))
    ensures Gapped(out)
    ensures SameSet(out, ranges)
    ensures Canonical(out) <==> AllAbsorbed(ranges)
  {
    out := MergeSorted(SortBy(ByPair, ranges));
    MergedKeeps(ranges);
    CanonicalExactly(ranges);
  }

  lemma DenotesOfAppend(rs: seq<Range>, r: Range, cp: int)
    ensures Denotes(rs + [r], cp) <==> Denotes(rs, cp) || Contains(r, cp)
  {
    var longer := rs + [r];
    assert longer[|rs|] == r;
    assert forall i :: 0 <= i < |rs| ==> longer[i] == rs[i];
  }

  lemma MergeNextDenotes(out: seq<Range>, r: Range, cp: int)
    requires out != [] ==> out[|out| - 1].lo <= r.lo
    ensures Denotes(MergeNext(out, r), cp) <==> Denotes(out, cp) || Contains(r, cp)
  {
    var n := |out| - 1;
    DenotesOfAppend(out, r, cp);
    if out != [] {
      assert out == out[..n] + [out[n]];
      DenotesOfAppend(out[..n], out[n], cp);
      DenotesOfAppend(out[..n], Range(out[n].lo, Max(out[n].hi, r.hi)), cp);
    }
  }

  lemma MergeNextKeeps(out: seq<Range>, r: Range)
    requires Gapped(out)
    ensures Gapped(MergeNext(out, r))
  {
  }

  /** What the loop keeps: the same code points, gaps, and a last range that starts no later than what follows. */
  ghost predicate Kept(read: seq<Range>, out: seq<Range>) {
    && Gapped(out) && SameSet(out, read)
    && (read != [] ==> out != [] && out[|out| - 1].lo <= read[|read| - 1].lo)
    && (read == [] ==> out == [])
  }

  lemma KeptGrows(read: seq<Range>, out: seq<Range>, r: Range)
    requires Kept(read, out) && (read != [] ==> read[|read| - 1].lo <= r.lo)
    ensures Kept(read + [r], MergeNext(out, r))
  {
    MergeNextKeeps(out, r);
    forall cp ensures Denotes(MergeNext(out, r), cp) <==> Denotes(read + [r], cp) {
      MergeNextDenotes(out, r, cp);
      DenotesOfAppend(read, r, cp);
    }
  }

  lemma Neighbours(sorted: seq<Range>, k: nat)
    requires SortedBy(ByPair, sorted) && k < |sorted|
    ensures k > 0 ==> sorted[k - 1].lo <= sorted[k].lo
    ensures Follows(sorted[..k], sorted[k])
  {
    assert k > 0 ==> ByPair(sorted[k - 1], sorted[k]);
  }

  lemma KeptNothing()
    ensures Kept([], [])
  {
  }

  lemma KeptOneMore(sorted: seq<Range>, k: nat)
    requires k < |sorted| && (k > 0 ==> sorted[k - 1].lo <= sorted[k].lo)
    requires Kept(sorted[..k], Merge(sorted[..k]))
    ensures Kept(sorted[..k + 1], Merge(sorted[..k + 1]))
  {
    var front, out, r := sorted[..k], Merge(sorted[..k]), sorted[k];
    MergeStep(sorted, k);
    assert sorted[..k + 1] == front + [r];
    KeptGrows(front, out, r);
  }

  lemma {:induction false} MergeKeeps(sorted: seq<Range>, k: nat)
    requires SortedBy(ByPair, sorted) && k <= |sorted|
    ensures Kept(sorted[..k], Merge(sorted[..k]))
  {
    if k == 0 {
      KeptNothing();
      assert sorted[..0] == [];
    } else {
      MergeKeeps(sorted, k - 1);
      Neighbours(sorted, k - 1);
      KeptOneMore(sorted, k - 1);
    }
  }

  lemma ByPairIsTotal()
    ensures TotalPreorder(ByPair) && Antisymmetric(ByPair)
  {
  }

  lemma {:induction false} MergedKeeps(ranges: seq<Range>)
    ensures var out := Merge(SortBy(ByPair, ranges)); Gapped(out) && SameSet(out, ranges)
  {
    var sorted := SortBy(ByPair, ranges);
    ByPairIsTotal();
    SortBySorts(ByPair, ranges);
    SortByElements(ByPair, ranges);
    MergeKeeps(sorted, |sorted|);
    assert sorted[..|sorted|] == sorted;
    forall cp ensures Denotes(sorted, cp) <==> Denotes(ranges, cp) {
      if Denotes(sorted, cp) {
        var i :| 0 <= i < |sorted| && Contains(sorted[i], cp);
        assert sorted[i] in sorted;
        var j :| 0 <= j < |ranges| && ranges[j] == sorted[i];
      }
      if Denotes(ranges, cp) {
        var i :| 0 <= i < |ranges| && Contains(ranges[i], cp);
        assert ranges[i] in ranges;
        var j :| 0 <= j < |sorted| && sorted[j] == ranges[i];
      }
    }
  }

  // ---- reversed ranges ------------------------------------------------------

  predicate Reversed(r: Range) {
    r.hi < r.lo
  }

  /** Another range swallows a reversed one: it starts before it and reaches it, or starts with it and ends after it. */
  predicate Absorbs(q: Range, r: Range) {
    q.lo < r.lo <= q.hi + 1 || (r.lo == r.hi + 1 && q.lo == r.lo <= q.hi)
  }

  ghost predicate Absorbed(rs: seq<Range>, r: Range) {
    exists q :: q in rs && Absorbs(q, r)
  }

  /** What a caller can check of the input: every reversed range has one that absorbs it. */
  ghost predicate AllAbsorbed(rs: seq<Range>) {
    forall r :: r in rs && Reversed(r) ==> Absorbed(rs, r)
  }

  /** The end of the table after the ranges `read`: where it starts, how far it reaches, and what lies before it. */
  ghost predicate Shaped(read: seq<Range>, out: seq<Range>) {
    && (out == [] <==> read == [])
    && (out != [] ==>
          var last := out[|out| - 1];
          && (forall e :: e in out[..|out| - 1] ==> e.hi + 1 < last.lo && e.lo <= last.lo)
          && (forall p :: p in read ==> p.hi <= last.hi || p.hi + 1 < last.lo)
          && (exists p :: p in read && p.hi == last.hi)
          && (exists p :: p in read && p.lo == last.lo))
  }

  /** The reversed ranges of the table are the reversed ranges that nothing read so far absorbs. */
  ghost predicate Unabsorbed(read: seq<Range>, out: seq<Range>) {
    forall e :: Reversed(e) ==> (e in out <==> e in read && !Absorbed(read, e))
  }

  ghost predicate Follows(read: seq<Range>, r: Range) {
    forall p :: p in read ==> ByPair(p, r)
  }

  lemma ShapeGrows(read: seq<Range>, out: seq<Range>, r: Range)
    requires Shaped(read, out) && Follows(read, r)
    ensures Shaped(read + [r], MergeNext(out, r))
  {
    var next := MergeNext(out, r);
    var m := |next| - 1;
    if out == [] {
      assert next == [r] && next[..m] == [];
    } else {
      var n, last := |out| - 1, out[|out| - 1];
      var start :| start in read && start.lo == last.lo;
      assert last.lo <= r.lo;
      if r.lo <= last.hi + 1 {
        assert next[..m] == out[..n] && next[m] == Range(last.lo, Max(last.hi, r.hi));
        assert start in read + [r];
        var far :| far in read && far.hi == last.hi;
        assert far in read + [r] && r in read + [r];
      } else {
        assert next[..m] == out && next[m] == r;
        assert out == out[..n] + [last];
        assert r in read + [r];
        forall p | p in read ensures p.hi + 1 < r.lo {
        }
      }
    }
  }

  lemma AbsorbedLater(read: seq<Range>, r: Range, e: Range)
    ensures Absorbed(read + [r], e) <==> Absorbed(read, e) || Absorbs(r, e)
  {
    if Absorbed(read, e) {
      var q :| q in read && Absorbs(q, e);
      assert q in read + [r];
    }
    assert r in read + [r];
  }

  /** A range that starts a new one: nothing before reaches it, and it absorbs nothing. */
  lemma UnabsorbedAppends(read: seq<Range>, out: seq<Range>, r: Range, e: Range)
    requires Shaped(read, out) && Unabsorbed(read, out) && Follows(read, r) && Reversed(e)
    requires out == [] || out[|out| - 1].hi + 1 < r.lo
    ensures e in out + [r] <==> e in read + [r] && !Absorbed(read + [r], e)
  {
    AbsorbedLater(read, r, e);
    forall p | p in read ensures p.hi + 1 < r.lo {
      assert out != [];
      var start :| start in read && start.lo == out[|out| - 1].lo;
      assert ByPair(start, r);
    }
    if e == r {
      assert !Absorbed(read, r);
    } else if e in read {
      assert ByPair(e, r) && !Absorbs(r, e);
    }
  }

  /** A reversed end of the table that `r` touches starts where `r` does and just misses it. */
  lemma TouchedReversed(last: Range, r: Range)
    requires Reversed(last) && last.lo <= r.lo <= last.hi + 1
    ensures r.lo == last.lo == last.hi + 1
    ensures Absorbs(r, last) <==> r.hi > last.hi
  {
  }

  lemma MergedEnd(last: Range, r: Range)
    requires last.lo <= r.lo <= last.hi + 1
    ensures var end := Range(last.lo, Max(last.hi, r.hi)); Reversed(end) ==> end == last && !Absorbs(r, last)
  {
  }

  lemma ReversedIsReached(read: seq<Range>, out: seq<Range>, r: Range)
    requires Shaped(read, out) && Follows(read, r) && out != [] && r.lo <= out[|out| - 1].hi + 1
    requires Reversed(r)
    ensures r in read || Absorbed(read, r)
  {
    var far :| far in read && far.hi == out[|out| - 1].hi;
    assert ByPair(far, r);
    if far.lo < r.lo {
      assert Absorbs(far, r);
    } else {
      assert far.hi == r.lo - 1 == r.hi;
      assert far == r;
    }
  }

  /** A range that the end of the table takes in. */
  lemma UnabsorbedMerges(read: seq<Range>, out: seq<Range>, r: Range, e: Range)
    requires Shaped(read, out) && Unabsorbed(read, out) && Follows(read, r) && Reversed(e)
    requires out != [] && r.lo <= out[|out| - 1].hi + 1
    ensures e in MergeNext(out, r) <==> e in read + [r] && !Absorbed(read + [r], e)
  {
    var n, last := |out| - 1, out[|out| - 1];
    var end := Range(last.lo, Max(last.hi, r.hi));
    assert out == out[..n] + [last];
    assert MergeNext(out, r) == out[..n] + [end];
    var start :| start in read && start.lo == last.lo;
    assert ByPair(start, r) && last.lo <= r.lo;
    AbsorbedLater(read, r, e);
    MergedEnd(last, r);
    if e == r {
      ReversedIsReached(read, out, r);
    }
    assert Absorbs(r, r) ==> !Reversed(r);
    if e in read && Absorbs(r, e) {
      assert ByPair(e, r);
      assert e.lo == r.lo == e.hi + 1;
    }
    if e == last {
      TouchedReversed(last, r);
    }
  }

  lemma UnabsorbedGrows(read: seq<Range>, out: seq<Range>, r: Range)
    requires Shaped(read, out) && Unabsorbed(read, out) && Follows(read, r)
    ensures Unabsorbed(read + [r], MergeNext(out, r))
  {
    forall e | Reversed(e) ensures e in MergeNext(out, r) <==> e in read + [r] && !Absorbed(read + [r], e) {
      if out != [] && r.lo <= out[|out| - 1].hi + 1 {
        UnabsorbedMerges(read, out, r, e);
      } else {
        UnabsorbedAppends(read, out, r, e);
      }
    }
  }

  ghost predicate Tracks(read: seq<Range>, out: seq<Range>) {
    Shaped(read, out) && Unabsorbed(read, out)
  }

  lemma TracksGrows(read: seq<Range>, out: seq<Range>, r: Range)
    requires Tracks(read, out) && Follows(read, r)
    ensures Tracks(read + [r], MergeNext(out, r))
  {
    ShapeGrows(read, out, r);
    UnabsorbedGrows(read, out, r);
  }

  lemma TracksNothing()
    ensures Tracks([], [])
  {
  }

  lemma TracksOneMore(sorted: seq<Range>, k: nat)
    requires k < |sorted| && Follows(sorted[..k], sorted[k])
    requires Tracks(sorted[..k], Merge(sorted[..k]))
    ensures Tracks(sorted[..k + 1], Merge(sorted[..k + 1]))
  {
    var front, out, r := sorted[..k], Merge(sorted[..k]), sorted[k];
    MergeStep(sorted, k);
    assert sorted[..k + 1] == front + [r];
    TracksGrows(front, out, r);
  }

  lemma {:induction false} MergeTracks(sorted: seq<Range>, k: nat)
    requires SortedBy(ByPair, sorted) && k <= |sorted|
    ensures Tracks(sorted[..k], Merge(sorted[..k]))
  {
    if k == 0 {
      TracksNothing();
      assert sorted[..0] == [];
    } else {
      MergeTracks(sorted, k - 1);
      Neighbours(sorted, k - 1);
      TracksOneMore(sorted, k - 1);
    }
  }

  /** The table is canonical exactly when every reversed range of the input is absorbed by another. */
  lemma {:induction false} CanonicalExactly(ranges: seq<Range>)
    ensures Canonical(Merge(SortBy(ByPair, ranges))) <==> AllAbsorbed(ranges)
  {
    var sorted, out := SortBy(ByPair, ranges), Merge(SortBy(ByPair, ranges));
    ByPairIsTotal();
    SortBySorts(ByPair, ranges);
    SortByElements(ByPair, ranges);
    MergedKeeps(ranges);
    MergeTracks(sorted, |sorted|);
    assert sorted[..|sorted|] == sorted;
    forall r ensures Absorbed(sorted, r) <==> Absorbed(ranges, r) {
    }
    ProperExactly(out);
  }

  lemma ProperExactly(out: seq<Range>)
    ensures Proper(out) <==> forall e :: e in out ==> !Reversed(e)
  {
    if forall e :: e in out ==> !Reversed(e) {
      forall i | 0 <= i < |out| ensures out[i].lo <= out[i].hi {
        assert out[i] in out;
      }
    }
  }

  /** A reversed range denotes nothing, but it can survive into the table: the table is then not canonical. */
  lemma ReversedRangeSurvives()
    ensures Merge(SortBy(ByPair, [Range(5, 3)])) == [Range(5, 3)]
    ensures !Canonical(Merge(SortBy(ByPair, [Range(5, 3)])))
  {
    var one := [Range(5, 3)];
    assert one[..0] == [];
    assert SortBy(ByPair, one) == one;
    assert Merge(one) == one;
  }

  // ---- uniqueness ---------------------------------------------------------

  lemma {:induction false} CanonicalIsOrdered(rs: seq<Range>, i: nat, j: nat)
    requires Canonical(rs) && i < j < |rs|
    ensures rs[i].hi + 1 < rs[j].lo
  {
    if i + 1 < j {
      CanonicalIsOrdered(rs, i, j - 1);
      assert rs[j - 1].hi + 1 < rs[j].lo;
    }
  }

  /** The first range of a canonical list is the first maximal run of the set. */
  lemma FirstRun(rs: seq<Range>, cp: int)
    requires Canonical(rs) && rs != []
    ensures cp < rs[0].lo ==> !Denotes(rs, cp)
    ensures Contains(rs[0], cp) ==> Denotes(rs, cp)
    ensures !Denotes(rs, rs[0].hi + 1)
    ensures cp > rs[0].hi ==> (Denotes(rs, cp) <==> Denotes(rs[1..], cp))
  {
    forall i | 0 < i < |rs| ensures rs[0].hi + 1 < rs[i].lo {
      CanonicalIsOrdered(rs, 0, i);
    }
    assert forall i :: 0 <= i < |rs| - 1 ==> rs[1..][i] == rs[i + 1];
    if cp > rs[0].hi && Denotes(rs, cp) {
      var i :| 0 <= i < |rs| && Contains(rs[i], cp);
      assert Contains(rs[1..][i - 1], cp);
    }
  }

  lemma TailIsCanonical(rs: seq<Range>)
    requires Canonical(rs) && rs != []
    ensures Canonical(rs[1..])
    ensures forall cp :: cp <= rs[0].hi ==> !Denotes(rs[1..], cp)
  {
    assert forall i :: 0 <= i < |rs| - 1 ==> rs[1..][i] == rs[i + 1];
    forall i | 0 < i < |rs| ensures rs[0].hi + 1 < rs[i].lo {
      CanonicalIsOrdered(rs, 0, i);
    }
  }

  lemma SameFirstRun(a: seq<Range>, b: seq<Range>)
    requires Canonical(a) && Canonical(b) && SameSet(a, b) && a != []
    ensures b != [] && a[0] == b[0] && SameSet(a[1..], b[1..])
  {
    FirstRun(a, a[0].lo);
    assert Denotes(b, a[0].lo);
    FirstRun(b, b[0].lo);
    FirstRun(a, b[0].lo);
    FirstRun(b, a[0].lo);
    assert a[0].lo == b[0].lo;
    FirstRun(a, b[0].hi);
    FirstRun(b, a[0].hi);
    FirstRun(a, b[0].hi + 1);
    FirstRun(b, a[0].hi + 1);
    assert a[0].hi == b[0].hi;
    TailIsCanonical(a);
    TailIsCanonical(b);
    forall cp ensures Denotes(a[1..], cp) <==> Denotes(b[1..], cp) {
      FirstRun(a, cp);
      FirstRun(b, cp);
    }
  }

  /** A set of code points has one canonical list. */
  lemma {:induction false} CanonicalIsUnique(a: seq<Range>, b: seq<Range>)
    requires Canonical(a) && Canonical(b) && SameSet(a, b)
    ensures a == b
  {
    if b != [] {
      FirstRun(b, b[0].lo);
    }
    if a != [] {
      SameFirstRun(a, b);
      TailIsCanonical(a);
      TailIsCanonical(b);
      CanonicalIsUnique(a[1..], b[1..]);
      assert a == [a[0]] + a[1..] && b == [b[0]] + b[1..];
    }
  }

  /** Two inputs whose reversed ranges are absorbed are written alike exactly when they stand for the same code
      points. */
  lemma {:induction false} MergeDecidesEquality(a: seq<Range>, b: seq<Range>)
    requires AllAbsorbed(a) && AllAbsorbed(b)
    ensures Merge(SortBy(ByPair, a)) == Merge(SortBy(ByPair, b)) <==> SameSet(a, b)
  {
    MergedKeeps(a);
    MergedKeeps(b);
    CanonicalExactly(a);
    CanonicalExactly(b);
    if SameSet(a, b) {
      CanonicalIsUnique(Merge(SortBy(ByPair, a)), Merge(SortBy(ByPair, b)));
    }
  }

  // ---- surrogates ---------------------------------------------------------

  /** Set difference with the surrogates. */
  method RemoveSurrogates(ranges: seq<Range>) returns (out: seq<Range>)
    ensures forall cp :: Denotes(out, cp) <==> Denotes(ranges, cp) && !(SURROGATE_LOW <= cp <= SURROGATE_HIGH)
    ensures Proper(ranges) ==> Proper(out)
  {
    out := [];
    for k := 0 to |ranges|
      invariant forall cp :: Denotes(out, cp) <==> Denotes(ranges[..k], cp) && !(SURROGATE_LOW <= cp <= SURROGATE_HIGH)
      invariant Proper(ranges) ==> Proper(out)
    {
      var r := ranges[k];
      ghost var before := out;
      assert ranges[..k + 1] == ranges[..k] + [r];
      if r.hi < SURROGATE_LOW || r.lo > SURROGATE_HIGH {
        out := out + [r];
      } else {
        if r.lo < SURROGATE_LOW {
          out := out + [Range(r.lo, 0xD7FF)];
        }
        if r.hi > SURROGATE_HIGH {
          out := out + [Range(0xE000, r.hi)];
        }
      }
      forall cp ensures Denotes(out, cp) <==> Denotes(ranges[..k + 1], cp) && !(SURROGATE_LOW <= cp <= SURROGATE_HIGH) {
        DenotesOfAppend(ranges[..k], r, cp);
        DenotesOfAppend(before, r, cp);
        DenotesOfAppend(before, Range(r.lo, 0xD7FF), cp);
        DenotesOfAppend(before, Range(0xE000, r.hi), cp);
        DenotesOfAppend(before + [Range(r.lo, 0xD7FF)], Range(0xE000, r.hi), cp);
      }
    }
    assert ranges[..|ranges|] == ranges;
  }

  // ---- the overlap check --------------------------------------------------

  datatype Category = Category(name: string, ranges: seq<Range>)

  ghost predicate Overlap(cats: seq<Category>, i: int, j: int, cp: int) {
    0 <= i < j < |cats| && Denotes(cats[i].ranges, cp) && Denotes(cats[j].ranges, cp)
  }

  /** Walks one canonical table; stops at the first code point that is covered already. */
  method CoverCategory(ranges: seq<Range>, before: set<int>) returns (covered: set<int>, clash: Option<int>)
    requires Canonical(ranges)
    ensures clash == None ==> forall cp :: cp in covered <==> cp in before || Denotes(ranges, cp)
    ensures clash == None ==> forall cp :: !(cp in before && Denotes(ranges, cp))
    ensures clash.Some? ==> clash.value in before && Denotes(ranges, clash.value)
  {
    covered := before;
    for k := 0 to |ranges|
      invariant forall cp :: cp in covered <==> cp in before || Denotes(ranges[..k], cp)
      invariant forall cp :: !(cp in before && Denotes(ranges[..k], cp))
    {
      var r := ranges[k];
      assert ranges[..k + 1] == ranges[..k] + [r];
      ghost var start := covered;
      forall cp | Contains(r, cp) ensures !Denotes(ranges[..k], cp) {
        NotInEarlierRange(ranges, k, cp);
      }
      var cp := r.lo;
      while cp <= r.hi
        invariant r.lo <= cp <= r.hi + 1
        invariant forall x :: x in covered <==> x in start || r.lo <= x < cp
        invariant forall x :: r.lo <= x < cp ==> x !in start
      {
        if cp in covered {
          assert Contains(ranges[k], cp);
          return covered, Some(cp);
        }
        covered := covered + {cp};
        cp := cp + 1;
      }
      forall x ensures Denotes(ranges[..k + 1], x) <==> Denotes(ranges[..k], x) || Contains(r, x) {
        DenotesOfAppend(ranges[..k], r, x);
      }
    }
    assert ranges[..|ranges|] == ranges;
    clash := None;
  }

  lemma NotInEarlierRange(ranges: seq<Range>, k: nat, cp: int)
    requires Canonical(ranges) && k < |ranges| && Contains(ranges[k], cp)
    ensures !Denotes(ranges[..k], cp)
  {
    forall i | 0 <= i < k ensures !Contains(ranges[..k][i], cp) {
      CanonicalIsOrdered(ranges, i, k);
    }
  }

  /** The generator stops exactly when two different categories share a code point, and then at one of them. */
  method CheckDisjoint(cats: seq<Category>) returns (clash: Option<(int, string)>)
    requires forall i :: 0 <= i < |cats| ==> Canonical(cats[i].ranges)
    ensures clash == None <==> forall i, j, cp :: !Overlap(cats, i, j, cp)
    ensures clash.Some? ==> exists i, j :: Overlap(cats, i, j, clash.value.0) && cats[j].name == clash.value.1
  {
    var covered: set<int> := {};
    for j := 0 to |cats|
      invariant forall cp :: cp in covered <==> exists i :: 0 <= i < j && Denotes(cats[i].ranges, cp)
      invariant forall i, k, cp :: k < j ==> !Overlap(cats, i, k, cp)
    {
      var now, found := CoverCategory(cats[j].ranges, covered);
      if found.Some? {
        var i :| 0 <= i < j && Denotes(cats[i].ranges, found.value);
        assert Overlap(cats, i, j, found.value);
        return Some((found.value, cats[j].name));
      }
      covered := now;
    }
    clash := None;
  }
}
