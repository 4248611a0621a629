/**
  The segment part of `diff_smaps` (scripts/capture_process_memory.py): two address spaces cut at
  every boundary of either one, so that splits and merges line up. Addresses are integers, and a
  segment carries the mappings whose two ids the script reports.
 */
module SmapsSegments {
  import opened Wrappers
  import opened Sorting
  import opened SmapsMapping

  datatype Segment = Segment(start: int, end: int, before: Option<Mapping>, after: Option<Mapping>)

  ghost predicate Disjoint(ms: seq<Mapping>) {
    forall i, j :: 0 <= i < j < |ms| ==> ms[i].end <= ms[j].start || ms[j].end <= ms[i].start
  }

  predicate Holds(m: Mapping, address: int) {
    m.start <= address < m.end
  }

  /** `m` is the mapping of `ms` that holds `address`, or nothing holds it. */
  ghost predicate IsHolder(ms: seq<Mapping>, address: int, m: Option<Mapping>) {
    match m
    case Some(holder) => holder in ms && Holds(holder, address) && forall n :: n in ms && Holds(n, address) ==> n == holder
    case None => forall n :: n in ms ==> !Holds(n, address)
  }

  /** `_covering_mapping`: the first mapping that contains the whole stretch. */
  function Covering(ms: seq<Mapping>, start: int, end: int): Option<Mapping> {
    if ms == [] then None
    else if ms[0].start <= start && end <= ms[0].end then Some(ms[0])
    else Covering(ms[1..], start, end)
  }

  function Ends(ms: seq<Mapping>): seq<int> {
    if ms == [] then [] else Ends(ms[..|ms| - 1]) + [ms[|ms| - 1].start, ms[|ms| - 1].end]
  }

  function Boundaries(before: seq<Mapping>, after: seq<Mapping>): seq<int> {
    SortedSet(IntLess, Ends(before) + Ends(after))
  }

  function Stretch(before: seq<Mapping>, after: seq<Mapping>, start: int, end: int): seq<Segment> {
    var left, right := Covering(before, start, end), Covering(after, start, end);
    if left == None && right == None then [] else [Segment(start, end, left, right)]
  }

  /** The segments of the first `k` stretches between neighbouring boundaries. */
  function SegmentsUpTo(before: seq<Mapping>, after: seq<Mapping>, bs: seq<int>, k: nat): seq<Segment>
    requires k == 0 || k < |bs|
  {
    if k == 0 then [] else SegmentsUpTo(before, after, bs, k - 1) + Stretch(before, after, bs[k - 1], bs[k])
  }

  function Segments(before: seq<Mapping>, after: seq<Mapping>): seq<Segment> {
    var bs := Boundaries(before, after);
    SegmentsUpTo(before, after, bs, if bs == [] then 0 else |bs| - 1)
  }

  method ComputeSegments(before: seq<Mapping>, after: seq<Mapping>) returns (segments: seq<Segment>)
    ensures segments == Segments(before, after)
  {
    var ends: seq<int> := [];
    for i := 0 to |before|
      invariant ends == Ends(before[..i])
    {
      assert before[..i + 1][..i] == before[..i];
      ends := ends + [before[i].start, before[i].end];
    }
    assert before[..|before|] == before;
    for i := 0 to |after|
      invariant ends == Ends(before) + Ends(after[..i])
    {
      assert after[..i + 1][..i] == after[..i];
      ends := ends + [after[i].start, after[i].end];
    }
    assert after[..|after|] == after;
    var bs := SortedSet(IntLess, ends);
    segments := [];
    var k := 0;
    while k + 1 < |bs|
      invariant k == 0 || k < |bs|
      invariant segments == SegmentsUpTo(before, after, bs, k)
    {
      var start, end := bs[k], bs[k + 1];
      var left, right := Covering(before, start, end), Covering(after, start, end);
      k := k + 1;
      if left == None && right == None {
        continue;
      }
      segments := segments + [Segment(start, end, left, right)];
    }
  }

  // ---- boundaries ---------------------------------------------------------

  lemma {:induction false} EndsOfMember(ms: seq<Mapping>, i: nat)
    requires i < |ms|
    ensures ms[i].start in Ends(ms) && ms[i].end in Ends(ms)
  {
    var n := |ms| - 1;
    if i < n {
      assert ms[..n][i] == ms[i];
      EndsOfMember(ms[..n], i);
    } else {
      assert Ends(ms)[|Ends(ms[..n])|] == ms[n].start;
      assert Ends(ms)[|Ends(ms[..n])| + 1] == ms[n].end;
    }
  }

  /** Ascending cut points among which are both ends of every mapping of `ms`. */
  ghost predicate Cuts(bs: seq<int>, ms: seq<Mapping>) {
    && Ascending(IntLess, bs)
    && forall i :: 0 <= i < |ms| ==> ms[i].start in bs && ms[i].end in bs
  }

  lemma {:induction false} BoundariesCut(before: seq<Mapping>, after: seq<Mapping>)
    ensures Cuts(Boundaries(before, after), before) && Cuts(Boundaries(before, after), after)
  {
    IntLessIsStrict();
    SortedSetAscends(IntLess, Ends(before) + Ends(after));
    forall i | 0 <= i < |before| ensures before[i].start in Boundaries(before, after) && before[i].end in Boundaries(before, after) {
      EndsOfMember(before, i);
    }
    forall i | 0 <= i < |after| ensures after[i].start in Boundaries(before, after) && after[i].end in Boundaries(before, after) {
      EndsOfMember(after, i);
    }
  }

  /** No cut point lies strictly between two neighbours. */
  lemma NoCutBetween(bs: seq<int>, i: nat, x: int)
    requires Ascending(IntLess, bs) && i + 1 < |bs| && x in bs
    ensures x <= bs[i] || bs[i + 1] <= x
  {
    var j :| 0 <= j < |bs| && bs[j] == x;
    assert j < i ==> IntLess(bs[j], bs[i]);
    assert i + 1 < j ==> IntLess(bs[i + 1], bs[j]);
  }

  lemma CoverOrMiss(bs: seq<int>, ms: seq<Mapping>, i: nat, address: int, m: Mapping)
    requires Cuts(bs, ms) && i + 1 < |bs| && bs[i] <= address < bs[i + 1] && m in ms
    ensures Holds(m, address) <==> m.start <= bs[i] && bs[i + 1] <= m.end
  {
    var q :| 0 <= q < |ms| && ms[q] == m;
    NoCutBetween(bs, i, ms[q].start);
    NoCutBetween(bs, i, ms[q].end);
  }

  lemma {:induction false} CoveringFinds(ms: seq<Mapping>, start: int, end: int)
    ensures match Covering(ms, start, end)
            case Some(m) => m in ms && m.start <= start && end <= m.end
            case None => forall m :: m in ms ==> !(m.start <= start && end <= m.end)
  {
    if ms != [] && !(ms[0].start <= start && end <= ms[0].end) {
      CoveringFinds(ms[1..], start, end);
      assert ms == [ms[0]] + ms[1..];
    }
  }

  /** Between two neighbouring cuts, the covering mapping is the holder of every address. */
  lemma {:induction false} CoveringIsHolder(bs: seq<int>, ms: seq<Mapping>, i: nat, address: int)
    requires Cuts(bs, ms) && Disjoint(ms) && i + 1 < |bs| && bs[i] <= address < bs[i + 1]
    ensures IsHolder(ms, address, Covering(ms, bs[i], bs[i + 1]))
  {
    CoveringFinds(ms, bs[i], bs[i + 1]);
    forall m | m in ms ensures Holds(m, address) <==> m.start <= bs[i] && bs[i + 1] <= m.end {
      CoverOrMiss(bs, ms, i, address, m);
    }
  }

  // ---- the partition ------------------------------------------------------

  predicate Within(s: Segment, address: int) {
    s.start <= address < s.end
  }

  /** Strictly ordered, disjoint and non-empty. */
  ghost predicate Ordered(segments: seq<Segment>) {
    && (forall i :: 0 <= i < |segments| ==> segments[i].start < segments[i].end)
    && (forall i, j :: 0 <= i < j < |segments| ==> segments[i].end <= segments[j].start)
  }

  /** Every address of the segment is held by exactly the mappings it reports. */
  ghost predicate Exact(before: seq<Mapping>, after: seq<Mapping>, s: Segment) {
    forall a :: Within(s, a) ==> IsHolder(before, a, s.before) && IsHolder(after, a, s.after)
  }

  ghost predicate Mapped(ms: seq<Mapping>, address: int) {
    exists m :: m in ms && Holds(m, address)
  }

  ghost predicate Covered(segments: seq<Segment>, address: int) {
    exists i :: 0 <= i < |segments| && Within(segments[i], address)
  }

  lemma {:induction false} SegmentsAreOrdered(before: seq<Mapping>, after: seq<Mapping>, bs: seq<int>, k: nat)
    requires Ascending(IntLess, bs) && k < |bs|
    ensures Ordered(SegmentsUpTo(before, after, bs, k))
    ensures forall s :: s in SegmentsUpTo(before, after, bs, k) ==> bs[0] <= s.start && s.end <= bs[k]
  {
    if k > 0 {
      SegmentsAreOrdered(before, after, bs, k - 1);
      assert IntLess(bs[k - 1], bs[k]);
      assert k - 1 > 0 ==> IntLess(bs[0], bs[k - 1]);
      var segments := SegmentsUpTo(before, after, bs, k - 1);
      forall i | 0 <= i < |segments| ensures segments[i].end <= bs[k - 1] {
        assert segments[i] in segments;
      }
    }
  }

  lemma {:induction false} SegmentsAreExact(before: seq<Mapping>, after: seq<Mapping>, bs: seq<int>, k: nat, s: Segment)
    requires Cuts(bs, before) && Cuts(bs, after) && Disjoint(before) && Disjoint(after) && k < |bs|
    requires s in SegmentsUpTo(before, after, bs, k)
    ensures Exact(before, after, s)
  {
    if s in Stretch(before, after, bs[k - 1], bs[k]) {
      forall a | Within(s, a) ensures IsHolder(before, a, s.before) && IsHolder(after, a, s.after) {
        CoveringIsHolder(bs, before, k - 1, a);
        CoveringIsHolder(bs, after, k - 1, a);
      }
    } else {
      SegmentsAreExact(before, after, bs, k - 1, s);
    }
  }

  lemma {:induction false} StretchCovers(before: seq<Mapping>, after: seq<Mapping>, bs: seq<int>, i: nat, address: int)
    requires Cuts(bs, before) && Cuts(bs, after) && Disjoint(before) && Disjoint(after) && i + 1 < |bs|
    requires bs[i] <= address < bs[i + 1] && (Mapped(before, address) || Mapped(after, address))
    ensures Covered(Stretch(before, after, bs[i], bs[i + 1]), address)
  {
    CoveringIsHolder(bs, before, i, address);
    CoveringIsHolder(bs, after, i, address);
    var stretch := Stretch(before, after, bs[i], bs[i + 1]);
    assert Within(stretch[0], address);
  }

  lemma {:induction false} CoveredByPart(head: seq<Segment>, tail: seq<Segment>, address: int)
    requires Covered(head, address) || Covered(tail, address)
    ensures Covered(head + tail, address)
  {
    if i :| 0 <= i < |head| && Within(head[i], address) {
      assert Within((head + tail)[i], address);
    } else {
      var i :| 0 <= i < |tail| && Within(tail[i], address);
      assert Within((head + tail)[|head| + i], address);
    }
  }

  lemma {:induction false} MappedIsCovered(before: seq<Mapping>, after: seq<Mapping>, bs: seq<int>, k: nat, address: int)
    requires Cuts(bs, before) && Cuts(bs, after) && Disjoint(before) && Disjoint(after) && k < |bs|
    requires bs[0] <= address < bs[k] && (Mapped(before, address) || Mapped(after, address))
    ensures Covered(SegmentsUpTo(before, after, bs, k), address)
  {
    if address < bs[k - 1] {
      MappedIsCovered(before, after, bs, k - 1, address);
    } else {
      StretchCovers(before, after, bs, k - 1, address);
    }
    CoveredByPart(SegmentsUpTo(before, after, bs, k - 1), Stretch(before, after, bs[k - 1], bs[k]), address);
  }

  lemma {:induction false} CutsSpan(bs: seq<int>, ms: seq<Mapping>, m: Mapping)
    requires Cuts(bs, ms) && m in ms
    ensures bs != [] && bs[0] <= m.start && m.end <= bs[|bs| - 1]
  {
    var q :| 0 <= q < |ms| && ms[q] == m;
    var i :| 0 <= i < |bs| && bs[i] == ms[q].start;
    var j :| 0 <= j < |bs| && bs[j] == ms[q].end;
    assert 0 < i ==> IntLess(bs[0], bs[i]);
    assert j < |bs| - 1 ==> IntLess(bs[j], bs[|bs| - 1]);
  }

  lemma {:induction false} SegmentsReport(before: seq<Mapping>, after: seq<Mapping>, bs: seq<int>, k: nat, s: Segment)
    requires k < |bs| && s in SegmentsUpTo(before, after, bs, k)
    ensures s.before.Some? || s.after.Some?
  {
    if s !in Stretch(before, after, bs[k - 1], bs[k]) {
      SegmentsReport(before, after, bs, k - 1, s);
    }
  }

  lemma {:induction false} EverySegmentIsExact(before: seq<Mapping>, after: seq<Mapping>)
    requires Disjoint(before) && Disjoint(after)
    ensures Ordered(Segments(before, after))
    ensures forall s :: s in Segments(before, after) ==> Exact(before, after, s)
    ensures forall s :: s in Segments(before, after) ==> s.before.Some? || s.after.Some?
  {
    var bs, segments := Boundaries(before, after), Segments(before, after);
    BoundariesCut(before, after);
    if bs != [] {
      SegmentsAreOrdered(before, after, bs, |bs| - 1);
      forall s | s in segments ensures Exact(before, after, s) && (s.before.Some? || s.after.Some?) {
        SegmentsAreExact(before, after, bs, |bs| - 1, s);
        SegmentsReport(before, after, bs, |bs| - 1, s);
      }
    }
  }

  lemma {:induction false} EveryMappedIsCovered(before: seq<Mapping>, after: seq<Mapping>, address: int)
    requires Disjoint(before) && Disjoint(after) && (Mapped(before, address) || Mapped(after, address))
    ensures Covered(Segments(before, after), address)
  {
    var bs := Boundaries(before, after);
    BoundariesCut(before, after);
    if m :| m in before && Holds(m, address) {
      CutsSpan(bs, before, m);
    } else {
      var m :| m in after && Holds(m, address);
      CutsSpan(bs, after, m);
    }
    MappedIsCovered(before, after, bs, |bs| - 1, address);
  }

  /** The segments are ordered and disjoint, report exactly the mapping of either side that holds each of
      their addresses, and cover the union of the two address spaces and nothing else. */
  lemma {:induction false} SegmentsPartition(before: seq<Mapping>, after: seq<Mapping>)
    requires Disjoint(before) && Disjoint(after)
    ensures Ordered(Segments(before, after))
    ensures forall s :: s in Segments(before, after) ==> Exact(before, after, s)
    ensures forall a :: Covered(Segments(before, after), a) <==> Mapped(before, a) || Mapped(after, a)
  {
    var segments := Segments(before, after);
    EverySegmentIsExact(before, after);
    forall a ensures Covered(segments, a) <==> Mapped(before, a) || Mapped(after, a) {
      if Covered(segments, a) {
        var i :| 0 <= i < |segments| && Within(segments[i], a);
        assert segments[i] in segments;
      }
      if Mapped(before, a) || Mapped(after, a) {
        EveryMappedIsCovered(before, after, a);
      }
    }
  }

  // ---- conservation of length ---------------------------------------------

  function Side(s: Segment, first: bool): Option<Mapping> {
    if first then s.before else s.after
  }

  /** The total length of the segments that report `m` on the given side. */
  function Length(segments: seq<Segment>, first: bool, m: Mapping): int {
    if segments == [] then 0
    else
      var s := segments[|segments| - 1];
      Length(segments[..|segments| - 1], first, m) + if Side(s, first) == Some(m) then s.end - s.start else 0
  }

  /** How much of `m` lies below `limit`. */
  function Below(m: Mapping, limit: int): int {
    if limit <= m.start then 0 else if m.end <= limit then m.end - m.start else limit - m.start
  }

  lemma {:induction false} LengthOfAppend(segments: seq<Segment>, tail: seq<Segment>, first: bool, m: Mapping)
    requires |tail| <= 1
    ensures Length(segments + tail, first, m) == Length(segments, first, m) + Length(tail, first, m)
  {
    if tail == [] {
      assert segments + tail == segments;
    } else {
      assert (segments + tail)[..|segments|] == segments;
      assert tail[..0] == [];
    }
  }

  /** `m` is a non-empty mapping of the given side, and `bs` cuts that side. */
  ghost predicate Sliced(before: seq<Mapping>, after: seq<Mapping>, bs: seq<int>, first: bool, m: Mapping) {
    var ms := if first then before else after;
    Cuts(bs, ms) && Disjoint(ms) && m in ms && m.start < m.end
  }

  lemma {:induction false} StretchLength(before: seq<Mapping>, after: seq<Mapping>, bs: seq<int>, i: nat,
                                         first: bool, m: Mapping)
    requires Sliced(before, after, bs, first, m) && i + 1 < |bs|
    ensures Length(Stretch(before, after, bs[i], bs[i + 1]), first, m) == Below(m, bs[i + 1]) - Below(m, bs[i])
  {
    var ms := if first then before else after;
    var covering := Covering(ms, bs[i], bs[i + 1]);
    assert IntLess(bs[i], bs[i + 1]);
    CoverOrMiss(bs, ms, i, bs[i], m);
    CoveringIsHolder(bs, ms, i, bs[i]);
    assert covering == Some(m) <==> Holds(m, bs[i]);
    var stretch := Stretch(before, after, bs[i], bs[i + 1]);
    if stretch != [] {
      assert stretch[..0] == [];
      assert Side(stretch[0], first) == covering;
    }
    var q :| 0 <= q < |ms| && ms[q] == m;
    NoCutBetween(bs, i, ms[q].start);
    NoCutBetween(bs, i, ms[q].end);
  }

  /** The share of stretch `i` in `m` is what `m` gains between the two cuts. */
  predicate Gains(before: seq<Mapping>, after: seq<Mapping>, bs: seq<int>, first: bool, m: Mapping, i: int) {
    0 <= i && i + 1 < |bs| &&
    Length(Stretch(before, after, bs[i], bs[i + 1]), first, m) == Below(m, bs[i + 1]) - Below(m, bs[i])
  }

  ghost predicate EachGains(before: seq<Mapping>, after: seq<Mapping>, bs: seq<int>, first: bool, m: Mapping) {
    forall i :: 0 <= i < |bs| - 1 ==> Gains(before, after, bs, first, m, i)
  }

  lemma {:induction false} OneMoreShare(front: seq<Segment>, last: seq<Segment>, first: bool, m: Mapping, lo: int,
                                        mid: int, hi: int)
    requires |last| <= 1
    requires Length(front, first, m) == Below(m, mid) - Below(m, lo)
    requires Length(last, first, m) == Below(m, hi) - Below(m, mid)
    ensures Length(front + last, first, m) == Below(m, hi) - Below(m, lo)
  {
    LengthOfAppend(front, last, first, m);
  }

  lemma {:induction false} OneMoreStretch(before: seq<Mapping>, after: seq<Mapping>, bs: seq<int>, k: nat)
    requires 0 < k < |bs|
    ensures SegmentsUpTo(before, after, bs, k) == SegmentsUpTo(before, after, bs, k - 1) + Stretch(before, after, bs[k - 1], bs[k])
    ensures |Stretch(before, after, bs[k - 1], bs[k])| <= 1
  {
  }

  lemma {:induction false} GainAt(before: seq<Mapping>, after: seq<Mapping>, bs: seq<int>, first: bool, m: Mapping, i: nat)
    requires EachGains(before, after, bs, first, m) && i + 1 < |bs|
    ensures Length(Stretch(before, after, bs[i], bs[i + 1]), first, m) == Below(m, bs[i + 1]) - Below(m, bs[i])
  {
    assert Gains(before, after, bs, first, m, i);
  }

  lemma {:induction false} NothingBelow(before: seq<Mapping>, after: seq<Mapping>, bs: seq<int>, first: bool, m: Mapping)
    requires bs != []
    ensures Length(SegmentsUpTo(before, after, bs, 0), first, m) == Below(m, bs[0]) - Below(m, bs[0])
  {
  }

  lemma {:induction false} LengthBelow(before: seq<Mapping>, after: seq<Mapping>, bs: seq<int>, k: nat, first: bool,
                                       m: Mapping)
    requires k < |bs| && EachGains(before, after, bs, first, m)
    ensures Length(SegmentsUpTo(before, after, bs, k), first, m) == Below(m, bs[k]) - Below(m, bs[0])
  {
    hide Length, Below, SegmentsUpTo, Stretch, Gains;
    if k == 0 {
      NothingBelow(before, after, bs, first, m);
    } else {
      LengthBelow(before, after, bs, k - 1, first, m);
      OneMoreStretch(before, after, bs, k);
      GainAt(before, after, bs, first, m, k - 1);
      var front, last := SegmentsUpTo(before, after, bs, k - 1), Stretch(before, after, bs[k - 1], bs[k]);
      OneMoreShare(front, last, first, m, bs[0], bs[k - 1], bs[k]);
    }
  }

  lemma {:induction false} EveryStretchGains(before: seq<Mapping>, after: seq<Mapping>, bs: seq<int>, first: bool,
                                             m: Mapping)
    requires Sliced(before, after, bs, first, m)
    ensures EachGains(before, after, bs, first, m)
  {
    forall i | 0 <= i < |bs| - 1 ensures Gains(before, after, bs, first, m, i) {
      StretchLength(before, after, bs, i, first, m);
    }
  }

  /** Stretches that span `m` and each gain their share add up to `m`. */
  lemma {:induction false} SharesAddUp(before: seq<Mapping>, after: seq<Mapping>, bs: seq<int>, first: bool, m: Mapping)
    requires EachGains(before, after, bs, first, m) && m.start < m.end
    requires bs != [] && bs[0] <= m.start && m.end <= bs[|bs| - 1]
    ensures Length(SegmentsUpTo(before, after, bs, |bs| - 1), first, m) == m.end - m.start
  {
    LengthBelow(before, after, bs, |bs| - 1, first, m);
  }

  lemma {:induction false} BoundariesSlice(before: seq<Mapping>, after: seq<Mapping>, first: bool, m: Mapping)
    requires Disjoint(before) && Disjoint(after) && m.start < m.end
    requires m in if first then before else after
    ensures Sliced(before, after, Boundaries(before, after), first, m)
  {
    BoundariesCut(before, after);
  }

  lemma {:induction false} BoundariesGain(before: seq<Mapping>, after: seq<Mapping>, first: bool, m: Mapping)
    requires Disjoint(before) && Disjoint(after) && m.start < m.end
    requires m in if first then before else after
    ensures var bs := Boundaries(before, after);
            EachGains(before, after, bs, first, m) && bs != [] && bs[0] <= m.start && m.end <= bs[|bs| - 1]
  {
    var bs := Boundaries(before, after);
    BoundariesSlice(before, after, first, m);
    CutsSpan(bs, if first then before else after, m);
    EveryStretchGains(before, after, bs, first, m);
  }

  /** No byte of a mapping is lost or counted twice: its segments add up to its size. */
  lemma {:induction false} SegmentsConserveLength(before: seq<Mapping>, after: seq<Mapping>, first: bool, m: Mapping)
    requires Disjoint(before) && Disjoint(after) && m.start < m.end
    requires m in if first then before else after
    ensures Length(Segments(before, after), first, m) == m.end - m.start
  {
    BoundariesGain(before, after, first, m);
    SharesAddUp(before, after, Boundaries(before, after), first, m);
  }
}
