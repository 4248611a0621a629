/**
  The process part of `validate_comparison_receipt` (scripts/capture_process_memory.py): the loop that
  sorts each process's mappings and compares neighbours, against pairwise disjointness.
 */
module SmapsReceipt {
  import opened Wrappers
  import opened Sorting
  import opened SmapsMapping
  import opened SmapsSegments

  const MAX_PROCESS_COUNT := 256

  datatype Process =
    | Captured(pid: int, startTicks: int, mappings: seq<Mapping>, rollup: Mapping)
    | Unavailable(pid: int)

  datatype Rejection =
    | ProcessLimit | BadPid | DuplicatePid | BadStartTime | BadMapping(error: Error)
    | DuplicateInterval | DuplicateMappingId | Overlap | MappingLimitExceeded | FieldLimitExceeded

  // ---- what a receipt must satisfy ----------------------------------------

  function FieldTotal(ms: seq<Mapping>): nat {
    if ms == [] then 0 else FieldTotal(ms[..|ms| - 1]) + |ms[|ms| - 1].fields|
  }

  /** A process accounts for its mappings and its rollup. */
  function MappingShare(p: Process): nat {
    match p case Captured(_, _, ms, _) => |ms| + 1 case _ => 0
  }

  function FieldShare(p: Process): nat {
    match p case Captured(_, _, ms, r) => FieldTotal(ms) + |r.fields| case _ => 0
  }

  function MappingCount(ps: seq<Process>): nat {
    if ps == [] then 0
    else MappingCount(ps[..|ps| - 1]) + MappingShare(ps[|ps| - 1])
  }

  function FieldCount(ps: seq<Process>): nat {
    if ps == [] then 0
    else FieldCount(ps[..|ps| - 1]) + FieldShare(ps[|ps| - 1])
  }

  /** Every mapping well formed, and no address in two of them. */
  ghost predicate SoundSpace(ms: seq<Mapping>) {
    (forall i :: 0 <= i < |ms| ==> Accepted(ms[i])) && Disjoint(ms)
  }

  ghost predicate SoundProcess(p: Process) {
    p.pid > 0 && (p.Captured? ==> p.startTicks >= 0 && SoundSpace(p.mappings) && Accepted(p.rollup))
  }

  ghost predicate Receivable(ps: seq<Process>) {
    && |ps| <= MAX_PROCESS_COUNT
    && (forall i :: 0 <= i < |ps| ==> SoundProcess(ps[i]))
    && (forall i, j :: 0 <= i < j < |ps| ==> ps[i].pid != ps[j].pid)
    && MappingCount(ps) <= MAX_SMAPS_MAPPING_COUNT
    && FieldCount(ps) <= MAX_SMAPS_FIELD_COUNT
  }

  // ---- sorting keeps pairwise disjointness --------------------------------

  predicate Apart(a: Checked, b: Checked) {
    a.end <= b.start || b.end <= a.start
  }

  ghost predicate Pairwise(cs: seq<Checked>) {
    forall i, j :: 0 <= i < j < |cs| ==> Apart(cs[i], cs[j])
  }

  ghost predicate ApartFromAll(cs: seq<Checked>, c: Checked) {
    forall i :: 0 <= i < |cs| ==> Apart(cs[i], c)
  }

  predicate ByStart(a: Checked, b: Checked) {
    a.start <= b.start
  }

  lemma {:induction false} PairwiseOfCons(c: Checked, cs: seq<Checked>)
    ensures Pairwise([c] + cs) <==> Pairwise(cs) && ApartFromAll(cs, c)
  {
    var s := [c] + cs;
    assert forall i :: 0 <= i < |cs| ==> s[i + 1] == cs[i];
    assert forall i :: 0 < i < |s| ==> s[i] == cs[i - 1];
    assert s[0] == c;
  }

  lemma {:induction false} InsertApart(cs: seq<Checked>, x: Checked, c: Checked)
    ensures ApartFromAll(Insert(ByStart, cs, x), c) <==> ApartFromAll(cs, c) && Apart(x, c)
  {
    var s := Insert(ByStart, cs, x);
    if cs == [] {
      assert s[0] == x;
    } else if ByStart(cs[0], x) {
      InsertApart(cs[1..], x, c);
      ApartOfCons(cs[0], cs[1..], c);
      ApartOfCons(cs[0], Insert(ByStart, cs[1..], x), c);
      assert cs == [cs[0]] + cs[1..];
    } else {
      ApartOfCons(x, cs, c);
    }
  }

  lemma ApartOfCons(d: Checked, cs: seq<Checked>, c: Checked)
    ensures ApartFromAll([d] + cs, c) <==> Apart(d, c) && ApartFromAll(cs, c)
  {
    var s := [d] + cs;
    assert s[0] == d && forall i :: 0 <= i < |cs| ==> s[i + 1] == cs[i];
    assert forall i :: 0 < i < |s| ==> s[i] == cs[i - 1];
  }

  lemma {:induction false} InsertPairwise(cs: seq<Checked>, x: Checked)
    ensures Pairwise(Insert(ByStart, cs, x)) <==> Pairwise(cs) && ApartFromAll(cs, x)
  {
    if cs == [] {
    } else if ByStart(cs[0], x) {
      InsertPairwise(cs[1..], x);
      InsertApart(cs[1..], x, cs[0]);
      PairwiseOfCons(cs[0], Insert(ByStart, cs[1..], x));
      PairwiseOfCons(cs[0], cs[1..]);
      ApartOfCons(cs[0], cs[1..], x);
      assert cs == [cs[0]] + cs[1..];
    } else {
      PairwiseOfCons(x, cs);
    }
  }

  lemma {:induction false} SortApart(cs: seq<Checked>, c: Checked)
    ensures ApartFromAll(SortBy(ByStart, cs), c) <==> ApartFromAll(cs, c)
  {
    hide ApartFromAll, Insert;
    if cs != [] {
      var n := |cs| - 1;
      SortApart(cs[..n], c);
      InsertApart(SortBy(ByStart, cs[..n]), cs[n], c);
      assert cs == cs[..n] + [cs[n]];
      ApartOfAppend(cs[..n], cs[n], c);
    }
  }

  lemma ApartOfAppend(cs: seq<Checked>, d: Checked, c: Checked)
    ensures ApartFromAll(cs + [d], c) <==> ApartFromAll(cs, c) && Apart(d, c)
  {
    var s := cs + [d];
    assert s[|cs|] == d && forall i :: 0 <= i < |cs| ==> s[i] == cs[i];
  }

  /** The pairwise check does not care about order. */
  lemma {:induction false} SortPairwise(cs: seq<Checked>)
    ensures Pairwise(SortBy(ByStart, cs)) <==> Pairwise(cs)
  {
    if cs != [] {
      var n := |cs| - 1;
      SortPairwise(cs[..n]);
      SortApart(cs[..n], cs[n]);
      InsertPairwise(SortBy(ByStart, cs[..n]), cs[n]);
      assert forall i :: 0 <= i < n ==> cs[i] == cs[..n][i];
    }
  }

  // ---- the neighbour check ------------------------------------------------

  function CheckedFields(cs: seq<Checked>): nat {
    if cs == [] then 0 else CheckedFields(cs[..|cs| - 1]) + cs[|cs| - 1].fieldCount
  }

  /** What `_validate_mapping` guarantees about its answer. */
  predicate Sound(c: Checked) {
    c.start < c.end && c.intervalId == IntervalId(c.start, c.end)
  }

  ghost predicate IsCheckOf(ms: seq<Mapping>, c: Checked) {
    exists m :: m in ms && Accepted(m) && CheckOf(m) == c
  }

  function CheckOf(m: Mapping): (c: Checked)
    requires Accepted(m)
    ensures Sound(c) && c.start == m.start && c.end == m.end
    ensures c.mappingId == m.mappingId && c.fieldCount == |m.fields|
  {
    ValidateMapping(m).value
  }

  /** `_validate_mapping` on a list that passes it. */
  function CheckAll(ms: seq<Mapping>): (cs: seq<Checked>)
    requires forall i :: 0 <= i < |ms| ==> Accepted(ms[i])
    ensures |cs| == |ms| && forall i :: 0 <= i < |cs| ==> cs[i] == CheckOf(ms[i])
  {
    seq(|ms|, i requires 0 <= i < |ms| => CheckOf(ms[i]))
  }

  lemma CheckAllIsSound(ms: seq<Mapping>)
    requires forall i :: 0 <= i < |ms| ==> Accepted(ms[i])
    ensures forall c :: c in CheckAll(ms) ==> Sound(c) && IsCheckOf(ms, c)
  {
    var cs := CheckAll(ms);
    forall c | c in cs ensures Sound(c) && IsCheckOf(ms, c) {
      var i :| 0 <= i < |cs| && cs[i] == c;
      assert ms[i] in ms && CheckOf(ms[i]) == c;
    }
  }

  lemma CheckAllPairwise(ms: seq<Mapping>)
    requires forall i :: 0 <= i < |ms| ==> Accepted(ms[i])
    ensures Pairwise(CheckAll(ms)) <==> Disjoint(ms)
  {
    var cs := CheckAll(ms);
    assert forall i, j :: 0 <= i < j < |ms| ==>
        (Apart(cs[i], cs[j]) <==> ms[i].end <= ms[j].start || ms[j].end <= ms[i].start);
  }

  lemma {:induction false} InsertFields(cs: seq<Checked>, x: Checked)
    ensures CheckedFields(Insert(ByStart, cs, x)) == CheckedFields(cs) + x.fieldCount
  {
    if cs == [] {
      assert [x][..0] == [];
    } else if ByStart(cs[0], x) {
      InsertFields(cs[1..], x);
      FieldsOfCons(cs[0], Insert(ByStart, cs[1..], x));
      FieldsOfCons(cs[0], cs[1..]);
      assert cs == [cs[0]] + cs[1..];
    } else {
      FieldsOfCons(x, cs);
    }
  }

  lemma {:induction false} FieldsOfCons(c: Checked, cs: seq<Checked>)
    ensures CheckedFields([c] + cs) == c.fieldCount + CheckedFields(cs)
  {
    var s := [c] + cs;
    if cs == [] {
      assert s[..0] == [];
    } else {
      var n := |cs| - 1;
      FieldsOfCons(c, cs[..n]);
      assert s[..|s| - 1] == [c] + cs[..n];
    }
  }

  lemma {:induction false} SortFields(ms: seq<Mapping>)
    requires forall i :: 0 <= i < |ms| ==> Accepted(ms[i])
    ensures CheckedFields(SortBy(ByStart, CheckAll(ms))) == FieldTotal(ms)
  {
    if ms != [] {
      var n := |ms| - 1;
      SortFields(ms[..n]);
      assert CheckAll(ms)[..n] == CheckAll(ms[..n]);
      InsertFields(SortBy(ByStart, CheckAll(ms[..n])), CheckAll(ms)[n]);
    }
  }

  lemma {:induction false} FieldsGrow(cs: seq<Checked>, k: nat)
    requires k <= |cs|
    ensures CheckedFields(cs[..k]) <= CheckedFields(cs)
  {
    if k < |cs| {
      var n := |cs| - 1;
      FieldsGrow(cs[..n], k);
      assert cs[..n][..k] == cs[..k];
    } else {
      assert cs[..k] == cs;
    }
  }

  /** One collision refutes disjointness. */
  lemma SameIntervalIsNotApart(cs: seq<Checked>, i: nat, j: nat)
    requires i < j < |cs| && Sound(cs[i]) && Sound(cs[j])
    requires cs[i].intervalId == cs[j].intervalId
    ensures !Pairwise(cs)
  {
    IntervalIdInjective(cs[i].start, cs[i].end, cs[j].start, cs[j].end);
    assert !Apart(cs[i], cs[j]);
  }

  lemma SameMappingIdIsNotApart(ms: seq<Mapping>, cs: seq<Checked>, i: nat, j: nat)
    requires i < j < |cs| && Sound(cs[i]) && Sound(cs[j])
    requires IsCheckOf(ms, cs[i]) && IsCheckOf(ms, cs[j])
    requires cs[i].mappingId == cs[j].mappingId
    ensures !Pairwise(cs)
  {
    var m :| m in ms && Accepted(m) && CheckOf(m) == cs[i];
    var n :| n in ms && Accepted(n) && CheckOf(n) == cs[j];
    AcceptedIdentities(m, n);
    assert !Apart(cs[i], cs[j]);
  }

  /** What the loop knows about the first `k` sorted mappings. */
  ghost predicate Passed(cs: seq<Checked>, k: nat, intervals: set<string>, ids: set<string>, previousEnd: Option<int>) {
    && k <= |cs|
    && (forall i, j :: 0 <= i < j < k ==> cs[i].end <= cs[j].start)
    && (forall id :: id in intervals <==> exists i :: 0 <= i < k && cs[i].intervalId == id)
    && (forall id :: id in ids <==> exists i :: 0 <= i < k && cs[i].mappingId == id)
    && (previousEnd == if k == 0 then None else Some(cs[k - 1].end))
  }

  lemma IntervalsStep(cs: seq<Checked>, k: nat, intervals: set<string>, id: string)
    requires k < |cs| && (id in intervals <==> exists i :: 0 <= i < k && cs[i].intervalId == id)
    ensures id in intervals + {cs[k].intervalId} <==> exists i :: 0 <= i < k + 1 && cs[i].intervalId == id
  {
  }

  lemma IdsStep(cs: seq<Checked>, k: nat, ids: set<string>, id: string)
    requires k < |cs| && (id in ids <==> exists i :: 0 <= i < k && cs[i].mappingId == id)
    ensures id in ids + {cs[k].mappingId} <==> exists i :: 0 <= i < k + 1 && cs[i].mappingId == id
  {
  }

  lemma EndsStep(cs: seq<Checked>, k: nat)
    requires k < |cs| && (forall i, j :: 0 <= i < j < k ==> cs[i].end <= cs[j].start)
    requires k > 0 ==> Sound(cs[k - 1]) && cs[k - 1].end <= cs[k].start
    ensures forall i, j :: 0 <= i < j < k + 1 ==> cs[i].end <= cs[j].start
  {
    forall i | 0 <= i < k ensures cs[i].end <= cs[k].start {
      assert i < k - 1 ==> cs[i].end <= cs[k - 1].start;
    }
  }

  lemma PassedStep(cs: seq<Checked>, k: nat, intervals: set<string>, ids: set<string>, previousEnd: Option<int>)
    requires Passed(cs, k, intervals, ids, previousEnd) && k < |cs|
    requires forall c :: c in cs ==> Sound(c)
    requires previousEnd.Some? ==> previousEnd.value <= cs[k].start
    ensures Passed(cs, k + 1, intervals + {cs[k].intervalId}, ids + {cs[k].mappingId}, Some(cs[k].end))
  {
    EndsStep(cs, k);
    forall id ensures id in intervals + {cs[k].intervalId} <==> exists i :: 0 <= i < k + 1 && cs[i].intervalId == id {
      IntervalsStep(cs, k, intervals, id);
    }
    forall id ensures id in ids + {cs[k].mappingId} <==> exists i :: 0 <= i < k + 1 && cs[i].mappingId == id {
      IdsStep(cs, k, ids, id);
    }
  }

  /** One mapping fails the loop's three checks only when it is not apart from an earlier one. */
  method Clashes(ghost ms: seq<Mapping>, cs: seq<Checked>, k: nat, intervals: set<string>, ids: set<string>,
                 previousEnd: Option<int>)
    returns (r: Option<Rejection>)
    requires k < |cs| && Passed(cs, k, intervals, ids, previousEnd)
    requires forall c :: c in cs ==> Sound(c) && IsCheckOf(ms, c)
    requires SortedBy(ByStart, cs)
    ensures r.Some? ==> !Pairwise(cs)
    ensures r.None? ==> previousEnd.Some? ==> previousEnd.value <= cs[k].start
  {
    var c := cs[k];
    if c.intervalId in intervals {
      ghost var i :| 0 <= i < k && cs[i].intervalId == c.intervalId;
      SameIntervalIsNotApart(cs, i, k);
      return Some(DuplicateInterval);
    }
    if c.mappingId in ids {
      ghost var i :| 0 <= i < k && cs[i].mappingId == c.mappingId;
      SameMappingIdIsNotApart(ms, cs, i, k);
      return Some(DuplicateMappingId);
    }
    if previousEnd.Some? && c.start < previousEnd.value {
      assert ByStart(cs[k - 1], cs[k]) && Sound(cs[k - 1]) && Sound(cs[k]);
      assert !Apart(cs[k - 1], cs[k]);
      return Some(Overlap);
    }
    return None;
  }

  lemma AllPassed(cs: seq<Checked>, intervals: set<string>, ids: set<string>, previousEnd: Option<int>)
    requires Passed(cs, |cs|, intervals, ids, previousEnd)
    ensures Pairwise(cs)
  {
  }

  /** The sorted neighbour check, with the duplicate checks before it. */
  method CheckSorted(ghost ms: seq<Mapping>, cs: seq<Checked>, before: nat) returns (r: Result<nat, Rejection>)
    requires forall c :: c in cs ==> Sound(c) && IsCheckOf(ms, c)
    requires SortedBy(ByStart, cs)
    requires before <= MAX_SMAPS_FIELD_COUNT
    ensures r.Success? <==> Pairwise(cs) && before + CheckedFields(cs) <= MAX_SMAPS_FIELD_COUNT
    ensures r.Success? ==> r.value == before + CheckedFields(cs)
  {
    var seenIntervals: set<string> := {};
    var seenMappingIds: set<string> := {};
    var previousEnd: Option<int> := None;
    var fieldCount := before;
    for k := 0 to |cs|
      invariant Passed(cs, k, seenIntervals, seenMappingIds, previousEnd)
      invariant fieldCount == before + CheckedFields(cs[..k]) <= MAX_SMAPS_FIELD_COUNT
    {
      var c := cs[k];
      assert cs[..k + 1][..k] == cs[..k];
      FieldsGrow(cs, k + 1);
      var clash := Clashes(ms, cs, k, seenIntervals, seenMappingIds, previousEnd);
      if clash.Some? {
        return Failure(clash.value);
      }
      PassedStep(cs, k, seenIntervals, seenMappingIds, previousEnd);
      seenIntervals := seenIntervals + {c.intervalId};
      seenMappingIds := seenMappingIds + {c.mappingId};
      previousEnd := Some(c.end);
      fieldCount := fieldCount + c.fieldCount;
      if fieldCount > MAX_SMAPS_FIELD_COUNT {
        return Failure(FieldLimitExceeded);
      }
    }
    assert cs[..|cs|] == cs;
    AllPassed(cs, seenIntervals, seenMappingIds, previousEnd);
    return Success(fieldCount);
  }

  /** Accepts one process's mappings exactly when they are well formed, pairwise disjoint and within the
      field limit. */
  method ValidateMappings(ms: seq<Mapping>, before: nat) returns (r: Result<nat, Rejection>)
    requires before <= MAX_SMAPS_FIELD_COUNT
    ensures r.Success? <==> SoundSpace(ms) && before + FieldTotal(ms) <= MAX_SMAPS_FIELD_COUNT
    ensures r.Success? ==> r.value == before + FieldTotal(ms)
  {
    for i := 0 to |ms|
      invariant forall k :: 0 <= k < i ==> Accepted(ms[k])
    {
      var checked := ValidateMapping(ms[i]);
      if checked.Failure? {
        assert !Accepted(ms[i]);
        return Failure(BadMapping(checked.error));
      }
    }
    var all := CheckAll(ms);
    var validated := SortBy(ByStart, all);
    SortBySorts(ByStart, all);
    SortByElements(ByStart, all);
    CheckAllIsSound(ms);
    CheckAllPairwise(ms);
    SortPairwise(all);
    SortFields(ms);
    r := CheckSorted(ms, validated, before);
  }

  lemma {:induction false} CountsGrow(ps: seq<Process>, k: nat)
    requires k <= |ps|
    ensures MappingCount(ps[..k]) <= MappingCount(ps)
    ensures FieldCount(ps[..k]) <= FieldCount(ps)
  {
    if k < |ps| {
      var n := |ps| - 1;
      CountsGrow(ps[..n], k);
      assert ps[..n][..k] == ps[..k];
    } else {
      assert ps[..k] == ps;
    }
  }

  /** The rollup counts towards the fields like any mapping. */
  method ValidateRollup(rollup: Mapping, before: nat) returns (r: Result<nat, Rejection>)
    requires before <= MAX_SMAPS_FIELD_COUNT
    ensures r.Success? <==> Accepted(rollup) && before + |rollup.fields| <= MAX_SMAPS_FIELD_COUNT
    ensures r.Success? ==> r.value == before + |rollup.fields|
  {
    var checked := ValidateMapping(rollup);
    if checked.Failure? {
      return Failure(BadMapping(checked.error));
    }
    var fieldCount := before + checked.value.fieldCount;
    if fieldCount > MAX_SMAPS_FIELD_COUNT {
      return Failure(FieldLimitExceeded);
    }
    return Success(fieldCount);
  }

  /** The loop body: one process against the limits left over by the ones before it. */
  method ValidateProcess(p: Process, mappingsBefore: nat, fieldsBefore: nat) returns (r: Result<(nat, nat), Rejection>)
    requires mappingsBefore <= MAX_SMAPS_MAPPING_COUNT && fieldsBefore <= MAX_SMAPS_FIELD_COUNT
    requires p.pid > 0
    ensures r.Success? <==> Admitted(p, mappingsBefore, fieldsBefore)
    ensures r.Success? ==> r.value == (mappingsBefore + MappingShare(p), fieldsBefore + FieldShare(p))
  {
    hide Accepted, Disjoint;
    if p.Unavailable? {
      return Success((mappingsBefore, fieldsBefore));
    }
    if p.startTicks < 0 {
      return Failure(BadStartTime);
    }
    var mappingCount := mappingsBefore + |p.mappings| + 1;
    if mappingCount > MAX_SMAPS_MAPPING_COUNT {
      return Failure(MappingLimitExceeded);
    }
    var counted := ValidateMappings(p.mappings, fieldsBefore);
    if counted.Failure? {
      return Failure(counted.error);
    }
    var total := ValidateRollup(p.rollup, counted.value);
    if total.Failure? {
      return Failure(total.error);
    }
    return Success((mappingCount, total.value));
  }

  ghost predicate Admitted(p: Process, mappingsBefore: nat, fieldsBefore: nat) {
    && SoundProcess(p)
    && mappingsBefore + MappingShare(p) <= MAX_SMAPS_MAPPING_COUNT
    && fieldsBefore + FieldShare(p) <= MAX_SMAPS_FIELD_COUNT
  }

  lemma BadPidIsNotAdmitted(p: Process, mappingsBefore: nat, fieldsBefore: nat)
    requires p.pid <= 0
    ensures !Admitted(p, mappingsBefore, fieldsBefore)
  {
  }

  /** What the loop knows after the first `k` processes. */
  ghost predicate Seen(ps: seq<Process>, k: nat, pids: set<int>, mappingCount: int, fieldCount: int) {
    && k <= |ps|
    && (forall pid :: pid in pids <==> exists i :: 0 <= i < k && ps[i].pid == pid)
    && (forall i, j :: 0 <= i < j < k ==> ps[i].pid != ps[j].pid)
    && (forall i :: 0 <= i < k ==> SoundProcess(ps[i]))
    && mappingCount == MappingCount(ps[..k]) <= MAX_SMAPS_MAPPING_COUNT
    && fieldCount == FieldCount(ps[..k]) <= MAX_SMAPS_FIELD_COUNT
  }

  lemma PidsStep(ps: seq<Process>, k: nat, pids: set<int>)
    requires k < |ps| && forall pid :: pid in pids <==> exists i :: 0 <= i < k && ps[i].pid == pid
    ensures forall pid :: pid in pids + {ps[k].pid} <==> exists i :: 0 <= i < k + 1 && ps[i].pid == pid
  {
    forall pid ensures pid in pids + {ps[k].pid} <==> exists i :: 0 <= i < k + 1 && ps[i].pid == pid {
      if pid in pids {
        var i :| 0 <= i < k && ps[i].pid == pid;
      }
    }
  }

  lemma SeeOne(ps: seq<Process>, k: nat, pids: set<int>, mappingCount: nat, fieldCount: nat)
    requires Seen(ps, k, pids, mappingCount, fieldCount) && k < |ps| && ps[k].pid !in pids
    requires Admitted(ps[k], mappingCount, fieldCount)
    ensures Seen(ps, k + 1, pids + {ps[k].pid}, mappingCount + MappingShare(ps[k]), fieldCount + FieldShare(ps[k]))
  {
    hide SoundProcess, MappingShare, FieldShare;
    assert ps[..k + 1][..k] == ps[..k];
    PidsStep(ps, k, pids);
  }

  /** A process that the loop stops at makes the receipt unacceptable. */
  lemma Stops(ps: seq<Process>, k: nat, pids: set<int>, mappingCount: nat, fieldCount: nat)
    requires Seen(ps, k, pids, mappingCount, fieldCount) && k < |ps|
    requires ps[k].pid in pids || !Admitted(ps[k], mappingCount, fieldCount)
    ensures !Receivable(ps)
  {
    hide SoundProcess, MappingShare, FieldShare;
    assert ps[..k + 1][..k] == ps[..k];
    CountsGrow(ps, k + 1);
  }

  /** A receipt is accepted exactly when its processes are distinct, every address space is sound and the
      totals are within the limits; this is what the segment partition asks of its inputs. */
  method ValidateProcesses(ps: seq<Process>) returns (r: Result<(), Rejection>)
    ensures r.Success? <==> Receivable(ps)
  {
    hide Admitted, MappingShare, FieldShare;
    if |ps| > MAX_PROCESS_COUNT {
      return Failure(ProcessLimit);
    }
    var seenPids: set<int> := {};
    var mappingCount := 0;
    var fieldCount := 0;
    for k := 0 to |ps|
      invariant mappingCount >= 0 && fieldCount >= 0 && Seen(ps, k, seenPids, mappingCount, fieldCount)
    {
      var p := ps[k];
      if p.pid <= 0 {
        BadPidIsNotAdmitted(p, mappingCount, fieldCount);
        Stops(ps, k, seenPids, mappingCount, fieldCount);
        return Failure(BadPid);
      }
      if p.pid in seenPids {
        Stops(ps, k, seenPids, mappingCount, fieldCount);
        return Failure(DuplicatePid);
      }
      var checked := ValidateProcess(p, mappingCount, fieldCount);
      if checked.Failure? {
        Stops(ps, k, seenPids, mappingCount, fieldCount);
        return Failure(checked.error);
      }
      SeeOne(ps, k, seenPids, mappingCount, fieldCount);
      seenPids := seenPids + {p.pid};
      mappingCount, fieldCount := checked.value.0, checked.value.1;
    }
    assert ps[..|ps|] == ps;
    return Success(());
  }
}
