/**
  `diff_smaps` (scripts/capture_process_memory.py): exact intervals with their state, the segment
  partition, and the byte deltas of every class.
 */
module SmapsDiff {
  import opened Wrappers
  import opened Sorting
  import opened SmapsMapping
  import opened SmapsSegments

  datatype State = Added | Removed | Stable | Reused

  datatype Summary = Summary(intervalId: string, mappingId: string, normalizedClass: string)

  /** A dictionary written in ascending key order. */
  type Table<V> = seq<(string, V)>

  datatype Interval = Interval(
    intervalId: string,
    state: State,
    before: Option<Summary>,
    after: Option<Summary>,
    fieldDeltas: Option<Table<int>>)

  datatype Difference = Difference(intervals: seq<Interval>, segments: seq<Segment>, classDeltas: Table<Table<int>>)

  function Get<V>(entries: seq<(string, V)>, key: string): Option<V> {
    if entries == [] then None
    else if entries[0].0 == key then Some(entries[0].1)
    else Get(entries[1..], key)
  }

  function Keys<V>(entries: seq<(string, V)>): (ks: seq<string>)
    ensures |ks| == |entries| && forall i :: 0 <= i < |ks| ==> ks[i] == entries[i].0
  {
    seq(|entries|, i requires 0 <= i < |entries| => entries[i].0)
  }

  lemma {:induction false} GetOfAppend<V>(entries: seq<(string, V)>, key: string, value: V, k: string)
    ensures Get(entries + [(key, value)], k) ==
            if Get(entries, k).Some? then Get(entries, k) else if k == key then Some(value) else None
  {
    var longer := entries + [(key, value)];
    if entries == [] {
      assert longer[1..] == [];
    } else {
      assert longer[1..] == entries[1..] + [(key, value)];
      GetOfAppend(entries[1..], key, value, k);
    }
  }

  lemma {:induction false} GetFinds<V>(entries: seq<(string, V)>, key: string)
    ensures Get(entries, key).Some? <==> key in Keys(entries)
  {
    if entries != [] {
      assert Keys(entries) == [entries[0].0] + Keys(entries[1..]);
      GetFinds(entries[1..], key);
    }
  }

  method SortedKeys(keys: set<string>) returns (s: seq<string>)
    ensures Ascending(StringLess, s)
    ensures forall k :: k in s <==> k in keys
  {
    StringLessIsStrict();
    s := [];
    var rest := keys;
    while rest != {}
      invariant rest <= keys && Ascending(StringLess, s)
      invariant forall k :: k in s <==> k in keys && k !in rest
      decreases rest
    {
      var key :| key in rest;
      InsertNewAscends(StringLess, s, key);
      s := InsertNew(StringLess, s, key);
      rest := rest - {key};
    }
  }

  // ---- field deltas -------------------------------------------------------

  function BytesOf(fields: seq<(string, Field)>, name: string): Option<int> {
    match Get(fields, name)
    case Some(field) => field.bytes
    case None => None
  }

  function OrZero(value: Option<int>): int {
    if value.Some? then value.value else 0
  }

  /** After minus before, for the names that have a size on either side. */
  function Delta(before: Option<int>, after: Option<int>): Option<int> {
    if before.Some? || after.Some? then Some(OrZero(after) - OrZero(before)) else None
  }

  ghost predicate IsFieldDeltas(before: seq<(string, Field)>, after: seq<(string, Field)>, deltas: Table<int>) {
    && Ascending(StringLess, Keys(deltas))
    && forall name :: Get(deltas, name) == Delta(BytesOf(before, name), BytesOf(after, name))
  }

  /** The entries hold the deltas of the given names and nothing else. */
  ghost predicate DeltasOf(before: seq<(string, Field)>, after: seq<(string, Field)>, names: seq<string>,
                           deltas: Table<int>) {
    && Ascending(StringLess, Keys(deltas))
    && (forall k :: k in Keys(deltas) ==> k in names)
    && (forall k :: Get(deltas, k) == if k in names then Delta(BytesOf(before, k), BytesOf(after, k)) else None)
  }

  lemma SkipName(before: seq<(string, Field)>, after: seq<(string, Field)>, names: seq<string>, deltas: Table<int>,
                 name: string)
    requires DeltasOf(before, after, names, deltas) && Delta(BytesOf(before, name), BytesOf(after, name)) == None
    ensures DeltasOf(before, after, names + [name], deltas)
  {
  }

  lemma {:induction false} AddName(before: seq<(string, Field)>, after: seq<(string, Field)>, names: seq<string>,
                                   deltas: Table<int>, name: string, value: int)
    requires DeltasOf(before, after, names, deltas) && Delta(BytesOf(before, name), BytesOf(after, name)) == Some(value)
    requires name !in names && forall n :: n in names ==> StringLess(n, name)
    ensures DeltasOf(before, after, names + [name], deltas + [(name, value)])
  {
    var longer, keys := deltas + [(name, value)], Keys(deltas);
    assert Keys(longer) == keys + [name];
    forall j | 0 <= j < |keys| ensures StringLess(keys[j], name) {
      assert keys[j] in keys;
    }
    forall k ensures Get(longer, k) == if k in names + [name] then Delta(BytesOf(before, k), BytesOf(after, k)) else None {
      GetOfAppend(deltas, name, value, k);
    }
  }

  lemma AscendingIsNew(names: seq<string>, i: nat)
    requires Ascending(StringLess, names) && i < |names|
    ensures names[i] !in names[..i]
    ensures forall n :: n in names[..i] ==> StringLess(n, names[i])
  {
    StringLessIsStrict();
  }

  lemma NoNames(before: seq<(string, Field)>, after: seq<(string, Field)>)
    ensures DeltasOf(before, after, [], [])
  {
  }

  lemma AllNames(before: seq<(string, Field)>, after: seq<(string, Field)>, names: seq<string>, deltas: Table<int>)
    requires DeltasOf(before, after, names, deltas) && forall n :: n in names <==> n in Keys(before) + Keys(after)
    ensures IsFieldDeltas(before, after, deltas)
  {
    forall name ensures Get(deltas, name) == Delta(BytesOf(before, name), BytesOf(after, name)) {
      GetFinds(before, name);
      GetFinds(after, name);
      assert name in names <==> name in Keys(before) || name in Keys(after);
    }
  }

  method FieldDeltas(before: seq<(string, Field)>, after: seq<(string, Field)>) returns (deltas: Table<int>)
    ensures IsFieldDeltas(before, after, deltas)
  {
    hide DeltasOf, SortedSet, Ascending, StringLess, BytesOf, Get;
    var all := Keys(before) + Keys(after);
    var names := SortedSet(StringLess, all);
    StringLessIsStrict();
    SortedSetAscends(StringLess, all);
    deltas := [];
    NoNames(before, after);
    for i := 0 to |names|
      invariant DeltasOf(before, after, names[..i], deltas)
    {
      var name := names[i];
      assert names[..i + 1] == names[..i] + [name];
      AscendingIsNew(names, i);
      var left, right := BytesOf(before, name), BytesOf(after, name);
      if left.Some? || right.Some? {
        AddName(before, after, names[..i], deltas, name, OrZero(right) - OrZero(left));
        deltas := deltas + [(name, OrZero(right) - OrZero(left))];
      } else {
        SkipName(before, after, names[..i], deltas, name);
      }
    }
    assert names[..|names|] == names;
    AllNames(before, after, names, deltas);
  }

  // ---- intervals ----------------------------------------------------------

  /** The dictionary by interval id; a later mapping replaces an earlier one. */
  function ByInterval(ms: seq<Mapping>): map<string, Mapping> {
    if ms == [] then map[] else ByInterval(ms[..|ms| - 1])[ms[|ms| - 1].intervalId := ms[|ms| - 1]]
  }

  function Find<V>(entries: map<string, V>, key: string): Option<V> {
    if key in entries then Some(entries[key]) else None
  }

  function Summarize(m: Option<Mapping>): Option<Summary> {
    if m.Some? then Some(Summary(m.value.intervalId, m.value.mappingId, m.value.normalizedClass)) else None
  }

  ghost predicate IsInterval(before: seq<Mapping>, after: seq<Mapping>, interval: Interval) {
    var left, right := Find(ByInterval(before), interval.intervalId), Find(ByInterval(after), interval.intervalId);
    && (left.Some? || right.Some?)
    && interval.before == Summarize(left) && interval.after == Summarize(right)
    && (interval.state == Added <==> left == None)
    && (interval.state == Removed <==> right == None)
    && (interval.state == Reused <==> left.Some? && right.Some? && left.value.mappingId != right.value.mappingId)
    && (interval.fieldDeltas.Some? <==> left.Some? && right.Some?)
    && (interval.fieldDeltas.Some? ==> IsFieldDeltas(left.value.fields, right.value.fields, interval.fieldDeltas.value))
  }

  function IntervalIds(intervals: seq<Interval>): (ids: seq<string>)
    ensures |ids| == |intervals| && forall i :: 0 <= i < |ids| ==> ids[i] == intervals[i].intervalId
  {
    seq(|intervals|, i requires 0 <= i < |intervals| => intervals[i].intervalId)
  }

  ghost predicate IsIntervals(before: seq<Mapping>, after: seq<Mapping>, intervals: seq<Interval>) {
    && Ascending(StringLess, IntervalIds(intervals))
    && (forall id :: id in IntervalIds(intervals) <==> id in ByInterval(before) || id in ByInterval(after))
    && (forall i :: 0 <= i < |intervals| ==> IsInterval(before, after, intervals[i]))
  }

  ghost predicate EachIsInterval(before: seq<Mapping>, after: seq<Mapping>, intervals: seq<Interval>) {
    forall i :: 0 <= i < |intervals| ==> IsInterval(before, after, intervals[i])
  }

  lemma NoIntervals(before: seq<Mapping>, after: seq<Mapping>)
    ensures EachIsInterval(before, after, []) && IntervalIds([]) == []
  {
  }

  lemma OneMoreInterval(before: seq<Mapping>, after: seq<Mapping>, intervals: seq<Interval>, interval: Interval)
    requires EachIsInterval(before, after, intervals) && IsInterval(before, after, interval)
    ensures EachIsInterval(before, after, intervals + [interval])
    ensures IntervalIds(intervals + [interval]) == IntervalIds(intervals) + [interval.intervalId]
  {
    hide IsInterval;
  }

  /** The row of one interval id of either side. */
  method DiffInterval(before: seq<Mapping>, after: seq<Mapping>, id: string) returns (interval: Interval)
    requires id in ByInterval(before) || id in ByInterval(after)
    ensures interval.intervalId == id && IsInterval(before, after, interval)
  {
    hide ByInterval, Summarize;
    var left, right := Find(ByInterval(before), id), Find(ByInterval(after), id);
    var state := if left == None then Added else if right == None then Removed else Stable;
    if left.Some? && right.Some? && left.value.mappingId != right.value.mappingId {
      state := Reused;
    }
    interval := Interval(id, state, Summarize(left), Summarize(right), None);
    if left.Some? && right.Some? {
      var deltas := FieldDeltas(left.value.fields, right.value.fields);
      interval := interval.(fieldDeltas := Some(deltas));
    }
  }

  method DiffIntervals(before: seq<Mapping>, after: seq<Mapping>) returns (intervals: seq<Interval>)
    ensures IsIntervals(before, after, intervals)
  {
    hide IsInterval, ByInterval, EachIsInterval, IntervalIds, Ascending, StringLess, IsIntervals;
    var ids := SortedKeys(ByInterval(before).Keys + ByInterval(after).Keys);
    intervals := [];
    NoIntervals(before, after);
    for i := 0 to |ids|
      invariant IntervalIds(intervals) == ids[..i]
      invariant EachIsInterval(before, after, intervals)
    {
      var id := ids[i];
      assert id in ids;
      var interval := DiffInterval(before, after, id);
      OneMoreInterval(before, after, intervals, interval);
      intervals := intervals + [interval];
      assert ids[..i + 1] == ids[..i] + [id];
    }
    assert ids[..|ids|] == ids;
    IntervalsInOrder(before, after, ids, intervals);
  }

  lemma {:induction false} IntervalsInOrder(before: seq<Mapping>, after: seq<Mapping>, ids: seq<string>,
                                            intervals: seq<Interval>)
    requires IntervalIds(intervals) == ids && Ascending(StringLess, ids) && EachIsInterval(before, after, intervals)
    requires forall id :: id in ids <==> id in ByInterval(before).Keys + ByInterval(after).Keys
    ensures IsIntervals(before, after, intervals)
  {
    hide IsInterval, ByInterval;
  }

  lemma {:induction false} ByIntervalFinds(ms: seq<Mapping>, id: string)
    requires id in ByInterval(ms)
    ensures ByInterval(ms)[id] in ms && ByInterval(ms)[id].intervalId == id
  {
    if id != ms[|ms| - 1].intervalId {
      ByIntervalFinds(ms[..|ms| - 1], id);
    }
  }

  /** Between accepted mappings an interval is reported as reused exactly when the same interval now
      differs in permissions, offset, device, inode or pathname, and as stable when it does not. */
  lemma {:induction false} ReusedMeansChangedIdentity(before: seq<Mapping>, after: seq<Mapping>, interval: Interval)
    requires forall m :: m in before ==> Accepted(m)
    requires forall m :: m in after ==> Accepted(m)
    requires IsInterval(before, after, interval)
    requires interval.before.Some? && interval.after.Some?
    ensures var left, right := ByInterval(before)[interval.intervalId], ByInterval(after)[interval.intervalId];
            && left in before && right in after && left.start == right.start && left.end == right.end
            && (interval.state == Reused <==> !SameIdentity(left, right))
            && (interval.state == Stable <==> SameIdentity(left, right))
  {
    ByIntervalFinds(before, interval.intervalId);
    ByIntervalFinds(after, interval.intervalId);
    AcceptedIdentities(ByInterval(before)[interval.intervalId], ByInterval(after)[interval.intervalId]);
  }

  // ---- class totals -------------------------------------------------------

  /** The bytes a mapping's fields record under `name`. */
  function FieldSum(fields: seq<(string, Field)>, name: string): int {
    if fields == [] then 0
    else
      var f := fields[|fields| - 1];
      FieldSum(fields[..|fields| - 1], name) + if f.0 == name then OrZero(f.1.bytes) else 0
  }

  predicate RecordsBytes(fields: seq<(string, Field)>, name: string) {
    exists i :: 0 <= i < |fields| && fields[i].0 == name && fields[i].1.bytes.Some?
  }

  function ClassTotal(ms: seq<Mapping>, class_: string, name: string): int {
    if ms == [] then 0
    else
      var m := ms[|ms| - 1];
      ClassTotal(ms[..|ms| - 1], class_, name) + if m.normalizedClass == class_ then FieldSum(m.fields, name) else 0
  }

  /** All bytes recorded under `name`, whatever the class. */
  function Total(ms: seq<Mapping>, name: string): int {
    if ms == [] then 0 else Total(ms[..|ms| - 1], name) + FieldSum(ms[|ms| - 1].fields, name)
  }

  predicate HasClass(ms: seq<Mapping>, class_: string) {
    exists i :: 0 <= i < |ms| && ms[i].normalizedClass == class_
  }

  predicate ClassRecords(ms: seq<Mapping>, class_: string, name: string) {
    exists i :: 0 <= i < |ms| && ms[i].normalizedClass == class_ && RecordsBytes(ms[i].fields, name)
  }

  type Totals = map<string, map<string, int>>

  function At(totals: Totals, class_: string, name: string): Option<int> {
    if class_ in totals && name in totals[class_] then Some(totals[class_][name]) else None
  }

  ghost predicate IsTotals(ms: seq<Mapping>, totals: Totals) {
    && (forall c :: c in totals <==> HasClass(ms, c))
    && (forall c, n :: At(totals, c, n) == if ClassRecords(ms, c, n) then Some(ClassTotal(ms, c, n)) else None)
  }

  method AddFields(values: map<string, int>, fields: seq<(string, Field)>) returns (sums: map<string, int>)
    ensures IsSumOf(values, fields, sums)
  {
    sums := values;
    for i := 0 to |fields|
      invariant forall n :: n in sums <==> n in values || RecordsBytes(fields[..i], n)
      invariant forall n :: n in sums ==> sums[n] == (if n in values then values[n] else 0) + FieldSum(fields[..i], n)
      invariant forall n :: !RecordsBytes(fields[..i], n) ==> FieldSum(fields[..i], n) == 0
    {
      var (name, field) := fields[i];
      ghost var part := fields[..i + 1];
      assert part[..i] == fields[..i] && part[i] == fields[i];
      forall n ensures RecordsBytes(part, n) <==> RecordsBytes(fields[..i], n) || (n == name && field.bytes.Some?) {
        RecordsBytesOfAppend(fields[..i], fields[i], n);
        assert part == fields[..i] + [fields[i]];
      }
      if field.bytes.Some? {
        sums := sums[name := (if name in sums then sums[name] else 0) + field.bytes.value];
      }
    }
    assert fields[..|fields|] == fields;
  }

  lemma RecordsBytesOfAppend(fields: seq<(string, Field)>, f: (string, Field), name: string)
    ensures RecordsBytes(fields + [f], name) <==> RecordsBytes(fields, name) || (f.0 == name && f.1.bytes.Some?)
  {
    var longer := fields + [f];
    assert longer[|fields|] == f;
    assert forall i :: 0 <= i < |fields| ==> longer[i] == fields[i];
  }

  lemma {:induction false} ClassOfAppend(ms: seq<Mapping>, m: Mapping, class_: string, name: string)
    ensures HasClass(ms + [m], class_) <==> HasClass(ms, class_) || m.normalizedClass == class_
    ensures ClassRecords(ms + [m], class_, name) <==>
            ClassRecords(ms, class_, name) || (m.normalizedClass == class_ && RecordsBytes(m.fields, name))
    ensures ClassTotal(ms + [m], class_, name) ==
            ClassTotal(ms, class_, name) + if m.normalizedClass == class_ then FieldSum(m.fields, name) else 0
  {
    var longer := ms + [m];
    assert longer[|ms|] == m && longer[..|ms|] == ms;
    assert forall i :: 0 <= i < |ms| ==> longer[i] == ms[i];
  }

  lemma {:induction false} NothingRecordedIsZero(fields: seq<(string, Field)>, name: string)
    requires !RecordsBytes(fields, name)
    ensures FieldSum(fields, name) == 0
  {
    if fields != [] {
      var n := |fields| - 1;
      assert fields == fields[..n] + [fields[n]];
      RecordsBytesOfAppend(fields[..n], fields[n], name);
      NothingRecordedIsZero(fields[..n], name);
    }
  }

  lemma {:induction false} NoRecordsIsZero(ms: seq<Mapping>, class_: string, name: string)
    requires !ClassRecords(ms, class_, name)
    ensures ClassTotal(ms, class_, name) == 0
  {
    if ms != [] {
      var n := |ms| - 1;
      assert ms == ms[..n] + [ms[n]];
      ClassOfAppend(ms[..n], ms[n], class_, name);
      NoRecordsIsZero(ms[..n], class_, name);
      if ms[n].normalizedClass == class_ {
        NothingRecordedIsZero(ms[n].fields, name);
      }
    }
  }

  /** What one more mapping does to the totals of its class. */
  lemma {:induction false} TotalsGrow(ms: seq<Mapping>, m: Mapping, totals: Totals, sums: map<string, int>,
                                      class_: string, name: string)
    requires IsTotals(ms, totals) && IsSumOf(InClass(totals, m.normalizedClass), m.fields, sums)
    ensures class_ in totals[m.normalizedClass := sums] <==> HasClass(ms + [m], class_)
    ensures At(totals[m.normalizedClass := sums], class_, name) ==
            if ClassRecords(ms + [m], class_, name) then Some(ClassTotal(ms + [m], class_, name)) else None
  {
    ClassOfAppend(ms, m, class_, name);
    assert At(totals, class_, name) == if ClassRecords(ms, class_, name) then Some(ClassTotal(ms, class_, name)) else None;
    if class_ == m.normalizedClass {
      assert name in sums <==> name in InClass(totals, class_) || RecordsBytes(m.fields, name);
      if !ClassRecords(ms, class_, name) {
        NoRecordsIsZero(ms, class_, name);
      }
    }
  }

  /** `totals.setdefault(class_, {})`. */
  function InClass(totals: Totals, class_: string): map<string, int> {
    if class_ in totals then totals[class_] else map[]
  }

  ghost predicate IsSumOf(values: map<string, int>, fields: seq<(string, Field)>, sums: map<string, int>) {
    && (forall n :: n in sums <==> n in values || RecordsBytes(fields, n))
    && (forall n :: n in sums ==> sums[n] == (if n in values then values[n] else 0) + FieldSum(fields, n))
  }

  method ClassTotals(ms: seq<Mapping>) returns (totals: Totals)
    ensures IsTotals(ms, totals)
  {
    totals := map[];
    for i := 0 to |ms|
      invariant IsTotals(ms[..i], totals)
    {
      var m := ms[i];
      assert ms[..i + 1] == ms[..i] + [m];
      var sums := AddFields(InClass(totals, m.normalizedClass), m.fields);
      forall c, n
        ensures c in totals[m.normalizedClass := sums] <==> HasClass(ms[..i] + [m], c)
        ensures At(totals[m.normalizedClass := sums], c, n) ==
                if ClassRecords(ms[..i] + [m], c, n) then Some(ClassTotal(ms[..i] + [m], c, n)) else None
      {
        TotalsGrow(ms[..i], m, totals, sums, c, n);
      }
      totals := totals[m.normalizedClass := sums];
    }
    assert ms[..|ms|] == ms;
  }

  // ---- class deltas -------------------------------------------------------

  function TotalAt(ms: seq<Mapping>, class_: string, name: string): Option<int> {
    if ClassRecords(ms, class_, name) then Some(ClassTotal(ms, class_, name)) else None
  }

  ghost predicate IsClassRow(before: seq<Mapping>, after: seq<Mapping>, class_: string, row: Table<int>) {
    && Ascending(StringLess, Keys(row))
    && forall name :: Get(row, name) == Delta(TotalAt(before, class_, name), TotalAt(after, class_, name))
  }

  ghost predicate IsClassDeltas(before: seq<Mapping>, after: seq<Mapping>, table: Table<Table<int>>) {
    && Ascending(StringLess, Keys(table))
    && (forall c :: c in Keys(table) <==> HasClass(before, c) || HasClass(after, c))
    && (forall i :: 0 <= i < |table| ==> IsClassRow(before, after, table[i].0, table[i].1))
  }

  /** The row holds the differences of the given names and nothing else. */
  ghost predicate Subtracted(before: map<string, int>, after: map<string, int>, names: seq<string>, row: Table<int>) {
    Keys(row) == names &&
    forall n :: Get(row, n) == if n in names then Delta(Find(before, n), Find(after, n)) else None
  }

  lemma SubtractOne(before: map<string, int>, after: map<string, int>, names: seq<string>, row: Table<int>, name: string)
    requires Subtracted(before, after, names, row) && name !in names && (name in before || name in after)
    ensures Subtracted(before, after, names + [name], row + [(name, OrZero(Find(after, name)) - OrZero(Find(before, name)))])
  {
    var value := OrZero(Find(after, name)) - OrZero(Find(before, name));
    var longer := row + [(name, value)];
    assert Keys(longer) == Keys(row) + [name];
    forall n ensures Get(longer, n) == if n in names + [name] then Delta(Find(before, n), Find(after, n)) else None {
      GetOfAppend(row, name, value, n);
      GetFinds(row, n);
    }
  }

  method SubtractNames(before: map<string, int>, after: map<string, int>, names: seq<string>) returns (row: Table<int>)
    requires Ascending(StringLess, names) && forall n :: n in names ==> n in before || n in after
    ensures Subtracted(before, after, names, row)
  {
    row := [];
    for i := 0 to |names|
      invariant Subtracted(before, after, names[..i], row)
    {
      var name := names[i];
      assert name in names;
      AscendingIsNew(names, i);
      SubtractOne(before, after, names[..i], row, name);
      assert names[..i + 1] == names[..i] + [name];
      row := row + [(name, OrZero(Find(after, name)) - OrZero(Find(before, name)))];
    }
    assert names[..|names|] == names;
  }

  method Subtract(before: map<string, int>, after: map<string, int>) returns (row: Table<int>)
    ensures Ascending(StringLess, Keys(row))
    ensures forall n :: Get(row, n) == Delta(Find(before, n), Find(after, n))
  {
    var names := SortedKeys(before.Keys + after.Keys);
    row := SubtractNames(before, after, names);
    SubtractedAll(before, after, names, row);
  }

  lemma {:induction false} SubtractedAll(before: map<string, int>, after: map<string, int>, names: seq<string>,
                                         row: Table<int>)
    requires Subtracted(before, after, names, row) && forall n :: n in names <==> n in before.Keys + after.Keys
    ensures forall n :: Get(row, n) == Delta(Find(before, n), Find(after, n))
  {
    forall n ensures Get(row, n) == Delta(Find(before, n), Find(after, n)) {
      assert n in names <==> n in before || n in after;
    }
  }

  ghost predicate RowsHold(before: seq<Mapping>, after: seq<Mapping>, table: Table<Table<int>>) {
    forall i :: 0 <= i < |table| ==> IsClassRow(before, after, table[i].0, table[i].1)
  }

  method ClassRow(before: Totals, after: Totals, class_: string, ghost bs: seq<Mapping>,
                  ghost as_: seq<Mapping>) returns (row: Table<int>)
    requires IsTotals(bs, before) && IsTotals(as_, after)
    ensures IsClassRow(bs, as_, class_, row)
  {
    var left := if class_ in before then before[class_] else map[];
    var right := if class_ in after then after[class_] else map[];
    row := Subtract(left, right);
    RowIsExact(bs, as_, before, after, class_, row);
  }

  lemma RowsHoldOneMore(before: seq<Mapping>, after: seq<Mapping>, table: Table<Table<int>>, class_: string, row: Table<int>)
    requires RowsHold(before, after, table) && IsClassRow(before, after, class_, row)
    ensures RowsHold(before, after, table + [(class_, row)])
    ensures Keys(table + [(class_, row)]) == Keys(table) + [class_]
  {
    hide IsClassRow;
  }

  lemma RowsAreDeltas(before: seq<Mapping>, after: seq<Mapping>, left: Totals, right: Totals,
                      table: Table<Table<int>>, classes: seq<string>)
    requires IsTotals(before, left) && IsTotals(after, right) && RowsHold(before, after, table)
    requires Keys(table) == classes && Ascending(StringLess, classes)
    requires forall c :: c in classes <==> c in left.Keys + right.Keys
    ensures IsClassDeltas(before, after, table)
  {
    hide IsClassRow, ClassRecords, ClassTotal, HasClass;
    forall c ensures c in Keys(table) <==> HasClass(before, c) || HasClass(after, c) {
      assert c in left <==> HasClass(before, c);
      assert c in right <==> HasClass(after, c);
    }
  }

  method ClassDeltas(before: seq<Mapping>, after: seq<Mapping>) returns (table: Table<Table<int>>)
    ensures IsClassDeltas(before, after, table)
  {
    hide IsClassRow, RowsHold, IsTotals;
    var beforeTotals := ClassTotals(before);
    var afterTotals := ClassTotals(after);
    var classes := SortedKeys(beforeTotals.Keys + afterTotals.Keys);
    table := [];
    NoRowsHold(before, after);
    for i := 0 to |classes|
      invariant Keys(table) == classes[..i]
      invariant RowsHold(before, after, table)
    {
      var row := ClassRow(beforeTotals, afterTotals, classes[i], before, after);
      RowsHoldOneMore(before, after, table, classes[i], row);
      table := table + [(classes[i], row)];
      assert classes[..i + 1] == classes[..i] + [classes[i]];
    }
    assert classes[..|classes|] == classes;
    RowsAreDeltas(before, after, beforeTotals, afterTotals, table, classes);
  }

  lemma NoRowsHold(before: seq<Mapping>, after: seq<Mapping>)
    ensures RowsHold(before, after, [])
  {
  }

  lemma {:induction false} RowIsExact(before: seq<Mapping>, after: seq<Mapping>, beforeTotals: Totals,
                                      afterTotals: Totals, class_: string, row: Table<int>)
    requires IsTotals(before, beforeTotals) && IsTotals(after, afterTotals)
    requires Ascending(StringLess, Keys(row))
    requires forall n :: Get(row, n) == Delta(Find(if class_ in beforeTotals then beforeTotals[class_] else map[], n),
                                              Find(if class_ in afterTotals then afterTotals[class_] else map[], n))
    ensures IsClassRow(before, after, class_, row)
  {
    forall n ensures Get(row, n) == Delta(TotalAt(before, class_, n), TotalAt(after, class_, n)) {
      assert At(beforeTotals, class_, n) == TotalAt(before, class_, n);
      assert At(afterTotals, class_, n) == TotalAt(after, class_, n);
    }
  }

  /** The sum of a reported row set, over all classes, under one name. */
  function Reported(table: Table<Table<int>>, name: string): int {
    if table == [] then 0 else Reported(table[..|table| - 1], name) + OrZero(Get(table[|table| - 1].1, name))
  }

  /** The classes of a table, weighed by a sum over `ms`. */
  function Weighed(classes: seq<string>, ms: seq<Mapping>, name: string): int {
    if classes == [] then 0
    else Weighed(classes[..|classes| - 1], ms, name) + ClassTotal(ms, classes[|classes| - 1], name)
  }

  lemma {:induction false} RowsAreDifferences(before: seq<Mapping>, after: seq<Mapping>, table: Table<Table<int>>,
                                              name: string)
    requires forall i :: 0 <= i < |table| ==> IsClassRow(before, after, table[i].0, table[i].1)
    ensures Reported(table, name) == Weighed(Keys(table), after, name) - Weighed(Keys(table), before, name)
  {
    if table != [] {
      var n := |table| - 1;
      RowsAreDifferences(before, after, table[..n], name);
      assert Keys(table)[..n] == Keys(table[..n]);
      var c := table[n].0;
      assert IsClassRow(before, after, c, table[n].1);
      if !ClassRecords(before, c, name) {
        NoRecordsIsZero(before, c, name);
      }
      if !ClassRecords(after, c, name) {
        NoRecordsIsZero(after, c, name);
      }
    }
  }

  lemma {:induction false} WeighedOfAppend(classes: seq<string>, ms: seq<Mapping>, m: Mapping, name: string)
    requires Ascending(StringLess, classes)
    ensures Weighed(classes, ms + [m], name) ==
            Weighed(classes, ms, name) + if m.normalizedClass in classes then FieldSum(m.fields, name) else 0
  {
    if classes != [] {
      var n := |classes| - 1;
      WeighedOfAppend(classes[..n], ms, m, name);
      ClassOfAppend(ms, m, classes[n], name);
      assert classes == classes[..n] + [classes[n]];
      if m.normalizedClass == classes[n] && m.normalizedClass in classes[..n] {
        var j :| 0 <= j < n && classes[j] == classes[n];
        assert StringLess(classes[j], classes[n]);
        StringLessIsStrict();
      }
    }
  }

  lemma {:induction false} WeighedOfNothing(classes: seq<string>, name: string)
    ensures Weighed(classes, [], name) == 0
  {
    if classes != [] {
      WeighedOfNothing(classes[..|classes| - 1], name);
    }
  }

  /** Summed over the classes, the class totals are the total. */
  lemma {:induction false} ClassesCoverTotal(classes: seq<string>, ms: seq<Mapping>, name: string)
    requires Ascending(StringLess, classes) && forall m :: m in ms ==> m.normalizedClass in classes
    ensures Weighed(classes, ms, name) == Total(ms, name)
  {
    if ms == [] {
      WeighedOfNothing(classes, name);
    } else {
      var n := |ms| - 1;
      assert ms == ms[..n] + [ms[n]];
      ClassesCoverTotal(classes, ms[..n], name);
      WeighedOfAppend(classes, ms[..n], ms[n], name);
    }
  }

  /** Conservation: under every field name the reported class deltas add up to all bytes after minus all
      bytes before. */
  lemma {:induction false} ClassDeltasConserve(before: seq<Mapping>, after: seq<Mapping>, table: Table<Table<int>>,
                                               name: string)
    requires IsClassDeltas(before, after, table)
    ensures Reported(table, name) == Total(after, name) - Total(before, name)
  {
    RowsAreDifferences(before, after, table, name);
    forall m | m in before ensures m.normalizedClass in Keys(table) {
      assert HasClass(before, m.normalizedClass);
    }
    forall m | m in after ensures m.normalizedClass in Keys(table) {
      assert HasClass(after, m.normalizedClass);
    }
    ClassesCoverTotal(Keys(table), before, name);
    ClassesCoverTotal(Keys(table), after, name);
  }

  // ---- the whole comparison -----------------------------------------------

  /** On two disjoint address spaces the comparison is exact in all three parts. */
  method DiffSmaps(before: seq<Mapping>, after: seq<Mapping>) returns (d: Difference)
    ensures IsIntervals(before, after, d.intervals)
    ensures d.segments == Segments(before, after)
    ensures IsClassDeltas(before, after, d.classDeltas)
    ensures Disjoint(before) && Disjoint(after) ==>
              && Ordered(d.segments)
              && (forall s :: s in d.segments ==> Exact(before, after, s))
              && (forall a :: Covered(d.segments, a) <==> Mapped(before, a) || Mapped(after, a))
    ensures forall name :: Reported(d.classDeltas, name) == Total(after, name) - Total(before, name)
  {
    var intervals := DiffIntervals(before, after);
    var segments := ComputeSegments(before, after);
    var classDeltas := ClassDeltas(before, after);
    d := Difference(intervals, segments, classDeltas);
    if Disjoint(before) && Disjoint(after) {
      SegmentsPartition(before, after);
    }
    forall name ensures Reported(classDeltas, name) == Total(after, name) - Total(before, name) {
      ClassDeltasConserve(before, after, classDeltas, name);
    }
  }
}
