/**
  `parse_smaps` (scripts/capture_process_memory.py): the loop that folds classified lines into
  mappings, against the text those mappings print back to.
 */
module SmapsParser {
  import opened Wrappers
  import opened SmapsMapping
  import opened SmapsSegments

  function Natural(n: int): nat {
    if n < 0 then 0 else n
  }

  /** `_field`: the raw text is always kept; a number in kB also gets its size in bytes. */
  function ReadField(raw: string, value: Option<nat>, unit: Option<string>): Field {
    Field(raw, value, unit,
          if value.Some? && unit == Some("kB") then Some(value.value * 1024) else None)
  }

  function ReadHeader(l: Line): Mapping
    requires l.Header?
  {
    var device := Lower(l.device);
    var intervalId := IntervalId(l.start, l.end);
    Mapping(l.start, l.end, intervalId,
            MappingId(intervalId, l.permissions, l.offset, device, l.inode, l.pathname),
            NormalizedClass(l.pathname), l.permissions, l.offset, device, l.inode, l.pathname, [])
  }

  // ---- the printed form ---------------------------------------------------

  function HeaderLine(m: Mapping): Line {
    Header(Natural(m.start), Natural(m.end), m.permissions, Natural(m.offset), m.device, Natural(m.inode), m.pathname)
  }

  function FieldLines(fields: seq<(string, Field)>): (ls: seq<Line>)
    ensures |ls| == |fields|
    ensures forall i :: 0 <= i < |ls| ==> ls[i] == FieldLine(fields[i].0, fields[i].1.raw, fields[i].1.value, fields[i].1.unit)
  {
    seq(|fields|, i requires 0 <= i < |fields| =>
          FieldLine(fields[i].0, fields[i].1.raw, fields[i].1.value, fields[i].1.unit))
  }

  /** A mapping's header line followed by its field lines. */
  function Section(m: Mapping): seq<Line> {
    [HeaderLine(m)] + FieldLines(m.fields)
  }

  function Text(ms: seq<Mapping>): seq<Line> {
    if ms == [] then [] else Text(ms[..|ms| - 1]) + Section(ms[|ms| - 1])
  }

  /** The lines that carry evidence, with the device in the case the parser stores it. */
  function Kept(lines: seq<Line>): seq<Line> {
    if lines == [] then []
    else
      var l := lines[|lines| - 1];
      Kept(lines[..|lines| - 1]) +
      (match l
       case Blank => []
       case Header(start, end, permissions, offset, device, inode, pathname) =>
         [Header(start, end, permissions, offset, Lower(device), inode, pathname)]
       case _ => [l])
  }

  function Headers(ls: seq<Line>): nat {
    if ls == [] then 0 else Headers(ls[..|ls| - 1]) + if ls[|ls| - 1].Header? then 1 else 0
  }

  function FieldCount(ls: seq<Line>): nat {
    if ls == [] then 0 else FieldCount(ls[..|ls| - 1]) + if ls[|ls| - 1].FieldLine? then 1 else 0
  }

  predicate Repeats(ls: seq<Line>, i: int, j: int) {
    0 <= i < j < |ls| && ls[i].FieldLine? && ls[j].FieldLine? && ls[i].name == ls[j].name &&
    forall h :: i < h < j ==> !ls[h].Header?
  }

  /** What a complete piece of smaps evidence looks like, line by line. */
  ghost predicate WellFormedText(ls: seq<Line>) {
    && (forall i :: 0 <= i < |ls| ==> ls[i].Header? || ls[i].FieldLine?)
    && (ls != [] ==> ls[0].Header?)
    && (forall i :: 0 <= i < |ls| && ls[i].Header? ==> ls[i].start < ls[i].end)
    && (forall i, j :: !Repeats(ls, i, j))
    && Headers(ls) <= MAX_SMAPS_MAPPING_COUNT
    && FieldCount(ls) <= MAX_SMAPS_FIELD_COUNT
  }

  predicate HasField(m: Mapping, name: string) {
    exists q :: 0 <= q < |m.fields| && m.fields[q].0 == name
  }

  /** A mapping as the parser builds it. */
  predicate Parsed(m: Mapping) {
    && Accepted(m)
    && m.start >= 0
    && (forall i :: 0 <= i < |m.fields| ==>
          m.fields[i].1 == ReadField(m.fields[i].1.raw, m.fields[i].1.value, m.fields[i].1.unit))
    && (forall i, j :: 0 <= i < j < |m.fields| ==> m.fields[i].0 != m.fields[j].0)
  }

  lemma HexIsLower(s: string)
    requires IsHex(s)
    ensures Lower(s) == s
  {
  }

  lemma DeviceIsLower(s: string)
    requires IsDevice(s)
    ensures Lower(s) == s
  {
    var i :| 0 <= i < |s| && s[i] == ':' && IsHex(s[..i]) && IsHex(s[i + 1..]);
    HexIsLower(s[..i]);
    HexIsLower(s[i + 1..]);
    forall k | 0 <= k < |s| ensures Lower(s)[k] == s[k] {
      assert k < i ==> s[k] == s[..i][k] && Lower(s[..i])[k] == s[..i][k];
      assert k > i ==> s[k] == s[i + 1..][k - i - 1] && Lower(s[i + 1..])[k - i - 1] == s[i + 1..][k - i - 1];
    }
  }

  predicate NoNegativeBytes(m: Mapping) {
    forall i :: 0 <= i < |m.fields| && m.fields[i].1.bytes.Some? ==> m.fields[i].1.bytes.value >= 0
  }

  /** The check of recorded evidence passes a mapping at a real address exactly when the parser builds that very
      mapping from its header line: no field of it can be changed alone. */
  lemma AcceptedExactly(m: Mapping)
    ensures Accepted(m) && m.start >= 0 <==>
            && m.start < m.end && Lexed(HeaderLine(m))
            && m == ReadHeader(HeaderLine(m)).(fields := m.fields)
            && NoNegativeBytes(m)
  {
    hide IntervalId, MappingId, IsPermissions, NormalizedClass, IsDevice, Lower;
    if IsDevice(m.device) {
      DeviceIsLower(m.device);
    }
  }

  // ---- lemmas on texts ----------------------------------------------------

  lemma {:induction false} CountsOfConcat(a: seq<Line>, b: seq<Line>)
    ensures Headers(a + b) == Headers(a) + Headers(b)
    ensures FieldCount(a + b) == FieldCount(a) + FieldCount(b)
  {
    if b == [] {
      assert a + b == a;
    } else {
      var n := |b| - 1;
      CountsOfConcat(a, b[..n]);
      assert (a + b)[..|a + b| - 1] == a + b[..n];
    }
  }

  lemma {:induction false} KeptOfConcat(a: seq<Line>, b: seq<Line>)
    ensures Kept(a + b) == Kept(a) + Kept(b)
  {
    if b == [] {
      assert a + b == a;
    } else {
      var n := |b| - 1;
      KeptOfConcat(a, b[..n]);
      assert (a + b)[..|a + b| - 1] == a + b[..n];
    }
  }

  /** Damage in a part of the text cannot be repaired by what follows. */
  lemma PrefixIsWellFormed(a: seq<Line>, b: seq<Line>)
    requires WellFormedText(a + b)
    ensures WellFormedText(a)
  {
    CountsOfConcat(a, b);
    forall i | 0 <= i < |a| ensures a[i] == (a + b)[i] {
    }
    forall i, j ensures !Repeats(a, i, j) {
      assert Repeats(a, i, j) ==> Repeats(a + b, i, j);
    }
  }

  lemma OneLine(l: Line)
    ensures Headers([l]) == (if l.Header? then 1 else 0) && FieldCount([l]) == (if l.FieldLine? then 1 else 0)
  {
    assert [l][..0] == [];
  }

  lemma {:induction false} AppendHeader(t: seq<Line>, l: Line)
    requires WellFormedText(t) && l.Header?
    ensures WellFormedText(t + [l]) <==> l.start < l.end && Headers(t) < MAX_SMAPS_MAPPING_COUNT
  {
    CountsOfConcat(t, [l]);
    OneLine(l);
    assert (t + [l])[|t|] == l;
    forall i, j ensures !Repeats(t + [l], i, j) {
      assert Repeats(t + [l], i, j) ==> Repeats(t, i, j);
    }
  }

  /** The text ends with the open section of `m`: a header line at `base`, and then its field lines. */
  ghost predicate EndsWith(t: seq<Line>, base: int, m: Mapping) {
    && 0 <= base && |t| == base + 1 + |m.fields| && t[base].Header?
    && forall i :: base < i < |t| ==> t[i].FieldLine? && t[i].name == m.fields[i - base - 1].0
  }

  lemma {:induction false} OpenSection(ms: seq<Mapping>)
    requires ms != []
    ensures EndsWith(Text(ms), |Text(ms[..|ms| - 1])|, ms[|ms| - 1])
  {
    var last := ms[|ms| - 1];
    var rest, lines := Text(ms[..|ms| - 1]), FieldLines(last.fields);
    var t := rest + ([HeaderLine(last)] + lines);
    assert t[|rest|] == HeaderLine(last);
    forall i | |rest| < i < |t| ensures t[i] == lines[i - |rest| - 1] {
    }
  }

  lemma AppendRepeats(t: seq<Line>, base: int, m: Mapping, l: Line)
    requires EndsWith(t, base, m) && l.FieldLine? && HasField(m, l.name)
    ensures exists i, j :: Repeats(t + [l], i, j)
  {
    var q :| 0 <= q < |m.fields| && m.fields[q].0 == l.name;
    var u, i := t + [l], base + 1 + q;
    assert u[i] == t[i] && u[|t|] == l;
    forall h | i < h < |t| ensures !u[h].Header? {
      assert u[h] == t[h];
    }
    assert Repeats(u, i, |t|);
  }

  lemma AppendIsFresh(t: seq<Line>, base: int, m: Mapping, l: Line, i: int)
    requires EndsWith(t, base, m) && l.FieldLine? && !HasField(m, l.name)
    ensures !Repeats(t + [l], i, |t|)
  {
    var u := t + [l];
    assert u[|t|] == l && u[base] == t[base];
    if base < i < |t| {
      assert u[i] == t[i] && m.fields[i - base - 1].0 != l.name;
    }
  }

  lemma EarlierRepeat(t: seq<Line>, l: Line, i: int, j: int)
    requires Repeats(t + [l], i, j) && j < |t|
    ensures Repeats(t, i, j)
  {
    forall h | i <= h <= j ensures (t + [l])[h] == t[h] {
    }
  }

  /** Appending a field line keeps the text well formed exactly when the open section has no such
      field yet and the limit is not reached. */
  lemma {:induction false} AppendField(ms: seq<Mapping>, l: Line)
    requires ms != [] && WellFormedText(Text(ms)) && l.FieldLine?
    ensures WellFormedText(Text(ms) + [l]) <==>
            && FieldCount(Text(ms)) < MAX_SMAPS_FIELD_COUNT
            && !HasField(ms[|ms| - 1], l.name)
  {
    hide Text, Repeats, HasField, FieldCount, Headers, EndsWith;
    var t, m, base := Text(ms), ms[|ms| - 1], |Text(ms[..|ms| - 1])|;
    CountsOfConcat(t, [l]);
    OneLine(l);
    OpenSection(ms);
    if HasField(m, l.name) {
      AppendRepeats(t, base, m, l);
    } else {
      forall i, j ensures !Repeats(t + [l], i, j) {
        AppendNeverRepeats(t, base, m, l, i, j);
      }
    }
    TextStarts(ms);
    assert (t + [l])[0] == t[0];
  }

  lemma AppendNeverRepeats(t: seq<Line>, base: int, m: Mapping, l: Line, i: int, j: int)
    requires EndsWith(t, base, m) && l.FieldLine? && !HasField(m, l.name) && !Repeats(t, i, j)
    ensures !Repeats(t + [l], i, j)
  {
    if Repeats(t + [l], i, j) && j < |t| {
      EarlierRepeat(t, l, i, j);
    } else if j == |t| {
      AppendIsFresh(t, base, m, l, i);
    }
  }

  lemma {:induction false} TextStarts(ms: seq<Mapping>)
    requires ms != []
    ensures Text(ms) != []
  {
  }

  lemma ReadHeaderIsParsed(l: Line)
    requires Lexed(l) && l.Header? && l.start < l.end
    ensures Parsed(ReadHeader(l))
  {
  }

  // ---- the parser ---------------------------------------------------------

  /** The loop's state after reading the kept lines `t`. */
  ghost predicate Folded(ms: seq<Mapping>, fieldCount: int, t: seq<Line>) {
    && Text(ms) == t
    && WellFormedText(t)
    && (forall i :: 0 <= i < |ms| ==> Parsed(ms[i]))
    && |ms| == Headers(t)
    && fieldCount == FieldCount(t)
  }

  function NormalizedHeader(l: Line): Line
    requires l.Header?
  {
    Header(l.start, l.end, l.permissions, l.offset, Lower(l.device), l.inode, l.pathname)
  }

  function AddField(m: Mapping, l: Line): Mapping
    requires l.FieldLine?
  {
    m.(fields := m.fields + [(l.name, ReadField(l.raw, l.value, l.unit))])
  }

  lemma {:induction false} FoldHeader(ms: seq<Mapping>, fieldCount: int, t: seq<Line>, l: Line)
    requires Folded(ms, fieldCount, t) && l.Header? && Lexed(l)
    requires l.start < l.end && |ms| < MAX_SMAPS_MAPPING_COUNT
    ensures Folded(ms + [ReadHeader(l)], fieldCount, t + [NormalizedHeader(l)])
  {
    var current, kept := ReadHeader(l), NormalizedHeader(l);
    AppendHeader(t, kept);
    ReadHeaderIsParsed(l);
    assert Section(current) == [kept];
    assert (ms + [current])[..|ms|] == ms;
    CountsOfConcat(t, [kept]);
    OneLine(kept);
  }

  lemma {:induction false} FoldField(ms: seq<Mapping>, fieldCount: int, t: seq<Line>, l: Line)
    requires Folded(ms, fieldCount, t) && l.FieldLine? && ms != []
    requires !HasField(ms[|ms| - 1], l.name)
    requires fieldCount < MAX_SMAPS_FIELD_COUNT
    ensures Folded(ms[..|ms| - 1] + [AddField(ms[|ms| - 1], l)], fieldCount + 1, t + [l])
  {
    hide Text, WellFormedText, HasField, Parsed, AddField, FieldCount, Headers;
    AppendField(ms, l);
    CountsOfConcat(t, [l]);
    OneLine(l);
    TextOfAddField(ms, l);
    AddFieldIsParsed(ms[|ms| - 1], l);
  }

  lemma {:induction false} TextOfAddField(ms: seq<Mapping>, l: Line)
    requires ms != [] && l.FieldLine?
    ensures Text(ms[..|ms| - 1] + [AddField(ms[|ms| - 1], l)]) == Text(ms) + [l]
  {
    var n := |ms| - 1;
    var updated := AddField(ms[n], l);
    assert Section(updated) == Section(ms[n]) + [l];
    var ms' := ms[..n] + [updated];
    assert ms'[..|ms'| - 1] == ms[..n];
  }

  lemma AddFieldIsParsed(m: Mapping, l: Line)
    requires Parsed(m) && l.FieldLine?
    requires !HasField(m, l.name)
    ensures Parsed(AddField(m, l))
  {
    var n := AddField(m, l);
    assert forall i :: 0 <= i < |m.fields| ==> n.fields[i] == m.fields[i];
    assert n.fields[|m.fields|].1 == ReadField(l.raw, l.value, l.unit);
  }

  /** Reading one more line. */
  lemma {:induction false} KeptStep(lines: seq<Line>, k: nat)
    requires k < |lines|
    ensures Kept(lines[..k + 1]) == Kept(lines[..k]) +
            (if lines[k].Blank? then [] else if lines[k].Header? then [NormalizedHeader(lines[k])] else [lines[k]])
    ensures WellFormedText(Kept(lines)) ==> WellFormedText(Kept(lines[..k + 1]))
  {
    KeptOfPrefix(lines, k);
    var a, b := Kept(lines[..k + 1]), Kept(lines[k + 1..]);
    assert Kept(lines) == a + b by {
      assert lines == lines[..k + 1] + lines[k + 1..];
      KeptOfConcat(lines[..k + 1], lines[k + 1..]);
    }
    if WellFormedText(Kept(lines)) {
      PrefixIsWellFormed(a, b);
    }
  }

  lemma {:induction false} KeptOfPrefix(lines: seq<Line>, k: nat)
    requires k < |lines|
    ensures Kept(lines[..k + 1]) == Kept(lines[..k]) +
            (if lines[k].Blank? then [] else if lines[k].Header? then [NormalizedHeader(lines[k])] else [lines[k]])
  {
    var p := lines[..k + 1];
    assert p[..|p| - 1] == lines[..k] && p[|p| - 1] == lines[k];
  }

  lemma FoldedNothing(lines: seq<Line>)
    ensures Folded([], 0, Kept(lines[..0]))
  {
  }

  lemma FieldFirst(l: Line)
    requires !l.Header?
    ensures !WellFormedText([] + [l])
  {
    assert ([] + [l])[0] == l;
  }

  lemma MalformedNever(t: seq<Line>, l: Line)
    requires l.Malformed?
    ensures !WellFormedText(t + [l])
  {
    assert (t + [l])[|t|] == l;
  }

  lemma {:induction false} NoMappings(ms: seq<Mapping>)
    ensures ms == [] <==> Text(ms) == []
  {
  }

  /**
    Succeeds exactly on well-formed text; the mappings print back to every line that was read, and
    each of them passes the check that recorded evidence must pass. The script's last check, for text
    with content but no mapping, can never fire.
   */
  method ParseSmaps(lines: seq<Line>) returns (r: Result<seq<Mapping>, Error>)
    requires forall i :: 0 <= i < |lines| ==> Lexed(lines[i])
    ensures r.Success? <==> WellFormedText(Kept(lines))
    ensures r.Success? ==> Text(r.value) == Kept(lines)
    ensures r.Success? ==> forall i :: 0 <= i < |r.value| ==> Parsed(r.value[i]) && Accepted(r.value[i])
    ensures r.Success? && Kept(lines) != [] ==> r.value != []
  {
    hide WellFormedText, Text, Kept, Headers, FieldCount, Repeats, HasField, ValidateMapping, ReadField;
    var mappings: seq<Mapping> := [];
    var fieldCount := 0;
    FoldedNothing(lines);
    for k := 0 to |lines|
      invariant Folded(mappings, fieldCount, Kept(lines[..k]))
    {
      var l := lines[k];
      KeptStep(lines, k);
      ghost var t := Kept(lines[..k]);
      if l.Header? {
        AppendHeader(t, NormalizedHeader(l));
        if l.end <= l.start {
          return Failure(InvalidInterval);
        }
        if |mappings| >= MAX_SMAPS_MAPPING_COUNT {
          return Failure(MappingLimit);
        }
        FoldHeader(mappings, fieldCount, t, l);
        mappings := mappings + [ReadHeader(l)];
      } else if !l.Blank? {
        if mappings == [] {
          NoMappings(mappings);
          FieldFirst(l);
          return Failure(PrecedesHeader);
        }
        if l.Malformed? {
          MalformedNever(t, l);
          return Failure(MalformedLine);
        }
        var current := mappings[|mappings| - 1];
        AppendField(mappings, l);
        if HasField(current, l.name) {
          return Failure(RepeatedField);
        }
        fieldCount := fieldCount + 1;
        if fieldCount > MAX_SMAPS_FIELD_COUNT {
          return Failure(FieldLimit);
        }
        FoldField(mappings, fieldCount - 1, t, l);
        mappings := mappings[..|mappings| - 1] + [AddField(current, l)];
      }
    }
    assert lines[..|lines|] == lines;
    NoMappings(mappings);
    return Success(mappings);
  }

  // ---- overlap --------------------------------------------------------------

  /** The intervals of the header lines, in order. */
  function HeaderIntervals(ls: seq<Line>): seq<(int, int)> {
    if ls == [] then []
    else
      var l := ls[|ls| - 1];
      HeaderIntervals(ls[..|ls| - 1]) + if l.Header? then [(l.start, l.end)] else []
  }

  function Intervals(ms: seq<Mapping>): (r: seq<(int, int)>)
    ensures |r| == |ms| && forall i :: 0 <= i < |r| ==> r[i] == (ms[i].start, ms[i].end)
  {
    seq(|ms|, i requires 0 <= i < |ms| => (ms[i].start, ms[i].end))
  }

  lemma {:induction false} IntervalsOfConcat(a: seq<Line>, b: seq<Line>)
    ensures HeaderIntervals(a + b) == HeaderIntervals(a) + HeaderIntervals(b)
  {
    if b == [] {
      assert a + b == a;
    } else {
      IntervalsOfConcat(a, b[..|b| - 1]);
      assert (a + b)[..|a + b| - 1] == a + b[..|b| - 1];
    }
  }

  lemma {:induction false} NoHeaderNoInterval(ls: seq<Line>)
    requires forall i :: 0 <= i < |ls| ==> !ls[i].Header?
    ensures HeaderIntervals(ls) == []
  {
    if ls != [] {
      NoHeaderNoInterval(ls[..|ls| - 1]);
    }
  }

  lemma IntervalOfSection(m: Mapping)
    requires Parsed(m)
    ensures HeaderIntervals(Section(m)) == [(m.start, m.end)]
  {
    IntervalsOfConcat([HeaderLine(m)], FieldLines(m.fields));
    NoHeaderNoInterval(FieldLines(m.fields));
    assert [HeaderLine(m)][..0] == [];
    assert HeaderIntervals([HeaderLine(m)]) == [] + [(m.start, m.end)];
  }

  lemma {:induction false} IntervalsOfText(ms: seq<Mapping>)
    requires forall i :: 0 <= i < |ms| ==> Parsed(ms[i])
    ensures HeaderIntervals(Text(ms)) == Intervals(ms)
  {
    hide Parsed;
    if ms != [] {
      var n := |ms| - 1;
      IntervalsOfText(ms[..n]);
      IntervalOfSection(ms[n]);
      IntervalsOfConcat(Text(ms[..n]), Section(ms[n]));
      assert Intervals(ms) == Intervals(ms[..n]) + [(ms[n].start, ms[n].end)];
    }
  }

  ghost predicate Apart(intervals: seq<(int, int)>) {
    forall i, j :: 0 <= i < j < |intervals| ==> intervals[i].1 <= intervals[j].0 || intervals[j].1 <= intervals[i].0
  }

  /** The parser never looks for overlap, so what it returns is disjoint exactly when the header lines are. */
  lemma {:induction false} ParsedIsDisjointExactly(lines: seq<Line>, ms: seq<Mapping>)
    requires Text(ms) == Kept(lines) && forall i :: 0 <= i < |ms| ==> Parsed(ms[i])
    ensures Disjoint(ms) <==> Apart(HeaderIntervals(Kept(lines)))
  {
    hide Parsed, HeaderIntervals;
    IntervalsOfText(ms);
    var r := Intervals(ms);
    assert Apart(r) ==> forall i, j :: 0 <= i < j < |ms| ==> r[i].1 <= r[j].0 || r[j].1 <= r[i].0;
  }
}
