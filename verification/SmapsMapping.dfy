/**
  One mapping of `/proc/<pid>/smaps`, its two identities, and the parser that reads them
  (scripts/capture_process_memory.py).

  A line arrives already classified by the three regular expressions of the script; what each
  expression guarantees about its groups is `Lexed`. A Python `dict` is an ordered sequence of
  entries with distinct keys.
 */
module SmapsMapping {
  import opened Wrappers
  import opened Numerals

  const MAX_SMAPS_MAPPING_COUNT := 16384
  const MAX_SMAPS_FIELD_COUNT := 131072

  datatype Field = Field(raw: string, value: Option<nat>, unit: Option<string>, bytes: Option<int>)

  datatype Mapping = Mapping(
    start: int,
    end: int,
    intervalId: string,
    mappingId: string,
    normalizedClass: string,
    permissions: string,
    offset: int,
    device: string,
    inode: int,
    pathname: string,
    fields: seq<(string, Field)>)

  datatype Line =
    | Header(start: nat, end: nat, permissions: string, offset: nat, device: string, inode: nat, pathname: string)
    | FieldLine(name: string, raw: string, value: Option<nat>, unit: Option<string>)
    | Blank
    | Malformed

  datatype Error =
    | InvalidInterval | MappingLimit | PrecedesHeader | MalformedLine | RepeatedField | FieldLimit
    | MalformedIdentity | IdentityMismatch | ClassMismatch | MalformedField

  // ---- identities ---------------------------------------------------------

  predicate IsPermissions(s: string) {
    |s| == 4 && forall i :: 0 <= i < |s| ==> s[i] in "rwxps-"
  }

  predicate IsHex(s: string) {
    s != [] && forall i :: 0 <= i < |s| ==> IsDigit(s[i])
  }

  /** `[0-9a-f]+:[0-9a-f]+`. */
  predicate IsDevice(s: string) {
    exists i :: 0 <= i < |s| && s[i] == ':' && IsHex(s[..i]) && IsHex(s[i + 1..])
  }

  function IntervalId(start: int, end: int): string {
    Numeral(start, 16) + "-" + Numeral(end, 16)
  }

  function MappingId(intervalId: string, permissions: string, offset: int, device: string, inode: int,
                     pathname: string): string {
    intervalId + ":" + (permissions + ":" + (Numeral(offset, 16) + ":" + (device + ":" + (Numeral(inode, 10) + ":" + pathname))))
  }

  function NormalizedClass(pathname: string): string {
    if pathname == [] then "anonymous"
    else if pathname[0] == '[' && pathname[|pathname| - 1] == ']' then "kernel:" + pathname
    else "path:" + pathname
  }

  function LowerHex(c: char): char {
    if 'A' <= c <= 'F' then 'a' + (c - 'A') else c
  }

  function Lower(s: string): (r: string)
    ensures |r| == |s| && forall i :: 0 <= i < |s| ==> r[i] == LowerHex(s[i])
  {
    seq(|s|, i requires 0 <= i < |s| => LowerHex(s[i]))
  }

  /** What the regular expressions guarantee about the groups of a matched line. */
  predicate Lexed(l: Line) {
    match l
    case Header(_, _, permissions, _, device, _, _) => IsPermissions(permissions) && IsDevice(Lower(device))
    case FieldLine(_, _, value, unit) => value == None ==> unit == None
    case _ => true
  }

  lemma NumeralIsFreeOfColon(n: int, radix: nat)
    requires 2 <= radix <= 16
    ensures ':' !in Numeral(n, radix)
    ensures n >= 0 ==> '-' !in Numeral(n, radix)
  {
  }

  lemma NumeralStart(n: int)
    ensures Numeral(n, 16) != []
    ensures n < 0 <==> Numeral(n, 16)[0] == '-'
    ensures n < 0 ==> Numeral(n, 16) == ['-'] + Numeral(-n, 16)
  {
  }

  /** The sign of the start can be read off the text. */
  lemma IntervalIdStart(a: int, b: int)
    ensures IntervalId(a, b) != []
    ensures a < 0 <==> IntervalId(a, b)[0] == '-'
    ensures a < 0 ==> IntervalId(a, b)[1..] == IntervalId(-a, b)
  {
    hide Numeral;
    NumeralStart(a);
    if a < 0 {
      assert IntervalId(a, b) == ['-'] + IntervalId(-a, b);
    }
  }

  lemma NaturalIntervals(a: nat, b: int, c: nat, d: int)
    requires IntervalId(a, b) == IntervalId(c, d)
    ensures a == c && b == d
  {
    hide Numeral;
    NumeralIsFreeOfColon(a, 16);
    NumeralIsFreeOfColon(c, 16);
    SplitAtSeparator(Numeral(a, 16), Numeral(b, 16), Numeral(c, 16), Numeral(d, 16), '-');
    NumeralInjective(a, c, 16);
    NumeralInjective(b, d, 16);
  }

  /** An interval id names one interval, whatever the signs of its ends. */
  lemma IntervalIdInjective(a: int, b: int, c: int, d: int)
    requires IntervalId(a, b) == IntervalId(c, d)
    ensures a == c && b == d
  {
    hide IntervalId;
    IntervalIdStart(a, b);
    IntervalIdStart(c, d);
    if a < 0 {
      NaturalIntervals(-a, b, -c, d);
    } else {
      NaturalIntervals(a, b, c, d);
    }
  }

  lemma SplitDevice(d: string) returns (major: string, minor: string)
    requires IsDevice(d)
    ensures d == major + [':'] + minor && ':' !in major && ':' !in minor
  {
    var i :| 0 <= i < |d| && d[i] == ':' && IsHex(d[..i]) && IsHex(d[i + 1..]);
    major, minor := d[..i], d[i + 1..];
  }

  lemma Regroup(a: string, b: string, x: string)
    ensures a + [':'] + b + [':'] + x == a + [':'] + (b + [':'] + x)
  {
  }

  /** A device has one colon, so the text that follows it is determined. */
  lemma SplitAfterDevice(d: string, x: string, e: string, y: string)
    requires IsDevice(d) && IsDevice(e)
    requires d + ":" + x == e + ":" + y
    ensures d == e && x == y
  {
    var a, b := SplitDevice(d);
    var a', b' := SplitDevice(e);
    Regroup(a, b, x);
    Regroup(a', b', y);
    SplitAtSeparator(a, b + [':'] + x, a', b' + [':'] + y, ':');
    SplitAtSeparator(b, x, b', y, ':');
  }

  /** The six identity fields can be read back from a mapping id; a pathname may hold any character. */
  lemma MappingIdInjective(i: string, p: string, o: int, d: string, n: int, path: string,
                           i': string, p': string, o': int, d': string, n': int, path': string)
    requires ':' !in i && ':' !in i' && IsPermissions(p) && IsPermissions(p') && IsDevice(d) && IsDevice(d')
    requires MappingId(i, p, o, d, n, path) == MappingId(i', p', o', d', n', path')
    ensures i == i' && p == p' && o == o' && d == d' && n == n' && path == path'
  {
    var tail4, tail4' := Numeral(n, 10) + ":" + path, Numeral(n', 10) + ":" + path';
    var tail3, tail3' := d + ":" + tail4, d' + ":" + tail4';
    var tail2, tail2' := Numeral(o, 16) + ":" + tail3, Numeral(o', 16) + ":" + tail3';
    var tail1, tail1' := p + ":" + tail2, p' + ":" + tail2';
    NumeralIsFreeOfColon(o, 16);
    NumeralIsFreeOfColon(o', 16);
    NumeralIsFreeOfColon(n, 10);
    NumeralIsFreeOfColon(n', 10);
    SplitAtSeparator(i, tail1, i', tail1', ':');
    SplitAtSeparator(p, tail2, p', tail2', ':');
    SplitAtSeparator(Numeral(o, 16), tail3, Numeral(o', 16), tail3', ':');
    SplitAfterDevice(d, tail4, d', tail4');
    SplitAtSeparator(Numeral(n, 10), path, Numeral(n', 10), path', ':');
    NumeralInjective(o, o', 16);
    NumeralInjective(n, n', 10);
  }

  // ---- validation ---------------------------------------------------------

  datatype Checked = Checked(fieldCount: nat, start: int, end: int, intervalId: string, mappingId: string)

  /** The per-mapping check that both a parsed and a recorded mapping must pass. */
  function ValidateMapping(m: Mapping): Result<Checked, Error> {
    if m.end <= m.start then Failure(MalformedIdentity)
    else if !IsPermissions(m.permissions) || m.offset < 0 || !IsDevice(m.device) || m.inode < 0 then
      Failure(MalformedIdentity)
    else
      var intervalId := IntervalId(m.start, m.end);
      var mappingId := MappingId(intervalId, m.permissions, m.offset, m.device, m.inode, m.pathname);
      if m.intervalId != intervalId || m.mappingId != mappingId then Failure(IdentityMismatch)
      else if m.normalizedClass != NormalizedClass(m.pathname) then Failure(ClassMismatch)
      else if exists i :: 0 <= i < |m.fields| && m.fields[i].1.bytes.Some? && m.fields[i].1.bytes.value < 0 then
        Failure(MalformedField)
      else Success(Checked(|m.fields|, m.start, m.end, intervalId, mappingId))
  }

  predicate Accepted(m: Mapping) {
    ValidateMapping(m).Success?
  }

  /** The identity fields other than the interval. */
  predicate SameIdentity(m: Mapping, n: Mapping) {
    && m.permissions == n.permissions && m.offset == n.offset && m.device == n.device
    && m.inode == n.inode && m.pathname == n.pathname
  }

  lemma IntervalIdIsFreeOfColon(a: int, b: int)
    ensures ':' !in IntervalId(a, b)
  {
    NumeralIsFreeOfColon(a, 16);
    NumeralIsFreeOfColon(b, 16);
  }

  /** Two accepted mappings share an interval id exactly when they share the interval, and a mapping id
      exactly when they also share every identity field. */
  lemma AcceptedIdentities(m: Mapping, n: Mapping)
    requires Accepted(m) && Accepted(n)
    ensures m.intervalId == n.intervalId <==> m.start == n.start && m.end == n.end
    ensures m.mappingId == n.mappingId <==> m.start == n.start && m.end == n.end && SameIdentity(m, n)
  {
    if m.intervalId == n.intervalId {
      IntervalIdInjective(m.start, m.end, n.start, n.end);
    }
    if m.mappingId == n.mappingId {
      IntervalIdIsFreeOfColon(m.start, m.end);
      IntervalIdIsFreeOfColon(n.start, n.end);
      MappingIdInjective(m.intervalId, m.permissions, m.offset, m.device, m.inode, m.pathname,
                         n.intervalId, n.permissions, n.offset, n.device, n.inode, n.pathname);
      IntervalIdInjective(m.start, m.end, n.start, n.end);
    }
  }
}
