/**
  A release directory (scripts/build_release.py): its files, its manifest and its checksum list.

  Files are texts. SHA-256 and the JSON text of a manifest come in as functions: a digest is some text of
  hexadecimal digits, and parsing what was printed gives the manifest back. Nothing else is supposed of them.
 */
module ReleaseFiles {
  import opened Wrappers

  /** A row of `artifacts`; `extra` holds the keys the script does not know. */
  datatype Row = Row(name: string, sha256: string, size: nat, extra: map<string, string>)

  /** The manifest's value; `rest` stands for every key but these two. */
  datatype Manifest = Manifest(format: string, artifacts: seq<Row>, rest: map<string, string>)

  datatype Tools = Tools(sha256: string -> string, dumps: Manifest -> string, loads: string -> Option<Manifest>)

  ghost predicate Sound(t: Tools) {
    && (forall text :: HexText(t.sha256(text)))
    && (forall m :: t.loads(t.dumps(m)) == Some(m))
  }

  type Files = map<string, string>

  const FORMAT := "dinkster.engine/1"
  const MANIFEST := "release-manifest.json"
  const SUMS := "SHA256SUMS"
  const RESERVED := {"release-manifest.json", "sha256sums"}

  // ---- names --------------------------------------------------------------

  predicate Alphanumeric(c: char) {
    'A' <= c <= 'Z' || 'a' <= c <= 'z' || '0' <= c <= '9'
  }

  predicate ValidName(s: string) {
    s != [] && Alphanumeric(s[0]) && forall i :: 0 <= i < |s| ==> Alphanumeric(s[i]) || s[i] in "._+-"
  }

  function Lower(c: char): char {
    if 'A' <= c <= 'Z' then c + 32 as char else c
  }

  /** `str.casefold` on the characters the name pattern admits. */
  function Fold(s: string): string {
    seq(|s|, i requires 0 <= i < |s| => Lower(s[i]))
  }

  predicate IsWheel(name: string) {
    |name| >= 4 && Fold(name)[|name| - 4..] == ".whl"
  }

  lemma ReservedNames()
    ensures Fold(MANIFEST) == MANIFEST && MANIFEST in RESERVED
    ensures Fold(SUMS) in RESERVED
    ensures MANIFEST != SUMS
  {
    var m, s := Fold(MANIFEST), Fold(SUMS);
    assert forall i :: 0 <= i < |MANIFEST| ==> Lower(MANIFEST[i]) == MANIFEST[i];
    assert m == MANIFEST;
    assert s == "sha256sums";
  }

  /** Names that can stand side by side: well formed, and pairwise different when case is ignored. */
  ghost predicate Compatible(names: seq<string>, taken: set<string>) {
    && (forall i :: 0 <= i < |names| ==> ValidName(names[i]) && Fold(names[i]) !in taken)
    && (forall i, j :: 0 <= i < j < |names| ==> Fold(names[i]) != Fold(names[j]))
  }

  function Folds(names: seq<string>): set<string> {
    set i | 0 <= i < |names| :: Fold(names[i])
  }

  lemma CompatibleSplits(a: seq<string>, b: seq<string>, taken: set<string>)
    ensures Compatible(a + b, taken) <==> Compatible(a, taken) && Compatible(b, taken + Folds(a))
  {
    var ab := a + b;
    assert forall i :: 0 <= i < |a| ==> ab[i] == a[i];
    assert forall i :: 0 <= i < |b| ==> ab[|a| + i] == b[i];
    if Compatible(ab, taken) {
      forall i | 0 <= i < |b| ensures ValidName(b[i]) && Fold(b[i]) !in taken + Folds(a) {
        assert Fold(ab[|a| + i]) !in taken;
      }
      forall i, j | 0 <= i < j < |b| ensures Fold(b[i]) != Fold(b[j]) {
        assert Fold(ab[|a| + i]) != Fold(ab[|a| + j]);
      }
    }
    if Compatible(a, taken) && Compatible(b, taken + Folds(a)) {
      forall i | 0 <= i < |ab| ensures ValidName(ab[i]) && Fold(ab[i]) !in taken {
        assert i >= |a| ==> ab[i] == b[i - |a|];
      }
      forall i, j | 0 <= i < j < |ab| ensures Fold(ab[i]) != Fold(ab[j]) {
        assert i >= |a| ==> ab[i] == b[i - |a|];
        assert j >= |a| ==> ab[j] == b[j - |a|];
        assert i < |a| ==> Fold(a[i]) in Folds(a);
      }
    }
  }

  lemma CompatibleIsDistinct(names: seq<string>)
    requires Compatible(names, RESERVED)
    ensures forall i, j :: 0 <= i < j < |names| ==> names[i] != names[j]
    ensures MANIFEST !in names && SUMS !in names
  {
    ReservedNames();
  }

  /** Compatibility does not depend on the order of the names. */
  lemma CompatibleOfPermutation(a: seq<string>, b: seq<string>, taken: set<string>)
    requires Compatible(a, taken) && multiset(a) == multiset(b)
    ensures Compatible(b, taken)
  {
    forall i | 0 <= i < |b| ensures ValidName(b[i]) && Fold(b[i]) !in taken {
      assert b[i] in multiset(b);
      assert b[i] in a;
    }
    forall i, j | 0 <= i < j < |b| ensures Fold(b[i]) != Fold(b[j]) {
      assert b[i] in multiset(b) && b[j] in multiset(b);
      assert b[i] in a && b[j] in a;
      if b[i] == b[j] {
        TwiceInMultiset(b, i, j);
        TwiceAtTwoPlaces(a, b[i]);
      }
    }
  }

  lemma TwiceInMultiset(b: seq<string>, i: nat, j: nat)
    requires i < j < |b| && b[i] == b[j]
    ensures multiset(b)[b[i]] >= 2
  {
    assert b == b[..j] + b[j..];
    assert b[..j][i] == b[i] && b[j..][0] == b[i];
    assert b[i] in b[..j] && b[i] in b[j..];
    assert multiset(b) == multiset(b[..j]) + multiset(b[j..]);
  }

  lemma TwiceAtTwoPlaces(a: seq<string>, x: string)
    requires multiset(a)[x] >= 2
    ensures exists i, j :: 0 <= i < j < |a| && a[i] == x && a[j] == x
  {
    assert x in multiset(a);
    var i :| 0 <= i < |a| && a[i] == x;
    var rest := a[..i] + a[i + 1..];
    assert a == a[..i] + [a[i]] + a[i + 1..];
    assert multiset(rest)[x] >= 1;
    assert x in rest;
    var k :| 0 <= k < |rest| && rest[k] == x;
    if k < i {
      assert a[k] == x;
    } else {
      assert a[k + 1] == x;
    }
  }

  // ---- the checksum list --------------------------------------------------

  predicate HexText(s: string) {
    forall i :: 0 <= i < |s| ==> '0' <= s[i] <= '9' || 'a' <= s[i] <= 'f'
  }

  predicate Ascii(s: string) {
    forall i :: 0 <= i < |s| ==> s[i] as int < 128
  }

  /** Where `str.splitlines` breaks an ASCII text. */
  predicate IsBreak(c: char) {
    '\n' <= c <= '\r' || 28 as char <= c <= 30 as char
  }

  function LineEnd(s: string): (n: nat)
    ensures n <= |s|
    ensures forall i :: 0 <= i < n ==> !IsBreak(s[i])
    ensures n < |s| ==> IsBreak(s[n])
  {
    if s == [] || IsBreak(s[0]) then 0 else 1 + LineEnd(s[1..])
  }

  function SplitLines(s: string): seq<string>
    decreases |s|
  {
    if s == [] then []
    else
      var n := LineEnd(s);
      if n == |s| then [s]
      else
        var width := if s[n] == '\r' && n + 1 < |s| && s[n + 1] == '\n' then 2 else 1;
        [s[..n]] + SplitLines(s[n + width..])
  }

  /** A name and its digest. */
  datatype Sum = Sum(name: string, digest: string)

  function FirstGap(line: string): (n: nat)
    ensures n <= |line|
    ensures n < |line| ==> n + 1 < |line| && line[n] == ' ' && line[n + 1] == ' '
    ensures forall i :: 0 <= i < n && i + 1 < |line| ==> line[i] != ' ' || line[i + 1] != ' '
  {
    if |line| < 2 then |line|
    else if line[0] == ' ' && line[1] == ' ' then 0
    else 1 + FirstGap(line[1..])
  }

  /** `line.split("  ", 1)` reversed; a line without the two spaces has no name. */
  function ReadLine(line: string): Option<Sum> {
    var n := FirstGap(line);
    if n == |line| then None else Some(Sum(line[n + 2..], line[..n]))
  }

  function ReadLines(lines: seq<string>): Option<seq<Sum>> {
    if lines == [] then Some([])
    else
      var first, rest := ReadLine(lines[0]), ReadLines(lines[1..]);
      if first.None? || rest.None? then None else Some([first.value] + rest.value)
  }

  function PrintLine(s: Sum): string {
    s.digest + "  " + s.name
  }

  function Print(sums: seq<Sum>): string {
    if sums == [] then "" else PrintLine(sums[0]) + "\n" + Print(sums[1..])
  }

  predicate Printable(s: Sum) {
    HexText(s.digest) && ValidName(s.name)
  }

  lemma PrintedLineReadsBack(s: Sum)
    requires Printable(s)
    ensures ReadLine(PrintLine(s)) == Some(s)
    ensures forall i :: 0 <= i < |PrintLine(s)| ==> !IsBreak(PrintLine(s)[i]) && PrintLine(s)[i] as int < 128
  {
    var line := PrintLine(s);
    var n := FirstGap(line);
    var d := |s.digest|;
    assert line[d] == ' ' && line[d + 1] == ' ';
    assert forall i :: 0 <= i < d ==> line[i] == s.digest[i];
    assert !(n < d) && !(d < n);
    assert line[..d] == s.digest && line[d + 2..] == s.name;
    forall i | 0 <= i < |line| ensures !IsBreak(line[i]) && line[i] as int < 128 {
      assert i < d ==> line[i] == s.digest[i];
      assert i >= d + 2 ==> line[i] == s.name[i - d - 2];
    }
  }

  lemma {:induction false} SplitAfterLine(line: string, rest: string)
    requires forall i :: 0 <= i < |line| ==> !IsBreak(line[i])
    ensures SplitLines(line + "\n" + rest) == [line] + SplitLines(rest)
  {
    var s := line + "\n" + rest;
    var n := LineEnd(s);
    assert s[|line|] == '\n';
    assert forall i :: 0 <= i < |line| ==> s[i] == line[i];
    assert !(n < |line|) && !(|line| < n);
    assert s[..n] == line && s[n + 1..] == rest;
  }

  lemma {:induction false} ReadAfterLine(s: Sum, rest: string, sums: seq<Sum>)
    requires Printable(s) && ReadLines(SplitLines(rest)) == Some(sums) && |SplitLines(rest)| == |sums|
    ensures ReadLines(SplitLines(PrintLine(s) + "\n" + rest)) == Some([s] + sums)
    ensures |SplitLines(PrintLine(s) + "\n" + rest)| == |sums| + 1
  {
    PrintedLineReadsBack(s);
    SplitAfterLine(PrintLine(s), rest);
    var lines := [PrintLine(s)] + SplitLines(rest);
    assert lines[1..] == SplitLines(rest);
  }

  ghost predicate AllPrintable(sums: seq<Sum>) {
    forall i :: 0 <= i < |sums| ==> Printable(sums[i])
  }

  lemma NothingReadsBack()
    ensures SplitLines(Print([])) == [] && ReadLines([]) == Some([])
  {
  }

  /** Checksum lines read back as what was printed. */
  lemma {:induction false} PrintedSumsReadBack(sums: seq<Sum>)
    requires AllPrintable(sums)
    ensures |SplitLines(Print(sums))| == |sums|
    ensures ReadLines(SplitLines(Print(sums))) == Some(sums)
    decreases |sums|
  {
    hide SplitLines, ReadLines, PrintLine;
    if sums == [] {
      NothingReadsBack();
    } else {
      PrintedSumsReadBack(sums[1..]);
      ReadAfterLine(sums[0], Print(sums[1..]), sums[1..]);
      assert sums == [sums[0]] + sums[1..];
    }
  }

  lemma {:induction false} PrintedSumsAreAscii(sums: seq<Sum>)
    requires AllPrintable(sums)
    ensures Ascii(Print(sums))
    decreases |sums|
  {
    if sums != [] {
      PrintedLineReadsBack(sums[0]);
      PrintedSumsAreAscii(sums[1..]);
    }
  }

  /** Python's `dict(pairs)`: a later pair replaces an earlier one. */
  function Dict(sums: seq<Sum>): map<string, string> {
    if sums == [] then map[]
    else Dict(sums[..|sums| - 1])[sums[|sums| - 1].name := sums[|sums| - 1].digest]
  }

  ghost predicate DistinctNames(sums: seq<Sum>) {
    forall i, j :: 0 <= i < j < |sums| ==> sums[i].name != sums[j].name
  }

  lemma {:induction false} LastPairWins(sums: seq<Sum>, n: string)
    ensures n in Dict(sums) ==> Sum(n, Dict(sums)[n]) in sums
  {
    if sums != [] {
      LastPairWins(sums[..|sums| - 1], n);
      assert sums == sums[..|sums| - 1] + [sums[|sums| - 1]];
    }
  }

  lemma {:induction false} NamesAreKeys(sums: seq<Sum>, i: nat)
    requires i < |sums|
    ensures sums[i].name in Dict(sums)
    ensures DistinctNames(sums) ==> Dict(sums)[sums[i].name] == sums[i].digest
  {
    var k := |sums| - 1;
    if i < k {
      NamesAreKeys(sums[..k], i);
      assert DistinctNames(sums) ==> DistinctNames(sums[..k]);
    }
  }

  lemma {:induction false} RepeatedName(front: seq<Sum>, x: Sum)
    requires x.name in Dict(front)
    ensures !DistinctNames(front + [x]) && |Dict(front)[x.name := x.digest]| == |Dict(front)|
  {
    LastPairWins(front, x.name);
    var i :| 0 <= i < |front| && front[i] == Sum(x.name, Dict(front)[x.name]);
    assert (front + [x])[i].name == (front + [x])[|front|].name;
    assert Dict(front)[x.name := x.digest].Keys == Dict(front).Keys;
  }

  lemma {:induction false} NewName(front: seq<Sum>, x: Sum)
    requires x.name !in Dict(front)
    ensures |Dict(front)[x.name := x.digest]| == |Dict(front)| + 1
  {
    assert Dict(front)[x.name := x.digest].Keys == Dict(front).Keys + {x.name};
  }

  lemma {:induction false} DictSize(sums: seq<Sum>)
    ensures |Dict(sums)| <= |sums|
    ensures |Dict(sums)| == |sums| <==> DistinctNames(sums)
  {
    hide DistinctNames;
    if sums == [] {
      NoNames();
    } else {
      var k := |sums| - 1;
      var front, x := sums[..k], sums[k];
      DictSize(front);
      assert sums == front + [x];
      if x.name in Dict(front) {
        RepeatedName(front, x);
      } else {
        NewName(front, x);
        DistinctExtends(front, x);
      }
    }
  }

  lemma NoNames()
    ensures DistinctNames([])
  {
  }

  lemma {:induction false} DistinctExtends(front: seq<Sum>, x: Sum)
    requires x.name !in Dict(front)
    ensures DistinctNames(front + [x]) <==> DistinctNames(front)
  {
    var sums := front + [x];
    assert forall i :: 0 <= i < |front| ==> sums[i] == front[i];
    forall i | 0 <= i < |front| ensures sums[i].name != x.name {
      NamesAreKeys(front, i);
    }
  }

  /**
    Comparing lengths and dictionaries accepts a list of lines exactly when it holds each expected line once and
    no other, in any order.
   */
  lemma {:induction false} SumsMatchExactly(read: seq<Sum>, expected: seq<Sum>)
    requires DistinctNames(expected)
    ensures |read| == |Dict(expected)| && Dict(read) == Dict(expected)
       <==> |read| == |expected| && forall s :: s in read <==> s in expected
  {
    DictSize(expected);
    if |read| == |Dict(expected)| && Dict(read) == Dict(expected) {
      DictSize(read);
      forall s ensures s in read <==> s in expected {
        MemberOfDict(read, s);
        MemberOfDict(expected, s);
      }
    }
    if |read| == |expected| && forall s :: s in read <==> s in expected {
      SameMembersSameDict(read, expected);
    }
  }

  lemma {:induction false} MemberOfDict(sums: seq<Sum>, s: Sum)
    requires DistinctNames(sums)
    ensures s in sums <==> s.name in Dict(sums) && Dict(sums)[s.name] == s.digest
  {
    LastPairWins(sums, s.name);
    if s in sums {
      var i :| 0 <= i < |sums| && sums[i] == s;
      NamesAreKeys(sums, i);
    }
  }

  lemma {:induction false} SameMembersSameDict(read: seq<Sum>, expected: seq<Sum>)
    requires DistinctNames(expected)
    requires forall s :: s in read <==> s in expected
    ensures Dict(read) == Dict(expected)
  {
    forall n ensures n in Dict(read) <==> n in Dict(expected)
             ensures n in Dict(read) ==> Dict(read)[n] == Dict(expected)[n]
    {
      LastPairWins(read, n);
      LastPairWins(expected, n);
      if n in Dict(read) {
        MemberOfDict(expected, Sum(n, Dict(read)[n]));
      }
      if n in Dict(expected) {
        var i :| 0 <= i < |read| && read[i] == Sum(n, Dict(expected)[n]);
        NamesAreKeys(read, i);
      }
    }
  }
}
