/**
  Staging, describing and extending a release directory (scripts/build_release.py).

  Candidates are names with readable contents; the directory is a map from names to contents.
 */
module ReleaseDirectory {
  import opened Wrappers
  import opened Sorting
  import opened ReleaseFiles

  datatype Candidate = Candidate(name: string, content: string)

  datatype Error =
    | MissingFile(name: string)
    | UnreadableManifest
    | UnsupportedFormat
    | InvalidArtifact(name: string)
    | Mismatch(name: string)
    | WrongSums
    | Unlisted
    | InvalidPayload(name: string)

  predicate ByName(a: string, b: string) {
    a == b || StringLess(a, b)
  }

  function Names(rows: seq<Row>): (r: seq<string>)
    ensures |r| == |rows|
    ensures forall i :: 0 <= i < |rows| ==> r[i] == rows[i].name
  {
    seq(|rows|, i requires 0 <= i < |rows| => rows[i].name)
  }

  function CandidateNames(cs: seq<Candidate>): (r: seq<string>)
    ensures |r| == |cs|
    ensures forall i :: 0 <= i < |cs| ==> r[i] == cs[i].name
  {
    seq(|cs|, i requires 0 <= i < |cs| => cs[i].name)
  }

  // ---- stage_payloads ------------------------------------------------------

  predicate Admissible(c: Candidate, reserved: set<string>) {
    ValidName(c.name) && Fold(c.name) !in reserved && !IsWheel(c.name)
  }

  function StageError(cs: seq<Candidate>, reserved: set<string>): Option<Error> {
    if cs == [] then None
    else if !Admissible(cs[0], reserved) then Some(InvalidPayload(cs[0].name))
    else StageError(cs[1..], reserved + {Fold(cs[0].name)})
  }

  function Copied(files: Files, cs: seq<Candidate>): Files {
    if cs == [] then files else Copied(files, cs[..|cs| - 1])[cs[|cs| - 1].name := cs[|cs| - 1].content]
  }

  function StagedNames(names: seq<string>, cs: seq<Candidate>): seq<string> {
    SortBy(ByName, names + CandidateNames(cs))
  }

  // ---- write_manifest ------------------------------------------------------

  predicate AllPresent(files: Files, names: seq<string>) {
    forall i :: 0 <= i < |names| ==> names[i] in files
  }

  function RowsOf(t: Tools, files: Files, names: seq<string>): (r: seq<Row>)
    requires AllPresent(files, names)
    ensures |r| == |names|
  {
    seq(|names|, i requires 0 <= i < |names| =>
      Row(names[i], t.sha256(files[names[i]]), |files[names[i]]|, map[]))
  }

  function SumsOf(t: Tools, files: Files, names: seq<string>): (r: seq<Sum>)
    requires AllPresent(files, names)
    ensures |r| == |names|
    ensures forall i :: 0 <= i < |names| ==> r[i] == Sum(names[i], t.sha256(files[names[i]]))
  {
    seq(|names|, i requires 0 <= i < |names| => Sum(names[i], t.sha256(files[names[i]])))
  }

  function Described(t: Tools, files: Files, m: Manifest, names: seq<string>): Manifest
    requires AllPresent(files, names)
  {
    m.(artifacts := RowsOf(t, files, names))
  }

  function Written(t: Tools, files: Files, m: Manifest, names: seq<string>): Files
    requires AllPresent(files, names)
  {
    var described := files[MANIFEST := t.dumps(Described(t, files, m, names))];
    described[SUMS := Print(SumsOf(t, described, names + [MANIFEST]))]
  }

  // ---- the checks of extend_release ----------------------------------------

  predicate RowHolds(t: Tools, files: Files, row: Row) {
    row.name in files && |files[row.name]| == row.size && t.sha256(files[row.name]) == row.sha256
  }

  function RowError(t: Tools, files: Files, row: Row, seen: set<string>): Option<Error> {
    if !ValidName(row.name) || Fold(row.name) in seen then Some(InvalidArtifact(row.name))
    else if row.name !in files then Some(MissingFile(row.name))
    else if !RowHolds(t, files, row) then Some(Mismatch(row.name))
    else None
  }

  function RowsError(t: Tools, files: Files, rows: seq<Row>, seen: set<string>): Option<Error> {
    if rows == [] then None
    else
      var e := RowError(t, files, rows[0], seen);
      if e.Some? then e else RowsError(t, files, rows[1..], seen + {Fold(rows[0].name)})
  }

  /** The comparison of SHA256SUMS with the digests of the files it should list. */
  predicate SumsAgree(text: string, expected: map<string, string>) {
    Ascii(text) && |SplitLines(text)| == |expected| &&
    var read := ReadLines(SplitLines(text));
    read.Some? && Dict(read.value) == expected
  }

  function ManifestOf(t: Tools, files: Files): Result<Manifest, Error> {
    if MANIFEST !in files then Failure(MissingFile(MANIFEST))
    else
      var m := t.loads(files[MANIFEST]);
      if m.None? then Failure(UnreadableManifest)
      else if m.value.format != FORMAT then Failure(UnsupportedFormat)
      else Success(m.value)
  }

  function ExtendError(t: Tools, files: Files, cs: seq<Candidate>): Option<Error> {
    var m := ManifestOf(t, files);
    if m.Failure? then Some(m.error)
    else
      var names := Names(m.value.artifacts);
      var e := RowsError(t, files, m.value.artifacts, RESERVED);
      if e.Some? then e
      else if SUMS !in files then Some(MissingFile(SUMS))
      else if !AllPresent(files, names + [MANIFEST])
           || !SumsAgree(files[SUMS], Dict(SumsOf(t, files, names + [MANIFEST]))) then Some(WrongSums)
      else if files.Keys != (set n | n in names) + {MANIFEST, SUMS} then Some(Unlisted)
      else StageError(cs, Folds(names) + RESERVED)
  }

  // ---- what a release promises ---------------------------------------------

  /**
    Every file but the two lists is described by exactly one row, with its size and digest; names stay apart
    when case is ignored; and SHA256SUMS holds one line for each described file and the manifest, and no other.
   */
  ghost predicate SelfConsistent(t: Tools, files: Files) {
    && MANIFEST in files && SUMS in files
    && var m := t.loads(files[MANIFEST]);
    && m.Some? && m.value.format == FORMAT
    && var names := Names(m.value.artifacts);
    && Compatible(names, RESERVED)
    && (forall i :: 0 <= i < |names| ==> RowHolds(t, files, m.value.artifacts[i]))
    && files.Keys == (set n | n in names) + {MANIFEST, SUMS}
    && Ascii(files[SUMS])
    && var read := ReadLines(SplitLines(files[SUMS]));
    && read.Some?
    && |read.value| == |names| + 1
    && forall s :: s in read.value <==>
         (s.name in names || s.name == MANIFEST) && s.name in files && s.digest == t.sha256(files[s.name])
  }

  ghost predicate PayloadsFit(names: seq<string>, cs: seq<Candidate>) {
    && Compatible(CandidateNames(cs), Folds(names) + RESERVED)
    && forall i :: 0 <= i < |cs| ==> !IsWheel(cs[i].name)
  }

  /** A head and a tail of names stand side by side when the head is free and the tail avoids it. */
  lemma CompatibleHead(name: string, rest: seq<string>, taken: set<string>)
    ensures Compatible([name] + rest, taken) <==>
              ValidName(name) && Fold(name) !in taken && Compatible(rest, taken + {Fold(name)})
  {
    CompatibleSplits([name], rest, taken);
    assert [name][0] == name;
    assert Folds([name]) == {Fold(name)};
    assert Compatible([name], taken) <==> ValidName(name) && Fold(name) !in taken;
  }

  lemma {:induction false} RowsErrorExactly(t: Tools, files: Files, rows: seq<Row>, seen: set<string>)
    ensures RowsError(t, files, rows, seen).None? <==>
              Compatible(Names(rows), seen) && forall i :: 0 <= i < |rows| ==> RowHolds(t, files, rows[i])
    decreases |rows|
  {
    if rows != [] {
      var row, rest := rows[0], rows[1..];
      RowsErrorExactly(t, files, rest, seen + {Fold(row.name)});
      assert Names(rows) == [row.name] + Names(rest);
      CompatibleHead(row.name, Names(rest), seen);
      HeadAndTail(t, files, rows);
    }
  }

  lemma HeadAndTail(t: Tools, files: Files, rows: seq<Row>)
    requires rows != []
    ensures (forall i :: 0 <= i < |rows| ==> RowHolds(t, files, rows[i])) <==>
              RowHolds(t, files, rows[0]) && forall i :: 0 <= i < |rows[1..]| ==> RowHolds(t, files, rows[1..][i])
  {
    if RowHolds(t, files, rows[0]) && forall i :: 0 <= i < |rows[1..]| ==> RowHolds(t, files, rows[1..][i]) {
      forall i | 0 <= i < |rows| ensures RowHolds(t, files, rows[i]) {
        assert i > 0 ==> rows[i] == rows[1..][i - 1];
      }
    }
  }

  lemma {:induction false} StageErrorExactly(cs: seq<Candidate>, reserved: set<string>)
    ensures StageError(cs, reserved).None? <==>
              Compatible(CandidateNames(cs), reserved) && forall i :: 0 <= i < |cs| ==> !IsWheel(cs[i].name)
    decreases |cs|
  {
    if cs != [] {
      var c, rest := cs[0], cs[1..];
      StageErrorExactly(rest, reserved + {Fold(c.name)});
      assert CandidateNames(cs) == [c.name] + CandidateNames(rest);
      CompatibleHead(c.name, CandidateNames(rest), reserved);
      assert forall i :: 0 < i < |cs| ==> cs[i] == rest[i - 1];
    }
  }

  lemma ExpectedSums(t: Tools, files: Files, names: seq<string>)
    requires Compatible(names, RESERVED) && AllPresent(files, names + [MANIFEST])
    ensures DistinctNames(SumsOf(t, files, names + [MANIFEST]))
    ensures forall s :: s in SumsOf(t, files, names + [MANIFEST]) <==>
              (s.name in names || s.name == MANIFEST) && s.name in files && s.digest == t.sha256(files[s.name])
  {
    CompatibleIsDistinct(names);
    var all := names + [MANIFEST];
    var sums := SumsOf(t, files, all);
    forall s ensures s in sums <==>
      (s.name in names || s.name == MANIFEST) && s.name in files && s.digest == t.sha256(files[s.name])
    {
      if (s.name in names || s.name == MANIFEST) && s.name in files && s.digest == t.sha256(files[s.name]) {
        assert s.name in all;
        var i :| 0 <= i < |all| && all[i] == s.name;
        assert sums[i] == s;
      }
    }
  }

  lemma {:induction false} ReadKeepsCount(lines: seq<string>)
    ensures ReadLines(lines).Some? ==> |ReadLines(lines).value| == |lines|
  {
    if lines != [] {
      ReadKeepsCount(lines[1..]);
    }
  }

  lemma {:induction false} SumsAgreeExactly(t: Tools, files: Files, names: seq<string>, text: string)
    requires Compatible(names, RESERVED) && AllPresent(files, names + [MANIFEST])
    ensures SumsAgree(text, Dict(SumsOf(t, files, names + [MANIFEST]))) <==>
            && Ascii(text)
            && var read := ReadLines(SplitLines(text));
            && read.Some? && |read.value| == |names| + 1
            && forall s :: s in read.value <==>
                 (s.name in names || s.name == MANIFEST) && s.name in files && s.digest == t.sha256(files[s.name])
  {
    var read := ReadLines(SplitLines(text));
    ReadKeepsCount(SplitLines(text));
    ExpectedSums(t, files, names);
    if read.Some? {
      SumsMatchExactly(read.value, SumsOf(t, files, names + [MANIFEST]));
    }
  }

  /** `extend_release` goes through exactly on self-consistent releases and payloads that fit beside them. */
  lemma ExtendSucceedsExactly(t: Tools, files: Files, cs: seq<Candidate>)
    ensures ExtendError(t, files, cs).None? <==>
              SelfConsistent(t, files) && PayloadsFit(Names(t.loads(files[MANIFEST]).value.artifacts), cs)
  {
    hide RowsError, StageError, SumsAgree, SumsOf, Dict, Folds;
    var m := ManifestOf(t, files);
    if m.Success? {
      var rows := m.value.artifacts;
      var names := Names(rows);
      RowsErrorExactly(t, files, rows, RESERVED);
      if RowsError(t, files, rows, RESERVED).None? {
        assert AllPresent(files, names + [MANIFEST]);
        if SUMS in files {
          SumsAgreeExactly(t, files, names, files[SUMS]);
          StageErrorExactly(cs, Folds(names) + RESERVED);
        }
      }
    }
  }

  // ---- the result of extend_release ----------------------------------------

  lemma ByNameIsAnOrder()
    ensures TotalPreorder(ByName) && Antisymmetric(ByName)
  {
    forall a, b ensures ByName(a, b) || ByName(b, a) {
      StringLessTotal(a, b);
    }
    forall a, b, c | ByName(a, b) && ByName(b, c) ensures ByName(a, c) {
      if a != b && b != c {
        StringLessTransitive(a, b, c);
      }
    }
    forall a, b | ByName(a, b) && ByName(b, a) ensures a == b {
      if a != b {
        StringLessTransitive(a, b, a);
        StringLessTotal(a, a);
      }
    }
  }

  lemma StagedElements(names: seq<string>, cs: seq<Candidate>)
    ensures multiset(StagedNames(names, cs)) == multiset(names + CandidateNames(cs))
    ensures SortedBy(ByName, StagedNames(names, cs))
    ensures forall n :: n in StagedNames(names, cs) <==> n in names || n in CandidateNames(cs)
  {
    ByNameIsAnOrder();
    SortBySorts(ByName, names + CandidateNames(cs));
    SortByElements(ByName, names + CandidateNames(cs));
  }

  lemma {:induction false} CopiedFiles(files: Files, cs: seq<Candidate>)
    ensures Copied(files, cs).Keys == files.Keys + set n | n in CandidateNames(cs)
    ensures forall n :: n in files && n !in CandidateNames(cs) ==> Copied(files, cs)[n] == files[n]
  {
    if cs == [] {
    } else {
      var k := |cs| - 1;
      CopiedFiles(files, cs[..k]);
      assert CandidateNames(cs) == CandidateNames(cs[..k]) + [cs[k].name];
    }
  }

  /** Candidates with different names keep their own contents. */
  lemma {:induction false} CopiedContents(files: Files, cs: seq<Candidate>, i: nat)
    requires i < |cs| && forall a, b :: 0 <= a < b < |cs| ==> cs[a].name != cs[b].name
    ensures cs[i].name in Copied(files, cs) && Copied(files, cs)[cs[i].name] == cs[i].content
  {
    var k := |cs| - 1;
    if i < k {
      CopiedContents(files, cs[..k], i);
      assert cs[..k][i] == cs[i];
    }
  }

  lemma {:induction false} StagedArePresent(files: Files, names: seq<string>, cs: seq<Candidate>)
    requires AllPresent(files, names)
    ensures AllPresent(Copied(files, cs), StagedNames(names, cs))
  {
    CopiedFiles(files, cs);
    StagedElements(names, cs);
    var staged := StagedNames(names, cs);
    forall i | 0 <= i < |staged| ensures staged[i] in Copied(files, cs) {
      assert staged[i] in staged;
    }
  }

  /** The directory a successful extension leaves. */
  function Extended(t: Tools, files: Files, cs: seq<Candidate>): Files
    requires ExtendError(t, files, cs).None?
  {
    var m := ManifestOf(t, files).value;
    var names := Names(m.artifacts);
    assert AllPresent(files, names) by {
      assert AllPresent(files, names + [MANIFEST]);
      assert forall i :: 0 <= i < |names| ==> (names + [MANIFEST])[i] == names[i];
    }
    StagedArePresent(files, names, cs);
    Written(t, Copied(files, cs), m, StagedNames(names, cs))
  }
}
