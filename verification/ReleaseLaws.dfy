/** What extending a release keeps (scripts/build_release.py). */
module ReleaseLaws {
  import opened Wrappers
  import opened Sorting
  import opened ReleaseFiles
  import opened ReleaseDirectory

  // ---- self-consistency ----------------------------------------------------

  /** The directory before its two lists are written: every other file is to be described. */
  ghost predicate Holds(files: Files, names: seq<string>) {
    && Compatible(names, RESERVED) && AllPresent(files, names)
    && files.Keys + {MANIFEST, SUMS} == (set n | n in names) + {MANIFEST, SUMS}
  }

  lemma WrittenFiles(t: Tools, files: Files, m: Manifest, names: seq<string>)
    requires Holds(files, names)
    ensures var w := Written(t, files, m, names);
            && w.Keys == (set n | n in names) + {MANIFEST, SUMS}
            && w[MANIFEST] == t.dumps(Described(t, files, m, names))
            && (forall n :: n in names ==> w[n] == files[n])
            && AllPresent(w, names + [MANIFEST])
            && w[SUMS] == Print(SumsOf(t, w, names + [MANIFEST]))
  {
    ReservedNames();
    CompatibleIsDistinct(names);
    var w := Written(t, files, m, names);
    var described := files[MANIFEST := t.dumps(Described(t, files, m, names))];
    forall n | n in names ensures w[n] == files[n] && n in files {
      assert n != MANIFEST && n != SUMS;
      var i :| 0 <= i < |names| && names[i] == n;
    }
    var all := names + [MANIFEST];
    forall i | 0 <= i < |all| ensures all[i] in w && w[all[i]] == described[all[i]] {
      assert i < |names| ==> all[i] in names;
      assert all[i] != SUMS;
    }
    assert SumsOf(t, w, all) == SumsOf(t, described, all);
  }

  lemma SumsReadBack(t: Tools, files: Files, names: seq<string>)
    requires Sound(t) && Compatible(names, RESERVED) && AllPresent(files, names + [MANIFEST])
    ensures SumsAgree(Print(SumsOf(t, files, names + [MANIFEST])), Dict(SumsOf(t, files, names + [MANIFEST])))
  {
    var sums := SumsOf(t, files, names + [MANIFEST]);
    assert ValidName(MANIFEST);
    assert AllPrintable(sums);
    PrintedSumsReadBack(sums);
    PrintedSumsAreAscii(sums);
    ExpectedSums(t, files, names);
    DictSize(sums);
  }

  /** Writing the two lists makes the directory self-consistent, whatever they held before. */
  lemma WrittenIsConsistent(t: Tools, files: Files, m: Manifest, names: seq<string>)
    requires Sound(t) && m.format == FORMAT && Holds(files, names)
    ensures SelfConsistent(t, Written(t, files, m, names))
    ensures ManifestOf(t, Written(t, files, m, names)) == Success(Described(t, files, m, names))
  {
    var w := Written(t, files, m, names);
    WrittenFiles(t, files, m, names);
    SumsReadBack(t, w, names);
    SumsAgreeExactly(t, w, names, w[SUMS]);
    var rows := Described(t, files, m, names).artifacts;
    assert Names(rows) == names;
    forall i | 0 <= i < |rows| ensures RowHolds(t, w, rows[i]) {
      assert names[i] in names;
    }
  }

  lemma CandidatesFit(names: seq<string>, cs: seq<Candidate>)
    requires Compatible(names, RESERVED) && PayloadsFit(names, cs)
    ensures Compatible(names + CandidateNames(cs), RESERVED)
    ensures Compatible(StagedNames(names, cs), RESERVED)
  {
    assert Folds(names) + RESERVED == RESERVED + Folds(names);
    CompatibleSplits(names, CandidateNames(cs), RESERVED);
    StagedElements(names, cs);
    CompatibleOfPermutation(names + CandidateNames(cs), StagedNames(names, cs), RESERVED);
  }

  /** The names the manifest lists. */
  function Listed(t: Tools, files: Files): seq<string>
    requires ManifestOf(t, files).Success?
  {
    Names(ManifestOf(t, files).value.artifacts)
  }

  lemma {:induction false} StagedKeys(files: Files, names: seq<string>, cs: seq<Candidate>)
    requires files.Keys == (set n | n in names) + {MANIFEST, SUMS}
    ensures Copied(files, cs).Keys + {MANIFEST, SUMS} == (set n | n in StagedNames(names, cs)) + {MANIFEST, SUMS}
    ensures AllPresent(Copied(files, cs), StagedNames(names, cs))
  {
    CopiedFiles(files, cs);
    StagedElements(names, cs);
    assert AllPresent(files, names);
    StagedArePresent(files, names, cs);
  }

  lemma {:induction false} StagedHolds(t: Tools, files: Files, cs: seq<Candidate>)
    requires ExtendError(t, files, cs).None?
    ensures Compatible(Listed(t, files), RESERVED) && PayloadsFit(Listed(t, files), cs)
    ensures Holds(Copied(files, cs), StagedNames(Listed(t, files), cs))
    ensures files.Keys == (set n | n in Listed(t, files)) + {MANIFEST, SUMS}
  {
    ExtendSucceedsExactly(t, files, cs);
    CandidatesFit(Listed(t, files), cs);
    StagedKeys(files, Listed(t, files), cs);
  }

  /** Extending a self-consistent release with payloads that fit gives a self-consistent release. */
  lemma ExtendKeepsConsistency(t: Tools, files: Files, cs: seq<Candidate>)
    requires Sound(t) && ExtendError(t, files, cs).None?
    ensures SelfConsistent(t, Extended(t, files, cs))
  {
    var m := ManifestOf(t, files).value;
    StagedHolds(t, files, cs);
    WrittenIsConsistent(t, Copied(files, cs), m, StagedNames(Listed(t, files), cs));
  }

  lemma WhatIsListed(t: Tools, files: Files, cs: seq<Candidate>)
    requires Sound(t) && ExtendError(t, files, cs).None?
    ensures ManifestOf(t, Extended(t, files, cs)).Success?
    ensures Listed(t, Extended(t, files, cs)) == StagedNames(Listed(t, files), cs)
  {
    var m, staged := ManifestOf(t, files).value, StagedNames(Listed(t, files), cs);
    StagedHolds(t, files, cs);
    WrittenIsConsistent(t, Copied(files, cs), m, staged);
    assert Names(Described(t, Copied(files, cs), m, staged).artifacts) == staged;
  }

  /** The new manifest lists the old artifacts and the candidates and nothing else, sorted, and keeps its other keys. */
  lemma ExtendListsExactly(t: Tools, files: Files, cs: seq<Candidate>)
    requires Sound(t) && ExtendError(t, files, cs).None?
    ensures ManifestOf(t, Extended(t, files, cs)).Success?
    ensures SortedBy(ByName, Listed(t, Extended(t, files, cs)))
    ensures multiset(Listed(t, Extended(t, files, cs))) == multiset(Listed(t, files) + CandidateNames(cs))
    ensures ManifestOf(t, Extended(t, files, cs)).value.rest == ManifestOf(t, files).value.rest
  {
    WhatIsListed(t, files, cs);
    StagedElements(Listed(t, files), cs);
    StagedHolds(t, files, cs);
    WrittenIsConsistent(t, Copied(files, cs), ManifestOf(t, files).value, StagedNames(Listed(t, files), cs));
  }

  /** The original artifacts keep their bytes, each candidate is stored with its own, and no other file appears. */
  lemma ExtendKeepsBytes(t: Tools, files: Files, cs: seq<Candidate>)
    requires Sound(t) && ExtendError(t, files, cs).None?
    ensures var after := Extended(t, files, cs);
            && (forall n :: n in Listed(t, files) ==> n in files && n in after && after[n] == files[n])
            && (forall i :: 0 <= i < |cs| ==> cs[i].name in after && after[cs[i].name] == cs[i].content)
            && after.Keys == files.Keys + set n | n in CandidateNames(cs)
  {
    var after, names := Extended(t, files, cs), Listed(t, files);
    var staged := StagedNames(names, cs);
    StagedHolds(t, files, cs);
    WrittenFiles(t, Copied(files, cs), ManifestOf(t, files).value, staged);
    StagedElements(names, cs);
    CopiedFiles(files, cs);
    CandidatesAreApart(names, cs);
    forall n | n in names ensures n in files && n in after && after[n] == files[n] {
      assert n in staged && n !in CandidateNames(cs);
    }
    forall i | 0 <= i < |cs| ensures cs[i].name in after && after[cs[i].name] == cs[i].content {
      assert CandidateNames(cs)[i] in CandidateNames(cs);
      CopiedContents(files, cs, i);
    }
  }

  lemma CandidatesAreApart(names: seq<string>, cs: seq<Candidate>)
    requires Compatible(names, RESERVED) && PayloadsFit(names, cs)
    ensures forall a, b :: 0 <= a < b < |cs| ==> cs[a].name != cs[b].name
    ensures forall n :: n in names ==> n !in CandidateNames(cs)
    ensures MANIFEST !in CandidateNames(cs) && SUMS !in CandidateNames(cs)
  {
    ReservedNames();
    var added := CandidateNames(cs);
    forall a, b | 0 <= a < b < |cs| ensures cs[a].name != cs[b].name {
      assert Fold(added[a]) != Fold(added[b]);
    }
    forall n | n in names ensures n !in added {
      FoldOfMember(names, n);
      assert forall i :: 0 <= i < |added| ==> Fold(added[i]) != Fold(n);
    }
  }

  lemma FoldOfMember(names: seq<string>, n: string)
    ensures n in names ==> Fold(n) in Folds(names)
  {
  }

  // ---- extending by nothing -------------------------------------------------

  /**
    What a caller can see in the directory: the manifest's text is the one the script prints, its rows are
    sorted and carry no other key, and SHA256SUMS lists them in that order with the manifest last.
   */
  ghost predicate Canonical(t: Tools, files: Files) {
    && MANIFEST in files && SUMS in files
    && var m := t.loads(files[MANIFEST]);
    && m.Some?
    && var names := Names(m.value.artifacts);
    && files[MANIFEST] == t.dumps(m.value)
    && SortedBy(ByName, names)
    && (forall i :: 0 <= i < |names| ==> m.value.artifacts[i].extra == map[])
    && AllPresent(files, names + [MANIFEST])
    && files[SUMS] == Print(SumsOf(t, files, names + [MANIFEST]))
  }

  /** Sorting a sorted list of names changes nothing. */
  lemma SortedStays(names: seq<string>)
    ensures StagedNames(names, []) == names <==> SortedBy(ByName, names)
  {
    StagedElements(names, []);
    ByNameIsAnOrder();
    assert names + CandidateNames([]) == names;
    if SortedBy(ByName, names) {
      SortedIsUnique(ByName, names, StagedNames(names, []));
    }
  }

  lemma RowsAreTheirOwn(t: Tools, files: Files, rows: seq<Row>)
    requires AllPresent(files, Names(rows)) && forall i :: 0 <= i < |rows| ==> RowHolds(t, files, rows[i])
    ensures RowsOf(t, files, Names(rows)) == rows <==> forall i :: 0 <= i < |rows| ==> rows[i].extra == map[]
  {
    var own := RowsOf(t, files, Names(rows));
    assert forall i :: 0 <= i < |rows| ==> own[i] == rows[i].(extra := map[]);
    if own == rows {
      assert forall i :: 0 <= i < |rows| ==> rows[i] == own[i];
    }
  }

  lemma ExtendedByNothing(t: Tools, files: Files)
    requires Sound(t) && SelfConsistent(t, files)
    ensures ExtendError(t, files, []).None?
    ensures Holds(files, StagedNames(Listed(t, files), []))
    ensures Extended(t, files, []) == Written(t, files, ManifestOf(t, files).value, StagedNames(Listed(t, files), []))
  {
    ExtendSucceedsExactly(t, files, []);
    StagedHolds(t, files, []);
  }

  lemma UnchangedIsCanonical(t: Tools, files: Files)
    requires Sound(t) && SelfConsistent(t, files) && ExtendError(t, files, []).None?
    requires Extended(t, files, []) == files
    ensures Canonical(t, files)
  {
    var m := ManifestOf(t, files).value;
    var staged := StagedNames(Listed(t, files), []);
    ExtendedByNothing(t, files);
    WrittenIsConsistent(t, files, m, staged);
    WrittenFiles(t, files, m, staged);
    assert Names(Described(t, files, m, staged).artifacts) == staged;
    StagedElements(Listed(t, files), []);
  }

  lemma WritesTheSame(t: Tools, files: Files, m: Manifest, names: seq<string>)
    requires MANIFEST in files && SUMS in files && AllPresent(files, names) && AllPresent(files, names + [MANIFEST])
    requires RowsOf(t, files, names) == m.artifacts && files[MANIFEST] == t.dumps(m)
    requires files[SUMS] == Print(SumsOf(t, files, names + [MANIFEST]))
    ensures Written(t, files, m, names) == files
  {
    assert Described(t, files, m, names) == m;
    assert files[MANIFEST := t.dumps(m)] == files;
    assert files[SUMS := files[SUMS]] == files;
  }

  lemma CanonicalIsUnchanged(t: Tools, files: Files)
    requires Sound(t) && SelfConsistent(t, files) && ExtendError(t, files, []).None?
    requires Canonical(t, files)
    ensures Extended(t, files, []) == files
  {
    var m, names := ManifestOf(t, files).value, Listed(t, files);
    SortedStays(names);
    RowsAreTheirOwn(t, files, m.artifacts);
    WritesTheSame(t, files, m, names);
    ExtendedByNothing(t, files);
  }

  /** Extending a self-consistent release by nothing leaves every file as it is exactly when it is canonical. */
  lemma ExtendByNothing(t: Tools, files: Files)
    requires Sound(t) && SelfConsistent(t, files)
    ensures ExtendError(t, files, []).None?
    ensures Extended(t, files, []) == files <==> Canonical(t, files)
  {
    ExtendedByNothing(t, files);
    if Canonical(t, files) {
      CanonicalIsUnchanged(t, files);
    }
    if Extended(t, files, []) == files {
      UnchangedIsCanonical(t, files);
    }
  }

  const UNSORTED_NAMES := ["b", "a"]

  /** A release whose manifest and SHA256SUMS list two artifacts in descending order. */
  function UnsortedRelease(t: Tools): Files {
    Written(t, map["a" := "", "b" := ""], Manifest(FORMAT, [], map[]), UNSORTED_NAMES)
  }

  lemma UnsortedNames()
    ensures Holds(map["a" := "", "b" := ""], UNSORTED_NAMES)
    ensures !SortedBy(ByName, UNSORTED_NAMES)
  {
    var files := map["a" := "", "b" := ""];
    assert Fold("a") == "a" && Fold("b") == "b";
    assert files.Keys == {"a", "b"} == set n | n in UNSORTED_NAMES;
    assert !ByName(UNSORTED_NAMES[0], UNSORTED_NAMES[1]);
  }

  /** The call is no no-op on every consistent release: this one it rewrites in the other order. */
  lemma UnsortedReleaseChanges(t: Tools)
    requires Sound(t)
    ensures SelfConsistent(t, UnsortedRelease(t))
    ensures ExtendError(t, UnsortedRelease(t), []).None? && Extended(t, UnsortedRelease(t), []) != UnsortedRelease(t)
  {
    var files, m := map["a" := "", "b" := ""], Manifest(FORMAT, [], map[]);
    UnsortedNames();
    WrittenIsConsistent(t, files, m, UNSORTED_NAMES);
    assert Names(Described(t, files, m, UNSORTED_NAMES).artifacts) == UNSORTED_NAMES;
    ExtendByNothing(t, UnsortedRelease(t));
  }

  /** What `write_manifest` leaves after `stage_payloads`, in a build or an extension, is canonical. */
  lemma StagedIsCanonical(t: Tools, files: Files, m: Manifest, names: seq<string>)
    requires Sound(t) && m.format == FORMAT && Holds(files, names) && SortedBy(ByName, names)
    ensures Canonical(t, Written(t, files, m, names))
  {
    WrittenIsConsistent(t, files, m, names);
    WrittenFiles(t, files, m, names);
    assert Names(Described(t, files, m, names).artifacts) == names;
  }

  /** A release that was extended once is left alone by extending it by nothing. */
  lemma ExtendedIsStable(t: Tools, files: Files, cs: seq<Candidate>)
    requires Sound(t) && ExtendError(t, files, cs).None?
    ensures ExtendError(t, Extended(t, files, cs), []).None?
    ensures Extended(t, Extended(t, files, cs), []) == Extended(t, files, cs)
  {
    var m := ManifestOf(t, files).value;
    ExtendKeepsConsistency(t, files, cs);
    StagedHolds(t, files, cs);
    StagedElements(Listed(t, files), cs);
    StagedIsCanonical(t, Copied(files, cs), m, StagedNames(Listed(t, files), cs));
    ExtendByNothing(t, Extended(t, files, cs));
  }

  // ---- extending in turn -----------------------------------------------------

  lemma {:induction false} CopiedInTurn(files: Files, a: seq<Candidate>, b: seq<Candidate>)
    ensures Copied(files, a + b) == Copied(Copied(files, a), b)
    decreases |b|
  {
    if b == [] {
      assert a + b == a;
    } else {
      var k := |b| - 1;
      CopiedInTurn(files, a, b[..k]);
      assert (a + b)[..|a| + k] == a + b[..k];
    }
  }

  lemma NamesInTurn(names: seq<string>, a: seq<Candidate>, b: seq<Candidate>)
    ensures StagedNames(StagedNames(names, a), b) == StagedNames(names, a + b)
  {
    hide StagedNames, ByName;
    StagedElements(names, a);
    StagedElements(StagedNames(names, a), b);
    StagedElements(names, a + b);
    assert CandidateNames(a + b) == CandidateNames(a) + CandidateNames(b);
    assert names + CandidateNames(a + b) == (names + CandidateNames(a)) + CandidateNames(b);
    ByNameIsAnOrder();
    SortedIsUnique(ByName, StagedNames(StagedNames(names, a), b), StagedNames(names, a + b));
  }

  lemma PayloadsFitInTurn(names: seq<string>, a: seq<Candidate>, b: seq<Candidate>)
    requires PayloadsFit(names, a)
    ensures PayloadsFit(names, a + b) <==> PayloadsFit(StagedNames(names, a), b)
  {
    assert CandidateNames(a + b) == CandidateNames(a) + CandidateNames(b);
    CompatibleSplits(CandidateNames(a), CandidateNames(b), Folds(names) + RESERVED);
    StagedElements(names, a);
    FoldsOfStaged(names, a);
    assert Folds(StagedNames(names, a)) + RESERVED == Folds(names) + RESERVED + Folds(CandidateNames(a));
    assert forall i :: 0 <= i < |a| ==> (a + b)[i] == a[i];
    assert forall i :: 0 <= i < |b| ==> (a + b)[|a| + i] == b[i];
  }

  lemma FoldsOfStaged(names: seq<string>, a: seq<Candidate>)
    ensures Folds(StagedNames(names, a)) == Folds(names) + Folds(CandidateNames(a))
  {
    var staged, added := StagedNames(names, a), CandidateNames(a);
    StagedElements(names, a);
    forall f ensures f in Folds(staged) <==> f in Folds(names) || f in Folds(added) {
      if f in Folds(staged) {
        var i :| 0 <= i < |staged| && Fold(staged[i]) == f;
        assert staged[i] in staged;
        FoldOfMember(names, staged[i]);
        FoldOfMember(added, staged[i]);
      }
      if f in Folds(names) {
        var i :| 0 <= i < |names| && Fold(names[i]) == f;
        assert names[i] in names;
        FoldOfMember(staged, names[i]);
      }
      if f in Folds(added) {
        var i :| 0 <= i < |added| && Fold(added[i]) == f;
        assert added[i] in added;
        FoldOfMember(staged, added[i]);
      }
    }
  }

  lemma {:induction false} RowsSurviveWriting(t: Tools, files: Files, m: Manifest, names: seq<string>,
                                              more: seq<Candidate>, all: seq<string>)
    requires Holds(files, names) && Holds(Copied(files, more), all)
    requires forall i :: 0 <= i < |more| ==> more[i].name != MANIFEST && more[i].name != SUMS
    ensures AllPresent(Copied(Written(t, files, m, names), more), all)
    ensures forall n :: n in all ==>
              n in Copied(files, more) && Copied(Written(t, files, m, names), more)[n] == Copied(files, more)[n]
  {
    CompatibleIsDistinct(all);
    CopiedOverWritten(files, t.dumps(Described(t, files, m, names)), Written(t, files, m, names)[SUMS], more);
  }

  lemma {:induction false} CopiedOverWritten(files: Files, manifest: string, sums: string, cs: seq<Candidate>)
    requires forall i :: 0 <= i < |cs| ==> cs[i].name != MANIFEST && cs[i].name != SUMS
    ensures Copied(files[MANIFEST := manifest][SUMS := sums], cs) == Copied(files, cs)[MANIFEST := manifest][SUMS := sums]
  {
    if cs != [] {
      CopiedOverWritten(files, manifest, sums, cs[..|cs| - 1]);
      assert cs[|cs| - 1].name != MANIFEST && cs[|cs| - 1].name != SUMS;
    }
  }

  /**
    Once `a` is accepted, extending by `b` next and extending by both at once are accepted together, and leave
    the same directory.
   */
  lemma ExtendInTurn(t: Tools, files: Files, a: seq<Candidate>, b: seq<Candidate>)
    requires Sound(t) && ExtendError(t, files, a).None?
    ensures ExtendError(t, Extended(t, files, a), b).None? <==> ExtendError(t, files, a + b).None?
    ensures ExtendError(t, files, a + b).None? ==> Extended(t, Extended(t, files, a), b) == Extended(t, files, a + b)
  {
    hide RowsError, StageError, SumsAgree, Holds, Compatible, PayloadsFit, Copied, StagedNames, Written;
    var m, middle := ManifestOf(t, files).value, Extended(t, files, a);
    var names := Listed(t, files);
    var staged := StagedNames(names, a);
    StagedHolds(t, files, a);
    WrittenIsConsistent(t, Copied(files, a), m, staged);
    assert Names(Described(t, Copied(files, a), m, staged).artifacts) == staged;
    ExtendSucceedsExactly(t, files, a);
    ExtendSucceedsExactly(t, middle, b);
    ExtendSucceedsExactly(t, files, a + b);
    PayloadsFitInTurn(names, a, b);
    if ExtendError(t, files, a + b).None? {
      InTurnTheSame(t, files, a, b);
    }
  }

  lemma InTurnTheSame(t: Tools, files: Files, a: seq<Candidate>, b: seq<Candidate>)
    requires Sound(t) && ExtendError(t, files, a).None? && ExtendError(t, files, a + b).None?
    requires ExtendError(t, Extended(t, files, a), b).None?
    ensures Extended(t, Extended(t, files, a), b) == Extended(t, files, a + b)
  {
    hide RowsError, StageError, SumsAgree, SumsOf, Holds, Compatible, PayloadsFit, Copied, StagedNames, SelfConsistent, Written, Folds;
    var m, middle := ManifestOf(t, files).value, Extended(t, files, a);
    var names := Listed(t, files);
    var staged, all := StagedNames(names, a), StagedNames(names, a + b);
    var once, twice := Copied(files, a), Copied(files, a + b);
    StagedHolds(t, files, a);
    StagedHolds(t, files, a + b);
    WrittenIsConsistent(t, once, m, staged);
    WhatIsListed(t, files, a);
    var described := Described(t, once, m, staged);
    NamesInTurn(names, a, b);
    CopiedInTurn(files, a, b);
    StagedHolds(t, middle, b);
    CandidatesAreApart(staged, b);
    assert forall i :: 0 <= i < |b| ==> CandidateNames(b)[i] == b[i].name;
    RowsSurviveWriting(t, once, m, staged, b, all);
    SameWritten(t, Copied(middle, b), twice, described, m, all);
  }

  lemma SameSums(t: Tools, v: Files, w: Files, names: seq<string>)
    requires AllPresent(v, names) && AllPresent(w, names)
    requires forall i :: 0 <= i < |names| ==> v[names[i]] == w[names[i]]
    ensures SumsOf(t, v, names) == SumsOf(t, w, names)
    ensures RowsOf(t, v, names) == RowsOf(t, w, names)
  {
  }

  lemma SameWritten(t: Tools, f: Files, g: Files, m: Manifest, n: Manifest, names: seq<string>)
    requires Holds(f, names) && Holds(g, names)
    requires forall x :: x in names ==> f[x] == g[x]
    requires m.format == n.format && m.rest == n.rest
    ensures Written(t, f, m, names) == Written(t, g, n, names)
  {
    WrittenFiles(t, f, m, names);
    WrittenFiles(t, g, n, names);
    var v, w := Written(t, f, m, names), Written(t, g, n, names);
    SameSums(t, f, g, names);
    assert v[MANIFEST] == w[MANIFEST];
    var all := names + [MANIFEST];
    forall i | 0 <= i < |all| ensures v[all[i]] == w[all[i]] {
      assert i < |names| ==> all[i] in names;
    }
    SameSums(t, v, w, all);
    SameFiles(v, w, names);
  }

  lemma SameFiles(v: Files, w: Files, names: seq<string>)
    requires v.Keys == w.Keys == (set n | n in names) + {MANIFEST, SUMS}
    requires v[MANIFEST] == w[MANIFEST] && v[SUMS] == w[SUMS]
    requires forall x :: x in names ==> v[x] == w[x]
    ensures v == w
  {
    assert forall x :: x in v ==> x in names || x == MANIFEST || x == SUMS;
  }
}
