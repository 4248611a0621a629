/** The release directory as the object that `extend_release` changes (scripts/build_release.py). */
module ReleaseProgram {
  import opened Wrappers
  import opened Sorting
  import opened ReleaseFiles
  import opened ReleaseDirectory

  class Release {
    const t: Tools
    var files: Files

    constructor (t: Tools, files: Files)
      ensures this.t == t && this.files == files
    {
      this.t, this.files := t, files;
    }

    /** Checks every candidate before copying any; `artifacts` comes back extended and sorted. */
    method StagePayloads(artifacts: seq<string>, candidates: seq<Candidate>) returns (error: Option<Error>,
                         staged: seq<string>)
      modifies this`files
      ensures error == StageError(candidates, Folds(artifacts) + RESERVED)
      ensures error.Some? ==> files == old(files)
      ensures error.None? ==> files == Copied(old(files), candidates) && staged == StagedNames(artifacts, candidates)
    {
      var reserved := Folds(artifacts) + RESERVED;
      error, staged := None, artifacts;
      for k := 0 to |candidates|
        invariant files == old(files) && staged == artifacts
        invariant StageError(candidates, Folds(artifacts) + RESERVED) == StageError(candidates[k..], reserved)
      {
        var candidate := candidates[k];
        assert candidates[k..][0] == candidate && candidates[k..][1..] == candidates[k + 1..];
        if !Admissible(candidate, reserved) {
          error := Some(InvalidPayload(candidate.name));
          return;
        }
        reserved := reserved + {Fold(candidate.name)};
      }
      for k := 0 to |candidates|
        invariant files == Copied(old(files), candidates[..k])
        invariant staged == artifacts + CandidateNames(candidates[..k])
      {
        var candidate := candidates[k];
        assert candidates[..k + 1][..k] == candidates[..k];
        assert CandidateNames(candidates[..k + 1]) == CandidateNames(candidates[..k]) + [candidate.name];
        files := files[candidate.name := candidate.content];
        staged := staged + [candidate.name];
      }
      assert candidates[..|candidates|] == candidates;
      staged := SortBy(ByName, staged);
    }

    method WriteManifest(manifest: Manifest, artifacts: seq<string>) returns (described: Manifest)
      requires AllPresent(files, artifacts)
      modifies this`files
      ensures described == Described(t, old(files), manifest, artifacts)
      ensures files == Written(t, old(files), manifest, artifacts)
    {
      described := manifest.(artifacts := RowsOf(t, files, artifacts));
      files := files[MANIFEST := t.dumps(described)];
      var checksummed := artifacts + [MANIFEST];
      files := files[SUMS := Print(SumsOf(t, files, checksummed))];
    }

    method CheckRows(rows: seq<Row>) returns (error: Option<Error>, artifacts: seq<string>)
      ensures error == RowsError(t, files, rows, RESERVED)
      ensures error.None? ==> artifacts == Names(rows) && AllPresent(files, artifacts)
    {
      var names := RESERVED;
      error, artifacts := None, [];
      for k := 0 to |rows|
        invariant error.None? && artifacts == Names(rows[..k]) && AllPresent(files, artifacts)
        invariant RowsError(t, files, rows, RESERVED) == RowsError(t, files, rows[k..], names)
      {
        var row := rows[k];
        assert rows[k..][0] == row && rows[k..][1..] == rows[k + 1..];
        error := RowError(t, files, row, names);
        if error.Some? {
          return;
        }
        names := names + {Fold(row.name)};
        artifacts := artifacts + [row.name];
      }
      assert rows[..|rows|] == rows;
    }

    method Extend(candidates: seq<Candidate>) returns (r: Result<Manifest, Error>)
      modifies this`files
      ensures r.Success? <==> ExtendError(t, old(files), candidates).None?
      ensures r.Failure? ==> ExtendError(t, old(files), candidates) == Some(r.error) && files == old(files)
      ensures r.Success? ==> files == Extended(t, old(files), candidates) && ManifestOf(t, old(files)).Success?
      ensures r.Success? ==> MANIFEST in files && files[MANIFEST] == t.dumps(r.value)
    {
      var read := ManifestOf(t, files);
      if read.Failure? {
        return Failure(read.error);
      }
      var manifest := read.value;
      var error, artifacts := CheckRows(manifest.artifacts);
      if error.Some? {
        return Failure(error.value);
      }
      if SUMS !in files {
        return Failure(MissingFile(SUMS));
      }
      var expected := Dict(SumsOf(t, files, artifacts + [MANIFEST]));
      if !SumsAgree(files[SUMS], expected) {
        return Failure(WrongSums);
      }
      if files.Keys != (set n | n in artifacts) + {MANIFEST, SUMS} {
        return Failure(Unlisted);
      }
      var staged;
      error, staged := StagePayloads(artifacts, candidates);
      if error.Some? {
        return Failure(error.value);
      }
      StagedArePresent(old(files), artifacts, candidates);
      ReservedNames();
      manifest := WriteManifest(manifest, staged);
      return Success(manifest);
    }
  }
}
