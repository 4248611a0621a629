/**
  Which interrupted tools publications can be run again.

  The mirror writes the archives before the manifest, so a directory can hold archives that nothing names.
 */
module PublicationRecovery {
  import opened Publication
  import opened PublicationRuns
  import opened PublicationSafety

  function HomeOf(w: World, pub: ToolsPublication): Directory {
    DirectoryOf(w, Tools, pub.release.manifest)
  }

  predicate ToolsAdmitted(w: World, pub: ToolsPublication, s: Store) {
    && pub.exactPush && SoundRelease(w, Tools, pub.release) && pub.githubMatches
    && CollisionFree(w, s, Tools, Identity(pub.release))
  }

  predicate InDirectory(key: Key, d: Directory) {
    key.Object? && key.scope == Tools && key.directory == d
  }

  ghost predicate Untouched(s: Store, d: Directory) {
    forall key :: key in s ==> !InDirectory(key, d)
  }

  predicate HasManifest(s: Store, d: Directory) {
    Object(Tools, d, ManifestName(Tools)) in s
  }

  /** The directory holds something, but no manifest. */
  ghost predicate Stuck(s: Store, d: Directory) {
    !Untouched(s, d) && !HasManifest(s, d)
  }

  // ---- a manifest cannot list itself ----------------------------------------

  lemma ManifestIsNotListed(c: Content, row: Row)
    requires row in ArtifactsOf(c)
    ensures row.sha256 != Sha256(c)
  {
    assert row.sha256.of < row.sha256 < row < c;
  }

  lemma NoArtifactIsTheManifest(w: World, r: Release)
    requires SoundRelease(w, Tools, r)
    ensures ManifestName(Tools) !in Names(ArtifactsOf(r.manifest))
  {
    var rows := ArtifactsOf(r.manifest);
    forall i | 0 <= i < |rows| ensures rows[i].name != ManifestName(Tools) {
      assert rows[i] in rows;
      ManifestIsNotListed(r.manifest, rows[i]);
    }
  }

  // ---- stuck directories ----------------------------------------------------

  lemma AdmittedIsNamed(w: World, pub: ToolsPublication, s: Store)
    requires ToolsAdmitted(w, pub, s) && !Untouched(s, HomeOf(w, pub))
    ensures HasManifest(s, HomeOf(w, pub))
  {
    DirectoryHasShort(w, Tools, pub.release.manifest);
    var key :| key in s && InDirectory(key, HomeOf(w, pub));
    assert Identified(s, Tools, key.directory, Identity(pub.release));
  }

  /** The check refuses every publication whose directory is stuck. */
  lemma StuckIsRefused(w: World, pub: ToolsPublication, s: Store, budget: nat)
    requires Stuck(s, HomeOf(w, pub))
    ensures PublishTools(w, pub, s, budget) == Outcome(s, Refused)
  {
    if ToolsAdmitted(w, pub, s) {
      AdmittedIsNamed(w, pub, s);
      assert false;
    }
  }

  /** The two stores agree on the objects of one tools directory. */
  ghost predicate SameDirectory(s: Store, t: Store, d: Directory) {
    forall key :: InDirectory(key, d) ==> (key in s <==> key in t)
  }

  lemma SameDirectorySameFate(s: Store, t: Store, d: Directory)
    requires SameDirectory(s, t, d) && Stuck(s, d)
    ensures Stuck(t, d)
  {
    var key :| key in s && InDirectory(key, d);
    assert key in t;
    assert InDirectory(Object(Tools, d, ManifestName(Tools)), d);
  }

  lemma FinishToolsKeepsObjects(w: World, pub: ToolsPublication, uploaded: Progress, d: Directory)
    ensures SameDirectory(uploaded.store, FinishTools(w, pub, uploaded), d)
  {
  }

  lemma FinishKeepsTools(w: World, pub: EnginePublication, uploaded: Progress, d: Directory)
    ensures SameDirectory(uploaded.store, Finish(w, pub, uploaded), d)
  {
  }

  lemma EngineLeavesDirectories(w: World, pub: EnginePublication, s: Store, budget: nat, d: Directory)
    ensures SameDirectory(s, PublishEngine(w, pub, s, budget).store, d)
  {
    if Admitted(w, pub, s) {
      var home, rows := DirectoryOf(w, Engine, pub.release.manifest), EngineRows(w, pub);
      var uploaded := UploadMissing(Progress(s, budget, false), Engine, home, pub.release, rows);
      var j := UploadFills(Progress(s, budget, false), Engine, home, pub.release, rows);
      assert SameDirectory(s, uploaded.store, d);
      FinishIsRun(w, pub, s, budget);
      FinishKeepsTools(w, pub, uploaded, d);
    }
  }

  lemma ToolsLeaveOtherDirectories(w: World, pub: ToolsPublication, s: Store, budget: nat, d: Directory)
    requires d != HomeOf(w, pub)
    ensures SameDirectory(s, PublishTools(w, pub, s, budget).store, d)
  {
    if ToolsAdmitted(w, pub, s) {
      var uploaded := UploadAll(Progress(s, budget, false), Tools, HomeOf(w, pub), pub.release, ToolsNames(pub));
      UploadMirrors(Progress(s, budget, false), HomeOf(w, pub), pub.release, ToolsNames(pub));
      assert SameDirectory(s, uploaded.store, d);
      FinishToolsIsRun(w, pub, s, budget);
      FinishToolsKeepsObjects(w, pub, uploaded, d);
    }
  }

  /** No run of either publisher frees a stuck directory. */
  lemma RunKeepsStuck(w: World, s: Store, run: Run, d: Directory)
    requires Stuck(s, d)
    ensures Stuck(Perform(w, s, run), d)
  {
    match run {
      case EngineRun(pub, budget) =>
        EngineLeavesDirectories(w, pub, s, budget, d);
        SameDirectorySameFate(s, Perform(w, s, run), d);
      case ToolsRun(pub, budget) =>
        if d == HomeOf(w, pub) {
          StuckIsRefused(w, pub, s, budget);
        } else {
          ToolsLeaveOtherDirectories(w, pub, s, budget, d);
          SameDirectorySameFate(s, Perform(w, s, run), d);
        }
    }
  }

  lemma {:induction false} HistoryKeepsStuck(w: World, s: Store, runs: seq<Run>, d: Directory)
    requires Stuck(s, d)
    ensures Stuck(History(w, s, runs), d)
  {
    if runs != [] {
      HistoryKeepsStuck(w, s, runs[..|runs| - 1], d);
      RunKeepsStuck(w, History(w, s, runs[..|runs| - 1]), runs[|runs| - 1], d);
    }
  }

  // ---- where a run stopped --------------------------------------------------

  function EnoughForTools(pub: ToolsPublication): nat {
    |ToolsNames(pub)| + 2
  }

  /** The run wrote archives into a new directory, and no manifest. */
  ghost predicate StopsUnnamed(w: World, pub: ToolsPublication, s: Store, cut: nat) {
    Untouched(s, HomeOf(w, pub)) && 0 < cut <= |ArtifactsOf(pub.release.manifest)|
  }

  lemma NamesUpTo(w: World, pub: ToolsPublication, j: nat)
    requires SoundRelease(w, Tools, pub.release) && j <= |ToolsNames(pub)|
    ensures ManifestName(Tools) in ToolsNames(pub)[..j] <==> j > |ArtifactsOf(pub.release.manifest)|
  {
    NoArtifactIsTheManifest(w, pub.release);
    var names, artifacts := ToolsNames(pub), Names(ArtifactsOf(pub.release.manifest));
    if j <= |artifacts| {
      assert names[..j] == artifacts[..j];
    } else {
      assert names[..j][|artifacts|] == ManifestName(Tools);
    }
  }

  lemma MirrorIsStuckExactly(w: World, pub: ToolsPublication, s: Store, t: Store, j: nat)
    requires ToolsAdmitted(w, pub, s) && j <= |ToolsNames(pub)|
    requires IsMirrored(s, t, HomeOf(w, pub), pub.release, ToolsNames(pub)[..j])
    ensures Stuck(t, HomeOf(w, pub)) <==> StopsUnnamed(w, pub, s, j)
  {
    var d, names := HomeOf(w, pub), ToolsNames(pub)[..j];
    NamesUpTo(w, pub, j);
    if !Untouched(s, d) {
      AdmittedIsNamed(w, pub, s);
      assert HasManifest(t, d);
    } else if j > 0 {
      var key := Object(Tools, d, names[0]);
      assert key in t && InDirectory(key, d);
    } else {
      assert names == [];
    }
  }

  /** A directory that is not stuck passes the check again. */
  lemma MirrorIsRecognised(w: World, pub: ToolsPublication, s: Store, t: Store, names: seq<string>)
    requires ToolsAdmitted(w, pub, s) && IsMirrored(s, t, HomeOf(w, pub), pub.release, names)
    requires !Stuck(t, HomeOf(w, pub))
    ensures ToolsAdmitted(w, pub, t)
  {
    var d, identity := HomeOf(w, pub), Identity(pub.release);
    DirectoryHasShort(w, Tools, pub.release.manifest);
    forall key | key in t && IsManifestKey(Tools, key)
      ensures ValidManifest(w, Tools, t[key]) && key.directory == DirectoryOf(w, Tools, t[key])
    {
      if InDirectory(key, d) && key.name in names {
        assert t[key] == pub.release.manifest;
      } else {
        assert key in s && t[key] == s[key];
      }
    }
    forall key | key in t && key.Object? && key.scope == Tools && Short(w, key.directory) == w.hash8(identity)
      ensures Identified(t, Tools, key.directory, identity)
    {
      if key in s {
        assert Identified(s, Tools, key.directory, identity);
      } else {
        assert InDirectory(key, d) && HasManifest(t, d);
        var manifest := Object(Tools, d, ManifestName(Tools));
        if manifest in s {
          assert Identified(s, Tools, d, identity);
        }
      }
    }
  }

  // ---- running again --------------------------------------------------------

  /** Everything after the uploads, when no further write fails. */
  function CompleteTools(w: World, pub: ToolsPublication, s: Store): Outcome {
    if !InventoryOk(w, s, Tools) then Outcome(s, Refused)
    else
      var indexed := s[IndexKey(Tools) := IndexOf(w, s, Tools)];
      match DecideTools(w, pub, indexed)
      case End(status) => Outcome(indexed, status)
      case Write(channel) => Outcome(indexed[ChannelKey(Main) := Document(channel)], Published)
  }

  /** A run with enough writes mirrors every file and completes. */
  lemma UninterruptedMirror(w: World, pub: ToolsPublication, s: Store, budget: nat) returns (mirrored: Store)
    requires budget >= EnoughForTools(pub) && ToolsAdmitted(w, pub, s)
    ensures IsMirrored(s, mirrored, HomeOf(w, pub), pub.release, ToolsNames(pub))
    ensures PublishTools(w, pub, s, budget) == CompleteTools(w, pub, mirrored)
  {
    var names := ToolsNames(pub);
    UploadMirrors(Progress(s, budget, false), HomeOf(w, pub), pub.release, names);
    UploadStops(Progress(s, budget, false), HomeOf(w, pub), pub.release, names);
    assert names[..|names|] == names;
    mirrored := UploadAll(Progress(s, budget, false), Tools, HomeOf(w, pub), pub.release, names).store;
  }

  /** What a run that died left behind: files up to some point, and perhaps the new index. */
  lemma MirrorDiedWhere(w: World, pub: ToolsPublication, s: Store, cut: nat) returns (partial: Store)
    requires PublishTools(w, pub, s, cut).status == Died
    ensures ToolsAdmitted(w, pub, s)
    ensures IsMirrored(s, partial, HomeOf(w, pub), pub.release, ToolsNames(pub)[..Reached(cut, ToolsNames(pub))])
    ensures var left := PublishTools(w, pub, s, cut).store;
            || left == partial
            || (Reached(cut, ToolsNames(pub)) == |ToolsNames(pub)| && InventoryOk(w, partial, Tools)
                && left == partial[IndexKey(Tools) := IndexOf(w, partial, Tools)])
  {
    UploadMirrors(Progress(s, cut, false), HomeOf(w, pub), pub.release, ToolsNames(pub));
    UploadStops(Progress(s, cut, false), HomeOf(w, pub), pub.release, ToolsNames(pub));
    partial := UploadAll(Progress(s, cut, false), Tools, HomeOf(w, pub), pub.release, ToolsNames(pub)).store;
  }

  lemma MirrorIsUnique(s: Store, t: Store, u: Store, d: Directory, r: Release, names: seq<string>)
    requires IsMirrored(s, t, d, r, names) && IsMirrored(s, u, d, r, names)
    ensures t == u
  {
  }

  /** Mirroring over a partial mirror gives what one mirror gives. */
  lemma MirrorResumes(s: Store, t: Store, u: Store, d: Directory, r: Release, names: seq<string>, j: nat)
    requires j <= |names| && IsMirrored(s, t, d, r, names[..j]) && IsMirrored(t, u, d, r, names)
    ensures IsMirrored(s, u, d, r, names)
  {
    forall name | name in names[..j] ensures name in names {
    }
  }

  /** Mirroring over a complete mirror with its index gives the same store again. */
  lemma MirrorAfterIndex(s: Store, t: Store, u: Store, index: Content, d: Directory, r: Release, names: seq<string>)
    requires IsMirrored(s, t, d, r, names) && IsMirrored(t[IndexKey(Tools) := index], u, d, r, names)
    ensures u == t[IndexKey(Tools) := index]
  {
  }

  lemma CompleteToolsAfterIndex(w: World, pub: ToolsPublication, s: Store)
    requires InventoryOk(w, s, Tools)
    ensures CompleteTools(w, pub, s[IndexKey(Tools) := IndexOf(w, s, Tools)]) == CompleteTools(w, pub, s)
  {
    var t := s[IndexKey(Tools) := IndexOf(w, s, Tools)];
    SameInventory(w, s, t, Tools, Identity(pub.release));
    SameIndex(w, s, t, Tools);
    assert t[IndexKey(Tools) := IndexOf(w, t, Tools)] == t;
  }

  lemma IndexLeavesDirectories(s: Store, index: Content, d: Directory)
    ensures SameDirectory(s, s[IndexKey(Tools) := index], d)
    ensures SameObjects(s, s[IndexKey(Tools) := index])
  {
  }

  /** The re-run of a publication that is not stuck. */
  lemma MirrorRunResumes(w: World, pub: ToolsPublication, s: Store, cut: nat, budget: nat)
    requires budget >= EnoughForTools(pub) && PublishTools(w, pub, s, cut).status == Died
    requires !StopsUnnamed(w, pub, s, cut)
    ensures PublishTools(w, pub, PublishTools(w, pub, s, cut).store, budget) == PublishTools(w, pub, s, budget)
  {
    var d, names := HomeOf(w, pub), ToolsNames(pub);
    var j, left := Reached(cut, names), PublishTools(w, pub, s, cut).store;
    var partial := MirrorDiedWhere(w, pub, s, cut);
    MirrorIsStuckExactly(w, pub, s, partial, j);
    MirrorIsRecognised(w, pub, s, partial, names[..j]);
    var once := UninterruptedMirror(w, pub, s, budget);
    if left == partial {
      var again := UninterruptedMirror(w, pub, left, budget);
      MirrorResumes(s, left, again, d, pub.release, names, j);
      MirrorIsUnique(s, once, again, d, pub.release, names);
    } else {
      assert names[..j] == names;
      MirrorIsUnique(s, once, partial, d, pub.release, names);
      var index := IndexOf(w, partial, Tools);
      IndexLeavesDirectories(partial, index, d);
      SameInventory(w, partial, left, Tools, Identity(pub.release));
      var again := UninterruptedMirror(w, pub, left, budget);
      MirrorAfterIndex(s, partial, again, index, d, pub.release, names);
      CompleteToolsAfterIndex(w, pub, partial);
    }
  }

  /** A tools run that stops among the archives of a new directory leaves the directory stuck. */
  lemma StoppedMirrorIsStuck(w: World, pub: ToolsPublication, s: Store, cut: nat)
    requires ToolsAdmitted(w, pub, s) && StopsUnnamed(w, pub, s, cut)
    ensures PublishTools(w, pub, s, cut).status == Died
    ensures Stuck(PublishTools(w, pub, s, cut).store, HomeOf(w, pub))
  {
    UploadStops(Progress(s, cut, false), HomeOf(w, pub), pub.release, ToolsNames(pub));
    var partial := MirrorDiedWhere(w, pub, s, cut);
    MirrorIsStuckExactly(w, pub, s, partial, cut);
  }

  /** Unlike an engine run, a tools run that dies while the archives of a new directory go up can never be
      repeated: whatever either publisher does afterwards, every later run of it is refused. */
  lemma {:induction false} InterruptedMirrorIsRefused(w: World, pub: ToolsPublication, s: Store, cut: nat,
                                                      runs: seq<Run>, budget: nat)
    requires ToolsAdmitted(w, pub, s) && StopsUnnamed(w, pub, s, cut)
    ensures var left := PublishTools(w, pub, s, cut);
            var later := History(w, left.store, runs);
            left.status == Died && PublishTools(w, pub, later, budget) == Outcome(later, Refused)
  {
    var left := PublishTools(w, pub, s, cut).store;
    StoppedMirrorIsStuck(w, pub, s, cut);
    HistoryKeepsStuck(w, left, runs, HomeOf(w, pub));
    StuckIsRefused(w, pub, History(w, left, runs), budget);
  }

  /** A tools run that died can be run again, and then ends as one uninterrupted run would have, exactly when
      it did not stop among the archives of a new directory. */
  lemma InterruptedMirrorResumesExactly(w: World, pub: ToolsPublication, s: Store, cut: nat, budget: nat)
    requires budget >= EnoughForTools(pub) && PublishTools(w, pub, s, cut).status == Died
    ensures PublishTools(w, pub, PublishTools(w, pub, s, cut).store, budget) == PublishTools(w, pub, s, budget)
       <==> !StopsUnnamed(w, pub, s, cut)
  {
    if StopsUnnamed(w, pub, s, cut) {
      var left := PublishTools(w, pub, s, cut).store;
      StoppedMirrorIsStuck(w, pub, s, cut);
      StuckIsRefused(w, pub, left, budget);
      var once := UninterruptedMirror(w, pub, s, budget);
      NamesUpTo(w, pub, |ToolsNames(pub)|);
      assert ToolsNames(pub)[..|ToolsNames(pub)|] == ToolsNames(pub);
      assert HasManifest(once, HomeOf(w, pub));
      assert HasManifest(CompleteTools(w, pub, once).store, HomeOf(w, pub));
    } else {
      MirrorRunResumes(w, pub, s, cut, budget);
    }
  }
}
