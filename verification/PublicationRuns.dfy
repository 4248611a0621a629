/**
  What the two publishers keep over every serialised sequence of runs, each of which may die between any
  two store writes.
 */
module PublicationRuns {
  import opened Publication

  // ---- uploading missing rows ---------------------------------------------

  predicate IsRowKey(key: Key, scope: Scope, d: Directory, rows: seq<Row>) {
    key.Object? && key.scope == scope && key.directory == d && exists i :: 0 <= i < |rows| && rows[i].name == key.name
  }

  /** `t` is `s` with the missing rows written, and nothing else. */
  ghost predicate IsFilled(s: Store, t: Store, scope: Scope, d: Directory, r: Release, rows: seq<Row>) {
    && (forall key :: key in t <==> key in s || IsRowKey(key, scope, d, rows))
    && (forall key :: key in s ==> t[key] == s[key])
    && (forall key :: key in t && key !in s ==> t[key] == FileOf(r, scope, key.name))
  }

  lemma RowKeyOfPrefix(key: Key, scope: Scope, d: Directory, rows: seq<Row>, j: nat)
    requires j <= |rows| && IsRowKey(key, scope, d, rows[..j])
    ensures IsRowKey(key, scope, d, rows)
  {
    var i :| 0 <= i < j && rows[..j][i].name == key.name;
    assert rows[i].name == key.name;
  }

  lemma RowKeyOfAppend(key: Key, scope: Scope, d: Directory, rows: seq<Row>)
    requires rows != []
    ensures IsRowKey(key, scope, d, rows) <==>
            IsRowKey(key, scope, d, rows[..|rows| - 1]) || key == Object(scope, d, rows[|rows| - 1].name)
  {
    var n := |rows| - 1;
    if IsRowKey(key, scope, d, rows) {
      var i :| 0 <= i < |rows| && rows[i].name == key.name;
      assert i < n ==> rows[..n][i].name == key.name;
    }
    if IsRowKey(key, scope, d, rows[..n]) {
      RowKeyOfPrefix(key, scope, d, rows, n);
    }
    assert rows[n].name == rows[|rows| - 1].name;
  }

  lemma NothingFilled(s: Store, scope: Scope, d: Directory, r: Release, rows: seq<Row>)
    ensures IsFilled(s, s, scope, d, r, rows[..0])
  {
  }

  lemma FillOneMore(s: Store, t: Store, u: Store, scope: Scope, d: Directory, r: Release, rows: seq<Row>)
    requires rows != [] && IsFilled(s, t, scope, d, r, rows[..|rows| - 1])
    requires var key := Object(scope, d, rows[|rows| - 1].name);
             u == if key in t then t else t[key := FileOf(r, scope, key.name)]
    ensures IsFilled(s, u, scope, d, r, rows)
  {
    forall key ensures IsRowKey(key, scope, d, rows) <==>
                       IsRowKey(key, scope, d, rows[..|rows| - 1]) || key == Object(scope, d, rows[|rows| - 1].name)
    {
      RowKeyOfAppend(key, scope, d, rows);
    }
  }

  /** However many writes succeed, a prefix of the rows is complete; with enough writes all of them are. */
  lemma {:induction false} UploadFills(p: Progress, scope: Scope, d: Directory, r: Release, rows: seq<Row>) returns (j: nat)
    requires !p.dead
    ensures j <= |rows|
    ensures var q := UploadMissing(p, scope, d, r, rows);
            && IsFilled(p.store, q.store, scope, d, r, rows[..j])
            && (!q.dead ==> j == |rows| && q.budget + |rows| >= p.budget)
            && (p.budget >= |rows| ==> !q.dead)
  {
    hide IsFilled, IsRowKey, FileOf;
    if rows == [] {
      j := 0;
      NothingFilled(p.store, scope, d, r, rows);
    } else {
      var n := |rows| - 1;
      j := UploadFills(p, scope, d, r, rows[..n]);
      assert rows[..n][..j] == rows[..j];
      var q := UploadMissing(p, scope, d, r, rows[..n]);
      if !q.dead && (Object(scope, d, rows[n].name) in q.store || q.budget > 0) {
        j := |rows|;
        assert rows[..j] == rows;
        FillOneMore(p.store, q.store, UploadMissing(p, scope, d, r, rows).store, scope, d, r, rows);
      }
    }
  }

  lemma FillIsUnique(s: Store, t: Store, u: Store, scope: Scope, d: Directory, r: Release, rows: seq<Row>)
    requires IsFilled(s, t, scope, d, r, rows) && IsFilled(s, u, scope, d, r, rows)
    ensures t == u
  {
  }

  /** Completing a partial upload gives what one complete upload gives. */
  lemma FillResumes(s: Store, t: Store, u: Store, scope: Scope, d: Directory, r: Release, rows: seq<Row>, j: nat)
    requires j <= |rows| && IsFilled(s, t, scope, d, r, rows[..j]) && IsFilled(t, u, scope, d, r, rows)
    ensures IsFilled(s, u, scope, d, r, rows)
  {
    forall key | IsRowKey(key, scope, d, rows[..j]) ensures IsRowKey(key, scope, d, rows) {
      RowKeyOfPrefix(key, scope, d, rows, j);
    }
  }

  // ---- the collision check on a partial directory -------------------------

  lemma DirectoryHasShort(w: World, scope: Scope, c: Content)
    requires ValidManifest(w, scope, c)
    ensures Short(w, DirectoryOf(w, scope, c)) == w.hash8(Sha256(c))
  {
  }

  lemma ManifestRowFirst(w: World, pub: EnginePublication, j: nat)
    requires 0 < j <= |EngineRows(w, pub)|
    ensures IsRowKey(Object(Engine, DirectoryOf(w, Engine, pub.release.manifest), ManifestName(Engine)), Engine,
                     DirectoryOf(w, Engine, pub.release.manifest), EngineRows(w, pub)[..j])
  {
    assert EngineRows(w, pub)[..j][0].name == ManifestName(Engine);
  }

  /** A directory cut short at any row is recognised: its manifest was written first. */
  lemma PartialDirectoryIsRecognised(w: World, pub: EnginePublication, s: Store, t: Store, j: nat)
    requires SoundRelease(w, Engine, pub.release) && CollisionFree(w, s, Engine, Identity(pub.release))
    requires j <= |EngineRows(w, pub)|
    requires IsFilled(s, t, Engine, DirectoryOf(w, Engine, pub.release.manifest), pub.release, EngineRows(w, pub)[..j])
    ensures CollisionFree(w, t, Engine, Identity(pub.release))
  {
    var d, rows := DirectoryOf(w, Engine, pub.release.manifest), EngineRows(w, pub)[..j];
    var manifestKey := Object(Engine, d, ManifestName(Engine));
    DirectoryHasShort(w, Engine, pub.release.manifest);
    forall key | key in t && IsManifestKey(Engine, key)
      ensures ValidManifest(w, Engine, t[key]) && key.directory == DirectoryOf(w, Engine, t[key])
    {
      if key !in s {
        assert key == manifestKey && t[key] == pub.release.manifest;
      }
    }
    forall key | key in t && key.Object? && key.scope == Engine && Short(w, key.directory) == w.hash8(Identity(pub.release))
      ensures Identified(t, Engine, key.directory, Identity(pub.release))
    {
      if key in s {
        assert Identified(s, Engine, key.directory, Identity(pub.release));
      } else {
        assert j > 0;
        ManifestRowFirst(w, pub, j);
        assert manifestKey in t;
        if manifestKey in s {
          assert Identified(s, Engine, d, Identity(pub.release));
        }
      }
    }
  }

  // ---- writes outside the object directories ------------------------------

  /** Two stores with the same objects. */
  ghost predicate SameObjects(s: Store, t: Store) {
    && (forall key: Key :: key.Object? ==> (key in s <==> key in t))
    && (forall key: Key :: key.Object? && key in s && key in t ==> s[key] == t[key])
  }

  lemma {:induction false} SameArtifactSizes(w: World, s: Store, t: Store, scope: Scope, d: Directory, rows: seq<Row>)
    requires SameObjects(s, t)
    ensures ArtifactSizes(w, s, scope, d, rows) == ArtifactSizes(w, t, scope, d, rows)
  {
    if rows != [] {
      SameArtifactSizes(w, s, t, scope, d, rows[..|rows| - 1]);
    }
  }

  lemma SameListing(w: World, s: Store, t: Store, scope: Scope, d: Directory)
    requires SameObjects(s, t)
    ensures Listed(w, s, scope, d) <==> Listed(w, t, scope, d)
    ensures IndexRowOf(w, s, scope, d) == IndexRowOf(w, t, scope, d)
  {
    var key := Object(scope, d, ManifestName(scope));
    SameArtifactSizes(w, s, t, scope, d, ArtifactsOf(if key in s then s[key] else Bytes([])));
    if key in s {
      forall row | row in ArtifactsOf(s[key])
        ensures HasSize(w, s, Object(scope, d, row.name), row.size) <==> HasSize(w, t, Object(scope, d, row.name), row.size)
      {
      }
    }
  }

  lemma SameIndex(w: World, s: Store, t: Store, scope: Scope)
    requires SameObjects(s, t)
    ensures IndexOf(w, s, scope) == IndexOf(w, t, scope)
  {
    forall e ensures Listed(w, s, scope, e) <==> Listed(w, t, scope, e) {
      SameListing(w, s, t, scope, e);
    }
    forall e ensures IndexRowOf(w, s, scope, e) == IndexRowOf(w, t, scope, e) {
      SameListing(w, s, t, scope, e);
    }
    var a := set key | key in s && IsManifestKey(scope, key) && Listed(w, s, scope, key.directory) :: IndexRowOf(w, s, scope, key.directory);
    var b := set key | key in t && IsManifestKey(scope, key) && Listed(w, t, scope, key.directory) :: IndexRowOf(w, t, scope, key.directory);
    assert a <= b && b <= a;
  }

  lemma SameInventory(w: World, s: Store, t: Store, scope: Scope, identity: Digest)
    requires SameObjects(s, t)
    ensures InventoryOk(w, s, scope) <==> InventoryOk(w, t, scope)
    ensures CollisionFree(w, s, scope, identity) <==> CollisionFree(w, t, scope, identity)
  {
    assert InventoryOk(w, s, scope) <==> InventoryOk(w, t, scope);
    forall e ensures Identified(s, scope, e, identity) <==> Identified(t, scope, e, identity) {
    }
  }

  /** The index and the checks read objects only. */
  lemma SameObjectsSameView(w: World, s: Store, t: Store, scope: Scope, identity: Digest, d: Directory, rows: seq<Row>)
    requires SameObjects(s, t)
    ensures InventoryOk(w, s, scope) <==> InventoryOk(w, t, scope)
    ensures CollisionFree(w, s, scope, identity) <==> CollisionFree(w, t, scope, identity)
    ensures AllFetched(w, s, scope, d, rows) <==> AllFetched(w, t, scope, d, rows)
    ensures IndexOf(w, s, scope) == IndexOf(w, t, scope)
  {
    SameInventory(w, s, t, scope, identity);
    SameIndex(w, s, t, scope);
    forall i | 0 <= i < |rows| ensures Fetched(w, s, scope, d, rows[i]) <==> Fetched(w, t, scope, d, rows[i]) {
    }
  }

  // ---- crash and re-run ---------------------------------------------------

  /** Everything after the uploads, when no further write fails. */
  function Complete(w: World, pub: EnginePublication, s: Store): Outcome {
    var d, rows := DirectoryOf(w, Engine, pub.release.manifest), EngineRows(w, pub);
    if !AllFetched(w, s, Engine, d, rows) || !InventoryOk(w, s, Engine) then Outcome(s, Refused)
    else
      var indexed := s[IndexKey(Engine) := IndexOf(w, s, Engine)];
      match DecideEngine(w, pub, indexed)
      case End(status) => Outcome(indexed, status)
      case Write(channel) => Outcome(indexed[ChannelKey(pub.channel) := Document(channel)], Published)
  }

  predicate Admitted(w: World, pub: EnginePublication, s: Store) {
    && pub.exactPush && SoundRelease(w, Engine, pub.release) && pub.githubMatches && pub.basesMatch
    && CollisionFree(w, s, Engine, Identity(pub.release))
  }

  function Enough(w: World, pub: EnginePublication): nat {
    |EngineRows(w, pub)| + 2
  }

  /** With two writes left after the uploads, the rest of the run is `Complete`. */
  lemma RestIsComplete(w: World, pub: EnginePublication, s: Store, budget: nat, uploaded: Progress)
    requires Admitted(w, pub, s) && !uploaded.dead && uploaded.budget >= 2
    requires uploaded == UploadMissing(Progress(s, budget, false), Engine, DirectoryOf(w, Engine, pub.release.manifest),
                                       pub.release, EngineRows(w, pub))
    ensures PublishEngine(w, pub, s, budget) == Complete(w, pub, uploaded.store)
    ensures Complete(w, pub, uploaded.store).status != Died
  {
  }

  /** A run with enough writes uploads every missing row and completes. */
  lemma UninterruptedRun(w: World, pub: EnginePublication, s: Store, budget: nat) returns (filled: Store)
    requires budget >= Enough(w, pub) && Admitted(w, pub, s)
    ensures IsFilled(s, filled, Engine, DirectoryOf(w, Engine, pub.release.manifest), pub.release, EngineRows(w, pub))
    ensures PublishEngine(w, pub, s, budget) == Complete(w, pub, filled)
    ensures PublishEngine(w, pub, s, budget).status != Died
  {
    var d, rows := DirectoryOf(w, Engine, pub.release.manifest), EngineRows(w, pub);
    var j := UploadFills(Progress(s, budget, false), Engine, d, pub.release, rows);
    assert rows[..|rows|] == rows;
    var uploaded := UploadMissing(Progress(s, budget, false), Engine, d, pub.release, rows);
    filled := uploaded.store;
    assert !uploaded.dead && uploaded.budget >= 2;
    RestIsComplete(w, pub, s, budget, uploaded);
  }

  /** Once the index is written, completing again decides the same. */
  lemma CompleteAfterIndex(w: World, pub: EnginePublication, s: Store)
    requires AllFetched(w, s, Engine, DirectoryOf(w, Engine, pub.release.manifest), EngineRows(w, pub)) && InventoryOk(w, s, Engine)
    ensures Complete(w, pub, s[IndexKey(Engine) := IndexOf(w, s, Engine)]) == Complete(w, pub, s)
  {
    var t := s[IndexKey(Engine) := IndexOf(w, s, Engine)];
    SameObjectsSameView(w, s, t, Engine, Identity(pub.release), DirectoryOf(w, Engine, pub.release.manifest), EngineRows(w, pub));
    assert t[IndexKey(Engine) := IndexOf(w, t, Engine)] == t;
  }

  lemma FilledNeedsNothing(s: Store, scope: Scope, d: Directory, r: Release, rows: seq<Row>, t: Store)
    requires IsFilled(s, t, scope, d, r, rows) && forall key :: IsRowKey(key, scope, d, rows) ==> key in s
    ensures t == s
  {
  }

  /** What a run that died left behind. */
  lemma DiedWhere(w: World, pub: EnginePublication, s: Store, budget: nat) returns (j: nat, partial: Store)
    requires Admitted(w, pub, s) && PublishEngine(w, pub, s, budget).status == Died
    ensures j <= |EngineRows(w, pub)|
    ensures IsFilled(s, partial, Engine, DirectoryOf(w, Engine, pub.release.manifest), pub.release, EngineRows(w, pub)[..j])
    ensures var left := PublishEngine(w, pub, s, budget).store;
            || left == partial
            || (j == |EngineRows(w, pub)|
                && AllFetched(w, partial, Engine, DirectoryOf(w, Engine, pub.release.manifest), EngineRows(w, pub))
                && InventoryOk(w, partial, Engine)
                && left == partial[IndexKey(Engine) := IndexOf(w, partial, Engine)])
  {
    var d, rows := DirectoryOf(w, Engine, pub.release.manifest), EngineRows(w, pub);
    j := UploadFills(Progress(s, budget, false), Engine, d, pub.release, rows);
    partial := UploadMissing(Progress(s, budget, false), Engine, d, pub.release, rows).store;
  }

  /** A publication that died anywhere can simply be run again: the re-run ends exactly as one uninterrupted
      run from the original store would have, in the same store. */
  lemma InterruptedRunResumes(w: World, pub: EnginePublication, s: Store, cut: nat, budget: nat)
    requires budget >= Enough(w, pub) && PublishEngine(w, pub, s, cut).status == Died
    ensures PublishEngine(w, pub, PublishEngine(w, pub, s, cut).store, budget) == PublishEngine(w, pub, s, budget)
  {
    var d, rows := DirectoryOf(w, Engine, pub.release.manifest), EngineRows(w, pub);
    var left := PublishEngine(w, pub, s, cut).store;
    var j, partial := DiedWhere(w, pub, s, cut);
    PartialDirectoryIsRecognised(w, pub, s, partial, j);
    SameObjectsSameView(w, partial, left, Engine, Identity(pub.release), d, rows);
    var once := UninterruptedRun(w, pub, s, budget);
    var again := UninterruptedRun(w, pub, left, budget);
    if left == partial {
      FillResumes(s, left, again, Engine, d, pub.release, rows, j);
      FillIsUnique(s, once, again, Engine, d, pub.release, rows);
    } else {
      assert rows[..j] == rows;
      FillIsUnique(s, once, partial, Engine, d, pub.release, rows);
      FilledNeedsNothing(left, Engine, d, pub.release, rows, again);
      CompleteAfterIndex(w, pub, partial);
    }
  }
}
