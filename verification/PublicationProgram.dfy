/** The two publishers as programs over one shared object store. */
module PublicationProgram {
  import opened Wrappers
  import opened Publication

  /** The bucket as one process sees it; `budget` more writes succeed, then the process is dead. */
  class ObjectStore {
    var objects: Store
    var budget: nat
    var dead: bool

    constructor (objects: Store, budget: nat)
      ensures Seen() == Progress(objects, budget, false)
    {
      this.objects, this.budget, this.dead := objects, budget, false;
    }

    function Seen(): Progress
      reads this
    {
      Progress(objects, budget, dead)
    }

    method Upload(key: Key, c: Content)
      modifies this
      ensures Seen() == Put(old(Seen()), key, c)
    {
      if dead {
        return;
      }
      if budget == 0 {
        dead := true;
        return;
      }
      objects := objects[key := c];
      budget := budget - 1;
    }
  }

  /** `inventory`: the identity of every directory that has a manifest, or nothing when one is invalid. */
  method Inventory(w: World, s: Store, scope: Scope) returns (known: Option<map<Directory, Digest>>)
    ensures known.Some? <==> InventoryOk(w, s, scope)
    ensures known.Some? ==> forall d :: d in known.value <==> Object(scope, d, ManifestName(scope)) in s
    ensures known.Some? ==> forall d :: d in known.value ==> known.value[d] == Sha256(s[Object(scope, d, ManifestName(scope))])
  {
    var manifests: map<Directory, Digest> := map[];
    var rest := s.Keys;
    while rest != {}
      invariant rest <= s.Keys
      invariant forall key :: key in s && key !in rest && IsManifestKey(scope, key) ==>
                  ValidManifest(w, scope, s[key]) && key.directory == DirectoryOf(w, scope, s[key])
      invariant forall d :: d in manifests <==>
                  Object(scope, d, ManifestName(scope)) in s && Object(scope, d, ManifestName(scope)) !in rest
      invariant forall d :: d in manifests ==> manifests[d] == Sha256(s[Object(scope, d, ManifestName(scope))])
      decreases rest
    {
      var key :| key in rest;
      rest := rest - {key};
      if !IsManifestKey(scope, key) {
        continue;
      }
      var data := s[key];
      if !ValidManifest(w, scope, data) || key.directory != DirectoryOf(w, scope, data) {
        return None;
      }
      manifests := manifests[key.directory := Sha256(data)];
    }
    return Some(manifests);
  }

  method CheckCollision(w: World, s: Store, scope: Scope, identity: Digest) returns (free: bool)
    ensures free <==> CollisionFree(w, s, scope, identity)
  {
    var known := Inventory(w, s, scope);
    if known == None {
      return false;
    }
    var rest := s.Keys;
    while rest != {}
      invariant rest <= s.Keys
      invariant forall key :: key in s && key !in rest && key.Object? && key.scope == scope ==>
                  Short(w, key.directory) == w.hash8(identity) ==> Identified(s, scope, key.directory, identity)
      decreases rest
    {
      var key :| key in rest;
      rest := rest - {key};
      if !key.Object? || key.scope != scope || Short(w, key.directory) != w.hash8(identity) {
        continue;
      }
      if key.directory !in known.value || known.value[key.directory] != identity {
        assert !Identified(s, scope, key.directory, identity);
        return false;
      }
    }
    return true;
  }

  /** `write_index`: one row for every complete directory. */
  method WriteIndex(w: World, s: Store, scope: Scope) returns (index: Option<Content>)
    ensures index == if InventoryOk(w, s, scope) then Some(IndexOf(w, s, scope)) else None
  {
    var known := Inventory(w, s, scope);
    if known == None {
      return None;
    }
    var rows: set<IndexRow> := {};
    var rest := s.Keys;
    while rest != {}
      invariant rest <= s.Keys
      invariant rows == set key | key in s && key !in rest && IsManifestKey(scope, key) && Listed(w, s, scope, key.directory) :: IndexRowOf(w, s, scope, key.directory)
      decreases rest
    {
      var key :| key in rest;
      rest := rest - {key};
      if !IsManifestKey(scope, key) || !Listed(w, s, scope, key.directory) {
        continue;
      }
      rows := rows + {IndexRowOf(w, s, scope, key.directory)};
    }
    assert rows == set key | key in s && IsManifestKey(scope, key) && Listed(w, s, scope, key.directory) :: IndexRowOf(w, s, scope, key.directory);
    index := Some(Index(rows));
  }

  /** The upload loop: only missing keys are written. */
  method UploadRows(store: ObjectStore, d: Directory, release: Release, rows: seq<Row>)
    modifies store
    ensures store.Seen() == UploadMissing(old(store.Seen()), Engine, d, release, rows)
  {
    for i := 0 to |rows|
      invariant store.Seen() == UploadMissing(old(store.Seen()), Engine, d, release, rows[..i])
    {
      var key := Object(Engine, d, rows[i].name);
      assert rows[..i + 1][..i] == rows[..i];
      if !store.dead && key !in store.objects {
        store.Upload(key, FileOf(release, Engine, rows[i].name));
      }
    }
    assert rows[..|rows|] == rows;
  }

  /** The loop that reads every row back. */
  method ReadBack(w: World, s: Store, d: Directory, rows: seq<Row>) returns (fetched: bool)
    ensures fetched <==> AllFetched(w, s, Engine, d, rows)
  {
    for i := 0 to |rows|
      invariant forall k :: 0 <= k < i ==> Fetched(w, s, Engine, d, rows[k])
    {
      if !Fetched(w, s, Engine, d, rows[i]) {
        return false;
      }
    }
    return true;
  }

  method RunEnginePublisher(w: World, pub: EnginePublication, store: ObjectStore) returns (status: Status)
    requires !store.dead
    modifies store
    ensures Outcome(store.objects, status) == PublishEngine(w, pub, old(store.objects), old(store.budget))
  {
    if !pub.exactPush || !SoundRelease(w, Engine, pub.release) || !pub.githubMatches || !pub.basesMatch {
      return Refused;
    }
    var free := CheckCollision(w, store.objects, Engine, Identity(pub.release));
    if !free {
      return Refused;
    }
    var d, rows := DirectoryOf(w, Engine, pub.release.manifest), EngineRows(w, pub);
    UploadRows(store, d, pub.release, rows);
    if store.dead {
      return Died;
    }
    var fetched := ReadBack(w, store.objects, d, rows);
    if !fetched {
      return Refused;
    }
    var index := WriteIndex(w, store.objects, Engine);
    if index == None {
      return Refused;
    }
    store.Upload(IndexKey(Engine), index.value);
    if store.dead {
      return Died;
    }
    match DecideEngine(w, pub, store.objects) {
      case End(ended) =>
        return ended;
      case Write(document) =>
        store.Upload(ChannelKey(pub.channel), Document(document));
        return if store.dead then Died else Published;
    }
  }

  /** The mirror loop: every file is written. */
  method UploadFiles(store: ObjectStore, d: Directory, release: Release, names: seq<string>)
    modifies store
    ensures store.Seen() == UploadAll(old(store.Seen()), Tools, d, release, names)
  {
    for i := 0 to |names|
      invariant store.Seen() == UploadAll(old(store.Seen()), Tools, d, release, names[..i])
    {
      assert names[..i + 1][..i] == names[..i];
      store.Upload(Object(Tools, d, names[i]), FileOf(release, Tools, names[i]));
    }
    assert names[..|names|] == names;
  }

  method RunToolsPublisher(w: World, pub: ToolsPublication, store: ObjectStore) returns (status: Status)
    requires !store.dead
    modifies store
    ensures Outcome(store.objects, status) == PublishTools(w, pub, old(store.objects), old(store.budget))
  {
    if !pub.exactPush || !SoundRelease(w, Tools, pub.release) || !pub.githubMatches {
      return Refused;
    }
    var free := CheckCollision(w, store.objects, Tools, Identity(pub.release));
    if !free {
      return Refused;
    }
    var d, names := DirectoryOf(w, Tools, pub.release.manifest), ToolsNames(pub);
    UploadFiles(store, d, pub.release, names);
    if store.dead {
      return Died;
    }
    var index := WriteIndex(w, store.objects, Tools);
    if index == None {
      return Refused;
    }
    store.Upload(IndexKey(Tools), index.value);
    if store.dead {
      return Died;
    }
    match DecideTools(w, pub, store.objects) {
      case End(ended) =>
        return ended;
      case Write(channel) =>
        store.Upload(ChannelKey(Main), Document(channel));
        return if store.dead then Died else Published;
    }
  }
}
