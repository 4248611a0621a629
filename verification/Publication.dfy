/**
  The two channel publishers (scripts/publish_environment_channel.py, scripts/publish_tools_release.py)
  as functions of one object store and of how many store writes succeed before the process dies.

  Hashes are ideal: a digest is the content it was taken from. The first eight digits of a digest, object
  sizes, manifest admission and GitHub's commit comparison are parameters.
 */
module Publication {
  import opened Wrappers

  datatype Digest = Sha256(of: Content)

  datatype Row = Row(name: string, size: nat, sha256: Digest)

  datatype ToolsReference = ToolsReference(directory: Directory, sha256: Digest)

  /** `channels/<name>.json`; `rest` stands for versions, bases and the minimum desktop version. */
  datatype Channel = Channel(engine: Digest, directory: Directory, tools: Option<ToolsReference>, rest: seq<int>)

  datatype IndexRow = IndexRow(directory: Directory, sha256: Digest, commit: string, size: nat)

  datatype Content =
    | Bytes(payload: seq<int>)
    | EngineManifest(heading: Option<string>, commit: string, artifacts: seq<Row>, about: seq<int>)
    | ToolsManifest(title: string, commit: string, artifacts: seq<Row>, about: seq<int>)
    | Index(rows: set<IndexRow>)
    | Document(channel: Channel)

  datatype Scope = Engine | Tools

  /** A directory name: `<title>-<hash8>`, a full digest, or a name without a dash. */
  datatype Directory = Labelled(title: string, hash8: string) | Full(digest: Digest) | Plain(name: string)

  datatype ChannelName = Main | Stable

  datatype Key = Object(scope: Scope, directory: Directory, name: string) | IndexKey(scope: Scope) | ChannelKey(channel: ChannelName)

  type Store = map<Key, Content>

  datatype Comparison = Identical | Behind | Diverged | Ahead | Unknown

  datatype World = World(
    hash8: Digest -> string,
    size: Content -> nat,
    admits: Content -> bool,
    compare: (string, string) -> Comparison)

  const SUMS := "SHA256SUMS"

  function ManifestName(scope: Scope): string {
    if scope == Engine then "release-manifest.json" else "tools-manifest.json"
  }

  // ---- inventory, collision check and index -------------------------------

  /** `validate_manifest` and `validate_tools_manifest`. */
  predicate ValidManifest(w: World, scope: Scope, c: Content) {
    w.admits(c) && if scope == Engine then c.EngineManifest? else c.ToolsManifest?
  }

  function DirectoryOf(w: World, scope: Scope, c: Content): Directory {
    match c
    case EngineManifest(None, _, _, _) => Full(Sha256(c))
    case EngineManifest(Some(title), _, _, _) => Labelled(title, w.hash8(Sha256(c)))
    case ToolsManifest(title, _, _, _) => Labelled(title, w.hash8(Sha256(c)))
    case _ => Plain("")
  }

  function Short(w: World, d: Directory): string {
    match d
    case Labelled(_, hash8) => hash8
    case Full(digest) => w.hash8(digest)
    case Plain(name) => name
  }

  predicate IsManifestKey(scope: Scope, key: Key) {
    key.Object? && key.scope == scope && key.name == ManifestName(scope)
  }

  /** `inventory` raises for a manifest that is invalid or lies in a directory of another name. */
  predicate InventoryOk(w: World, s: Store, scope: Scope) {
    forall key :: key in s && IsManifestKey(scope, key) ==>
      ValidManifest(w, scope, s[key]) && key.directory == DirectoryOf(w, scope, s[key])
  }

  predicate Identified(s: Store, scope: Scope, d: Directory, identity: Digest) {
    var key := Object(scope, d, ManifestName(scope));
    key in s && Sha256(s[key]) == identity
  }

  /** `check_collision`: every directory with the same first eight digits is this very publication. */
  predicate CollisionFree(w: World, s: Store, scope: Scope, identity: Digest) {
    && InventoryOk(w, s, scope)
    && forall key :: key in s && key.Object? && key.scope == scope && Short(w, key.directory) == w.hash8(identity) ==>
         Identified(s, scope, key.directory, identity)
  }

  function ArtifactsOf(c: Content): seq<Row> {
    if c.EngineManifest? || c.ToolsManifest? then c.artifacts else []
  }

  function CommitOf(c: Content): string {
    if c.EngineManifest? || c.ToolsManifest? then c.commit else []
  }

  predicate HasSize(w: World, s: Store, key: Key, size: nat) {
    key in s && w.size(s[key]) == size
  }

  /** `write_index` lists a directory when its checksums exist and every artifact has its declared size. */
  predicate Listed(w: World, s: Store, scope: Scope, d: Directory) {
    var key := Object(scope, d, ManifestName(scope));
    && key in s
    && Object(scope, d, SUMS) in s
    && forall row :: row in ArtifactsOf(s[key]) ==> HasSize(w, s, Object(scope, d, row.name), row.size)
  }

  function SizeAt(w: World, s: Store, key: Key): nat {
    if key in s then w.size(s[key]) else 0
  }

  function ArtifactSizes(w: World, s: Store, scope: Scope, d: Directory, rows: seq<Row>): nat {
    if rows == [] then 0
    else ArtifactSizes(w, s, scope, d, rows[..|rows| - 1]) + SizeAt(w, s, Object(scope, d, rows[|rows| - 1].name))
  }

  function IndexRowOf(w: World, s: Store, scope: Scope, d: Directory): IndexRow {
    var key := Object(scope, d, ManifestName(scope));
    var manifest := if key in s then s[key] else Bytes([]);
    IndexRow(d, Sha256(manifest), CommitOf(manifest),
             SizeAt(w, s, key) + SizeAt(w, s, Object(scope, d, SUMS)) + ArtifactSizes(w, s, scope, d, ArtifactsOf(manifest)))
  }

  /** The rows of the index. The file holds them in the order of build date and digest, which they determine. */
  function IndexOf(w: World, s: Store, scope: Scope): Content {
    Index(set key | key in s && IsManifestKey(scope, key) && Listed(w, s, scope, key.directory) :: IndexRowOf(w, s, scope, key.directory))
  }

  // ---- writes that may not happen -----------------------------------------

  /** The store, and how many more writes succeed before the process dies. */
  datatype Progress = Progress(store: Store, budget: nat, dead: bool)

  function Put(p: Progress, key: Key, c: Content): Progress {
    if p.dead then p
    else if p.budget == 0 then p.(dead := true)
    else Progress(p.store[key := c], p.budget - 1, false)
  }

  datatype Status = Refused | Skipped | Verified | Published | Died

  datatype Outcome = Outcome(store: Store, status: Status)

  /** A release directory: the manifest, its checksum file and its artifacts by name. */
  datatype Release = Release(manifest: Content, sums: Content, files: map<string, Content>)

  function FileOf(r: Release, scope: Scope, name: string): Content {
    if name == ManifestName(scope) then r.manifest
    else if name == SUMS then r.sums
    else if name in r.files then r.files[name]
    else Bytes([])
  }

  /** Every artifact of the manifest is there, with its declared size and digest. */
  predicate SoundRelease(w: World, scope: Scope, r: Release) {
    && ValidManifest(w, scope, r.manifest)
    && forall row :: row in ArtifactsOf(r.manifest) ==>
         w.size(FileOf(r, scope, row.name)) == row.size && Sha256(FileOf(r, scope, row.name)) == row.sha256
  }

  function RowOf(w: World, r: Release, scope: Scope, name: string): Row {
    var c := FileOf(r, scope, name);
    Row(name, w.size(c), Sha256(c))
  }

  // ---- the engine publisher -----------------------------------------------

  /** One engine publication. The flags say whether this is the exact push, and whether GitHub's manifest and
      the public base manifests equal the local ones. */
  datatype EnginePublication = EnginePublication(
    release: Release,
    channel: ChannelName,
    rest: seq<int>,
    exactPush: bool,
    githubMatches: bool,
    basesMatch: bool)

  /** The rows in upload order: the manifest first. */
  function EngineRows(w: World, pub: EnginePublication): seq<Row> {
    [RowOf(w, pub.release, Engine, ManifestName(Engine)), RowOf(w, pub.release, Engine, SUMS)] + ArtifactsOf(pub.release.manifest)
  }

  function Identity(r: Release): Digest {
    Sha256(r.manifest)
  }

  /** The loop that writes the rows that are missing. */
  function UploadMissing(p: Progress, scope: Scope, d: Directory, r: Release, rows: seq<Row>): Progress {
    if rows == [] then p
    else
      var q := UploadMissing(p, scope, d, r, rows[..|rows| - 1]);
      var name := rows[|rows| - 1].name;
      if q.dead || Object(scope, d, name) in q.store then q else Put(q, Object(scope, d, name), FileOf(r, scope, name))
  }

  /** `fetch_artifact` accepts a row when the stored bytes have its size and digest. */
  predicate Fetched(w: World, s: Store, scope: Scope, d: Directory, row: Row) {
    var key := Object(scope, d, row.name);
    key in s && w.size(s[key]) == row.size && Sha256(s[key]) == row.sha256
  }

  predicate AllFetched(w: World, s: Store, scope: Scope, d: Directory, rows: seq<Row>) {
    forall i :: 0 <= i < |rows| ==> Fetched(w, s, scope, d, rows[i])
  }

  predicate ToolsReadable(w: World, s: Store, t: ToolsReference) {
    var key := Object(Tools, t.directory, ManifestName(Tools));
    key in s && Sha256(s[key]) == t.sha256 && ValidManifest(w, Tools, s[key]) && t.directory == DirectoryOf(w, Tools, s[key])
  }

  predicate EngineReadable(w: World, s: Store, c: Channel) {
    var key := Object(Engine, c.directory, ManifestName(Engine));
    key in s && Sha256(s[key]) == c.engine && ValidManifest(w, Engine, s[key])
  }

  function NewDocument(w: World, pub: EnginePublication): Channel {
    Channel(Identity(pub.release), DirectoryOf(w, Engine, pub.release.manifest), None, pub.rest)
  }

  /** What the engine publisher does about the main channel: the document to write, or how the run ends. */
  datatype Decision = Write(channel: Channel) | End(status: Status)

  function DecideEngine(w: World, pub: EnginePublication, s: Store): Decision {
    var document := NewDocument(w, pub);
    if pub.channel == Stable || ChannelKey(Main) !in s then Write(document)
    else if !s[ChannelKey(Main)].Document? then End(Refused)
    else
      var published := s[ChannelKey(Main)].channel;
      if published.tools.Some? && !ToolsReadable(w, s, published.tools.value) then End(Refused)
      else
        var merged := document.(tools := published.tools);
        if !EngineReadable(w, s, published) then End(Refused)
        else
          var publishedCommit := CommitOf(s[Object(Engine, published.directory, ManifestName(Engine))]);
          match w.compare(publishedCommit, CommitOf(pub.release.manifest))
          case Identical => if published != merged then End(Refused) else End(Verified)
          case Behind => End(Skipped)
          case Diverged => End(Skipped)
          case Ahead => Write(merged)
          case Unknown => End(Refused)
  }

  function PublishEngine(w: World, pub: EnginePublication, s: Store, budget: nat): Outcome {
    var d, rows := DirectoryOf(w, Engine, pub.release.manifest), EngineRows(w, pub);
    if !pub.exactPush || !SoundRelease(w, Engine, pub.release) || !pub.githubMatches || !pub.basesMatch then Outcome(s, Refused)
    else if !CollisionFree(w, s, Engine, Identity(pub.release)) then Outcome(s, Refused)
    else
      var uploaded := UploadMissing(Progress(s, budget, false), Engine, d, pub.release, rows);
      if uploaded.dead then Outcome(uploaded.store, Died)
      else if !AllFetched(w, uploaded.store, Engine, d, rows) || !InventoryOk(w, uploaded.store, Engine) then Outcome(uploaded.store, Refused)
      else
        var indexed := Put(uploaded, IndexKey(Engine), IndexOf(w, uploaded.store, Engine));
        if indexed.dead then Outcome(indexed.store, Died)
        else
          match DecideEngine(w, pub, indexed.store)
          case End(status) => Outcome(indexed.store, status)
          case Write(channel) =>
            var written := Put(indexed, ChannelKey(pub.channel), Document(channel));
            Outcome(written.store, if written.dead then Died else Published)
  }

  // ---- the tools publisher ------------------------------------------------

  datatype ToolsPublication = ToolsPublication(release: Release, exactPush: bool, githubMatches: bool)

  /** Archives first, then the manifest and the checksums. */
  function ToolsNames(pub: ToolsPublication): seq<string> {
    Names(ArtifactsOf(pub.release.manifest)) + [ManifestName(Tools), SUMS]
  }

  function Names(rows: seq<Row>): (names: seq<string>)
    ensures |names| == |rows| && forall i :: 0 <= i < |names| ==> names[i] == rows[i].name
  {
    seq(|rows|, i requires 0 <= i < |rows| => rows[i].name)
  }

  /** The mirror loop: every file is written, also over an earlier copy. */
  function UploadAll(p: Progress, scope: Scope, d: Directory, r: Release, names: seq<string>): Progress {
    if names == [] then p
    else
      var q := UploadAll(p, scope, d, r, names[..|names| - 1]);
      Put(q, Object(scope, d, names[|names| - 1]), FileOf(r, scope, names[|names| - 1]))
  }

  function DecideTools(w: World, pub: ToolsPublication, s: Store): Decision {
    if ChannelKey(Main) !in s || !s[ChannelKey(Main)].Document? then End(Refused)
    else
      var channel := s[ChannelKey(Main)].channel;
      var reference := ToolsReference(DirectoryOf(w, Tools, pub.release.manifest), Identity(pub.release));
      if channel.tools == None then Write(channel.(tools := Some(reference)))
      else
        var previous := channel.tools.value;
        if !ToolsReadable(w, s, previous) then End(Refused)
        else if previous == reference then End(Verified)
        else
          var previousCommit := CommitOf(s[Object(Tools, previous.directory, ManifestName(Tools))]);
          match w.compare(previousCommit, CommitOf(pub.release.manifest))
          case Behind => End(Skipped)
          case Diverged => End(Skipped)
          case Ahead => Write(channel.(tools := Some(reference)))
          case _ => End(Refused)
  }

  function PublishTools(w: World, pub: ToolsPublication, s: Store, budget: nat): Outcome {
    var d := DirectoryOf(w, Tools, pub.release.manifest);
    if !pub.exactPush || !SoundRelease(w, Tools, pub.release) || !pub.githubMatches then Outcome(s, Refused)
    else if !CollisionFree(w, s, Tools, Identity(pub.release)) then Outcome(s, Refused)
    else
      var uploaded := UploadAll(Progress(s, budget, false), Tools, d, pub.release, ToolsNames(pub));
      if uploaded.dead then Outcome(uploaded.store, Died)
      else if !InventoryOk(w, uploaded.store, Tools) then Outcome(uploaded.store, Refused)
      else
        var indexed := Put(uploaded, IndexKey(Tools), IndexOf(w, uploaded.store, Tools));
        if indexed.dead then Outcome(indexed.store, Died)
        else
          match DecideTools(w, pub, indexed.store)
          case End(status) => Outcome(indexed.store, status)
          case Write(channel) =>
            var written := Put(indexed, ChannelKey(Main), Document(channel));
            Outcome(written.store, if written.dead then Died else Published)
  }
}
