/**
  Safety of the main channel over every serialised sequence of engine and tools publications, each with
  any number of successful writes.
 */
module PublicationSafety {
  import opened Wrappers
  import opened Publication
  import opened PublicationRuns

  datatype Run = EngineRun(engine: EnginePublication, budget: nat) | ToolsRun(tools: ToolsPublication, budget: nat)

  function Perform(w: World, s: Store, run: Run): Store {
    match run
    case EngineRun(pub, budget) => PublishEngine(w, pub, s, budget).store
    case ToolsRun(pub, budget) => PublishTools(w, pub, s, budget).store
  }

  function History(w: World, s: Store, runs: seq<Run>): Store {
    if runs == [] then s else Perform(w, History(w, s, runs[..|runs| - 1]), runs[|runs| - 1])
  }

  // ---- what the channel may name ------------------------------------------

  /** The engine's manifest, checksums and every artifact are stored with their declared digests. */
  ghost predicate EngineComplete(w: World, s: Store, c: Channel) {
    && EngineReadable(w, s, c)
    && Object(Engine, c.directory, SUMS) in s
    && forall row :: row in ArtifactsOf(c.engine.of) ==> Fetched(w, s, Engine, c.directory, row)
  }

  ghost predicate ToolsComplete(w: World, s: Store, t: ToolsReference) {
    && ToolsReadable(w, s, t)
    && Object(Tools, t.directory, SUMS) in s
    && forall row :: row in ArtifactsOf(t.sha256.of) ==> Fetched(w, s, Tools, t.directory, row)
  }

  ghost predicate ChannelSound(w: World, s: Store, c: Channel) {
    EngineComplete(w, s, c) && (c.tools.Some? ==> ToolsComplete(w, s, c.tools.value))
  }

  /** The main channel is absent, or a document whose engine and tools are complete. */
  ghost predicate Sound(w: World, s: Store) {
    ChannelKey(Main) in s ==> s[ChannelKey(Main)].Document? && ChannelSound(w, s, s[ChannelKey(Main)].channel)
  }

  function MainChannel(s: Store): Option<Channel> {
    if ChannelKey(Main) in s && s[ChannelKey(Main)].Document? then Some(s[ChannelKey(Main)].channel) else None
  }

  function EnginePart(c: Channel): Channel {
    c.(tools := None)
  }

  predicate Advances(w: World, before: Digest, after: Digest) {
    w.compare(CommitOf(before.of), CommitOf(after.of)) == Ahead
  }

  /** An engine run moves the engine to a strict descendant, or creates the channel, and leaves the tools. */
  predicate EngineMove(w: World, before: Option<Channel>, after: Option<Channel>) {
    || before == after
    || (before == None && after.Some? && after.value.tools == None)
    || (before.Some? && after.Some? && before.value.tools == after.value.tools && Advances(w, before.value.engine, after.value.engine))
  }

  /** A tools run moves the tools to a strict descendant, or adds the first ones, and leaves the engine. */
  predicate ToolsMove(w: World, before: Option<Channel>, after: Option<Channel>) {
    || before == after
    || (before.Some? && after.Some? && EnginePart(before.value) == EnginePart(after.value) && after.value.tools.Some?
        && (before.value.tools.Some? ==> Advances(w, before.value.tools.value.sha256, after.value.tools.value.sha256)))
  }

  // ---- the engine publisher -----------------------------------------------

  /** Stores that agree on everything except the given object directory and the indexes, and where nothing
      was lost. */
  ghost predicate Grows(s: Store, t: Store, scope: Scope) {
    && (forall key :: key in s && key.Object? && key.scope == scope ==> key in t && t[key] == s[key])
    && (forall key: Key :: (key.Object? && key.scope != scope) || key.ChannelKey? ==> (key in s <==> key in t))
    && (forall key: Key :: ((key.Object? && key.scope != scope) || key.ChannelKey?) && key in s && key in t ==> s[key] == t[key])
  }

  lemma GrowthKeepsSound(w: World, s: Store, t: Store)
    requires Sound(w, s) && Grows(s, t, Engine)
    ensures Sound(w, t) && MainChannel(t) == MainChannel(s)
    ensures ChannelKey(Main) in t ==> ChannelKey(Main) in s
  {
    if ChannelKey(Main) in s {
      var c := s[ChannelKey(Main)].channel;
      KeepsEngine(w, s, t, c);
      if c.tools.Some? {
        KeepsTools(w, s, t, c.tools.value);
      }
    }
  }

  lemma KeepsEngine(w: World, s: Store, t: Store, c: Channel)
    requires EngineComplete(w, s, c)
    requires forall key :: key in s && key.Object? && key.scope == Engine ==> key in t && t[key] == s[key]
    ensures EngineComplete(w, t, c)
  {
    forall row | row in ArtifactsOf(c.engine.of) ensures Fetched(w, t, Engine, c.directory, row) {
      assert Fetched(w, s, Engine, c.directory, row);
    }
  }

  lemma KeepsTools(w: World, s: Store, t: Store, reference: ToolsReference)
    requires ToolsComplete(w, s, reference)
    requires forall key :: key in s && key.Object? && key.scope == Tools ==> key in t && t[key] == s[key]
    ensures ToolsComplete(w, t, reference)
  {
    forall row | row in ArtifactsOf(reference.sha256.of) ensures Fetched(w, t, Tools, reference.directory, row) {
      assert Fetched(w, s, Tools, reference.directory, row);
    }
  }

  lemma FillGrows(s: Store, t: Store, d: Directory, r: Release, rows: seq<Row>)
    requires IsFilled(s, t, Engine, d, r, rows)
    ensures Grows(s, t, Engine)
  {
  }

  /** A fetched publication is complete for its channel document. */
  lemma FetchedIsComplete(w: World, pub: EnginePublication, s: Store, t: Store)
    requires SoundRelease(w, Engine, pub.release)
    requires AllFetched(w, s, Engine, DirectoryOf(w, Engine, pub.release.manifest), EngineRows(w, pub))
    requires forall key :: key in s && key.Object? && key.scope == Engine ==> key in t && t[key] == s[key]
    ensures EngineComplete(w, t, NewDocument(w, pub))
  {
    var d, rows := DirectoryOf(w, Engine, pub.release.manifest), EngineRows(w, pub);
    assert Fetched(w, s, Engine, d, rows[0]) && Fetched(w, s, Engine, d, rows[1]);
    forall row | row in ArtifactsOf(pub.release.manifest) ensures Fetched(w, t, Engine, d, row) {
      var i :| 0 <= i < |ArtifactsOf(pub.release.manifest)| && ArtifactsOf(pub.release.manifest)[i] == row;
      assert rows[i + 2] == row;
      assert Fetched(w, s, Engine, d, rows[i + 2]);
    }
  }

  /** What the engine publisher's decision to write implies. */
  lemma EngineDecision(w: World, pub: EnginePublication, s: Store)
    requires Sound(w, s) && DecideEngine(w, pub, s).Write?
    ensures var c := DecideEngine(w, pub, s).channel;
            && EnginePart(c) == NewDocument(w, pub)
            && (pub.channel == Main ==> EngineMove(w, MainChannel(s), Some(c)))
            && (pub.channel == Main && c.tools.Some? ==> ChannelKey(Main) in s && c.tools == s[ChannelKey(Main)].channel.tools)
  {
  }

  /** Documents live outside the object directories. */
  lemma WriteChannel(w: World, s: Store, name: ChannelName, c: Channel)
    requires Sound(w, s)
    requires name == Main ==> ChannelSound(w, s, c)
    ensures Sound(w, s[ChannelKey(name) := Document(c)])
    ensures MainChannel(s[ChannelKey(name) := Document(c)]) == if name == Main then Some(c) else MainChannel(s)
  {
    var t := s[ChannelKey(name) := Document(c)];
    if ChannelKey(Main) in t {
      var main := t[ChannelKey(Main)].channel;
      KeepsEngine(w, s, t, main);
      if main.tools.Some? {
        KeepsTools(w, s, t, main.tools.value);
      }
    }
  }

  lemma CompleteWithTools(w: World, s: Store, document: Channel, c: Channel)
    requires EngineComplete(w, s, document) && c.engine == document.engine && c.directory == document.directory
    ensures EngineComplete(w, s, c)
  {
    forall row | row in ArtifactsOf(c.engine.of) ensures Fetched(w, s, Engine, c.directory, row) {
      assert Fetched(w, s, Engine, document.directory, row);
    }
  }

  lemma EngineWriteIsSafe(w: World, pub: EnginePublication, s: Store, t: Store)
    requires SoundRelease(w, Engine, pub.release) && Sound(w, t)
    requires AllFetched(w, s, Engine, DirectoryOf(w, Engine, pub.release.manifest), EngineRows(w, pub))
    requires forall key :: key in s && key.Object? && key.scope == Engine ==> key in t && t[key] == s[key]
    requires DecideEngine(w, pub, t).Write?
    ensures var u := t[ChannelKey(pub.channel) := Document(DecideEngine(w, pub, t).channel)];
            Sound(w, u) && EngineMove(w, MainChannel(t), MainChannel(u))
  {
    var c := DecideEngine(w, pub, t).channel;
    EngineDecision(w, pub, t);
    assert c.engine == EnginePart(c).engine && c.directory == EnginePart(c).directory;
    FetchedIsComplete(w, pub, s, t);
    CompleteWithTools(w, t, NewDocument(w, pub), c);
    WriteChannel(w, t, pub.channel, c);
  }

  /** The steps after the uploads. */
  function Finish(w: World, pub: EnginePublication, uploaded: Progress): Store {
    var d, rows := DirectoryOf(w, Engine, pub.release.manifest), EngineRows(w, pub);
    if uploaded.dead || !AllFetched(w, uploaded.store, Engine, d, rows) || !InventoryOk(w, uploaded.store, Engine) || uploaded.budget == 0 then
      uploaded.store
    else
      var indexed := uploaded.store[IndexKey(Engine) := IndexOf(w, uploaded.store, Engine)];
      if uploaded.budget == 1 || !DecideEngine(w, pub, indexed).Write? then indexed
      else indexed[ChannelKey(pub.channel) := Document(DecideEngine(w, pub, indexed).channel)]
  }

  lemma FinishIsRun(w: World, pub: EnginePublication, s: Store, budget: nat)
    requires Admitted(w, pub, s)
    ensures PublishEngine(w, pub, s, budget).store ==
            Finish(w, pub, UploadMissing(Progress(s, budget, false), Engine, DirectoryOf(w, Engine, pub.release.manifest), pub.release, EngineRows(w, pub)))
  {
  }

  lemma FinishIsSafe(w: World, pub: EnginePublication, uploaded: Progress)
    requires SoundRelease(w, Engine, pub.release) && Sound(w, uploaded.store)
    ensures Sound(w, Finish(w, pub, uploaded))
    ensures EngineMove(w, MainChannel(uploaded.store), MainChannel(Finish(w, pub, uploaded)))
    ensures forall key :: key in uploaded.store && key.Object? ==>
              key in Finish(w, pub, uploaded) && Finish(w, pub, uploaded)[key] == uploaded.store[key]
  {
    var filled := uploaded.store;
    var d, rows := DirectoryOf(w, Engine, pub.release.manifest), EngineRows(w, pub);
    if !uploaded.dead && AllFetched(w, filled, Engine, d, rows) && InventoryOk(w, filled, Engine) && uploaded.budget > 0 {
      var indexed := filled[IndexKey(Engine) := IndexOf(w, filled, Engine)];
      IndexKeepsSound(w, filled, Engine, IndexOf(w, filled, Engine));
      if DecideEngine(w, pub, indexed).Write? {
        EngineWriteIsSafe(w, pub, filled, indexed);
      }
    }
  }

  lemma EngineRunIsSafe(w: World, pub: EnginePublication, s: Store, budget: nat)
    requires Sound(w, s)
    ensures var t := PublishEngine(w, pub, s, budget).store;
            && Sound(w, t)
            && EngineMove(w, MainChannel(s), MainChannel(t))
            && (forall key :: key in s && key.Object? ==> key in t && t[key] == s[key])
  {
    if Admitted(w, pub, s) {
      var d, rows := DirectoryOf(w, Engine, pub.release.manifest), EngineRows(w, pub);
      var j := UploadFills(Progress(s, budget, false), Engine, d, pub.release, rows);
      var uploaded := UploadMissing(Progress(s, budget, false), Engine, d, pub.release, rows);
      FillGrows(s, uploaded.store, d, pub.release, rows[..j]);
      GrowthKeepsSound(w, s, uploaded.store);
      FinishIsRun(w, pub, s, budget);
      FinishIsSafe(w, pub, uploaded);
    }
  }

  // ---- the tools publisher ------------------------------------------------

  /** Files of one tools directory were written, everything else is as before. */
  ghost predicate IsMirrored(s: Store, t: Store, d: Directory, r: Release, names: seq<string>) {
    && (forall key :: key in t <==> key in s || (key.Object? && key.scope == Tools && key.directory == d && key.name in names))
    && (forall key :: key in t ==>
          t[key] == if key.Object? && key.scope == Tools && key.directory == d && key.name in names then FileOf(r, Tools, key.name) else s[key])
  }

  function Reached(budget: nat, names: seq<string>): (j: nat)
    ensures j <= |names|
  {
    if budget < |names| then budget else |names|
  }

  lemma {:induction false} UploadStops(p: Progress, d: Directory, r: Release, names: seq<string>)
    requires !p.dead
    ensures var q := UploadAll(p, Tools, d, r, names);
            (q.dead <==> p.budget < |names|) && q.budget == p.budget - Reached(p.budget, names)
  {
    if names != [] {
      UploadStops(p, d, r, names[..|names| - 1]);
    }
  }

  lemma NothingMirrored(s: Store, d: Directory, r: Release)
    ensures IsMirrored(s, s, d, r, [])
  {
  }

  /** As many files are mirrored, in order, as writes succeed. */
  lemma {:induction false} UploadMirrors(p: Progress, d: Directory, r: Release, names: seq<string>)
    requires !p.dead
    ensures IsMirrored(p.store, UploadAll(p, Tools, d, r, names).store, d, r, names[..Reached(p.budget, names)])
  {
    hide IsMirrored, FileOf;
    if names == [] {
      NothingMirrored(p.store, d, r);
      assert names[..Reached(p.budget, names)] == [];
    } else {
      var n := |names| - 1;
      UploadMirrors(p, d, r, names[..n]);
      UploadStops(p, d, r, names[..n]);
      assert names[..n][..Reached(p.budget, names[..n])] == names[..Reached(p.budget, names[..n])];
      if p.budget > n {
        assert names[..n + 1] == names[..n] + [names[n]];
        MirrorOneMore(p.store, UploadAll(p, Tools, d, r, names[..n]).store, d, r, names[..n], names[n]);
      }
    }
  }

  lemma MirrorOneMore(s: Store, t: Store, d: Directory, r: Release, names: seq<string>, name: string)
    requires IsMirrored(s, t, d, r, names)
    ensures IsMirrored(s, t[Object(Tools, d, name) := FileOf(r, Tools, name)], d, r, names + [name])
  {
    var u := t[Object(Tools, d, name) := FileOf(r, Tools, name)];
    forall other ensures other in names + [name] <==> other in names || other == name {
    }
  }

  /** Re-uploading cannot damage the tools the channel names: a directory of the same name holds the same
      manifest, and so the same archives. */
  lemma MirrorKeepsTools(w: World, pub: ToolsPublication, s: Store, t: Store, names: seq<string>, reference: ToolsReference)
    requires SoundRelease(w, Tools, pub.release) && CollisionFree(w, s, Tools, Identity(pub.release))
    requires IsMirrored(s, t, DirectoryOf(w, Tools, pub.release.manifest), pub.release, names)
    requires ToolsComplete(w, s, reference)
    ensures ToolsComplete(w, t, reference)
  {
    var d := DirectoryOf(w, Tools, pub.release.manifest);
    DirectoryHasShort(w, Tools, pub.release.manifest);
    var key := Object(Tools, reference.directory, ManifestName(Tools));
    if reference.directory == d {
      assert Identified(s, Tools, d, Identity(pub.release));
      assert reference.sha256.of == pub.release.manifest;
    }
    forall row | row in ArtifactsOf(reference.sha256.of) ensures Fetched(w, t, Tools, reference.directory, row) {
      assert Fetched(w, s, Tools, reference.directory, row);
    }
  }

  lemma MirrorKeepsSound(w: World, pub: ToolsPublication, s: Store, t: Store, names: seq<string>)
    requires SoundRelease(w, Tools, pub.release) && CollisionFree(w, s, Tools, Identity(pub.release))
    requires IsMirrored(s, t, DirectoryOf(w, Tools, pub.release.manifest), pub.release, names)
    requires Sound(w, s)
    ensures Sound(w, t) && MainChannel(t) == MainChannel(s)
  {
    if ChannelKey(Main) in s {
      var c := s[ChannelKey(Main)].channel;
      KeepsEngine(w, s, t, c);
      if c.tools.Some? {
        MirrorKeepsTools(w, pub, s, t, names, c.tools.value);
      }
    }
  }

  lemma MirroredIsComplete(w: World, pub: ToolsPublication, s: Store, t: Store)
    requires SoundRelease(w, Tools, pub.release)
    requires IsMirrored(s, t, DirectoryOf(w, Tools, pub.release.manifest), pub.release, ToolsNames(pub))
    ensures ToolsComplete(w, t, ToolsReference(DirectoryOf(w, Tools, pub.release.manifest), Identity(pub.release)))
  {
    var names, rows := ToolsNames(pub), ArtifactsOf(pub.release.manifest);
    var d := DirectoryOf(w, Tools, pub.release.manifest);
    assert names[|rows|] == ManifestName(Tools) && names[|rows| + 1] == SUMS;
    forall row | row in rows ensures Fetched(w, t, Tools, d, row) {
      var i :| 0 <= i < |rows| && rows[i] == row;
      assert names[i] == row.name;
    }
  }

  lemma IndexKeepsSound(w: World, s: Store, scope: Scope, c: Content)
    requires Sound(w, s)
    ensures Sound(w, s[IndexKey(scope) := c]) && MainChannel(s[IndexKey(scope) := c]) == MainChannel(s)
  {
    var t := s[IndexKey(scope) := c];
    if ChannelKey(Main) in s {
      KeepsEngine(w, s, t, s[ChannelKey(Main)].channel);
      if s[ChannelKey(Main)].channel.tools.Some? {
        KeepsTools(w, s, t, s[ChannelKey(Main)].channel.tools.value);
      }
    }
  }

  lemma ToolsWriteIsSafe(w: World, pub: ToolsPublication, s: Store, t: Store)
    requires Sound(w, t) && DecideTools(w, pub, t).Write?
    requires ToolsComplete(w, s, ToolsReference(DirectoryOf(w, Tools, pub.release.manifest), Identity(pub.release)))
    requires forall key :: key in s && key.Object? && key.scope == Tools ==> key in t && t[key] == s[key]
    ensures var u := t[ChannelKey(Main) := Document(DecideTools(w, pub, t).channel)];
            Sound(w, u) && ToolsMove(w, MainChannel(t), MainChannel(u))
  {
    var reference := ToolsReference(DirectoryOf(w, Tools, pub.release.manifest), Identity(pub.release));
    var c := DecideTools(w, pub, t).channel;
    KeepsTools(w, s, t, reference);
    CompleteWithTools(w, t, t[ChannelKey(Main)].channel, c);
    WriteChannel(w, t, Main, c);
  }

  function FinishTools(w: World, pub: ToolsPublication, uploaded: Progress): Store {
    if uploaded.dead || !InventoryOk(w, uploaded.store, Tools) || uploaded.budget == 0 then uploaded.store
    else
      var indexed := uploaded.store[IndexKey(Tools) := IndexOf(w, uploaded.store, Tools)];
      if uploaded.budget == 1 || !DecideTools(w, pub, indexed).Write? then indexed
      else indexed[ChannelKey(Main) := Document(DecideTools(w, pub, indexed).channel)]
  }

  lemma FinishToolsIsSafe(w: World, pub: ToolsPublication, uploaded: Progress)
    requires Sound(w, uploaded.store)
    requires !uploaded.dead ==>
      ToolsComplete(w, uploaded.store, ToolsReference(DirectoryOf(w, Tools, pub.release.manifest), Identity(pub.release)))
    ensures Sound(w, FinishTools(w, pub, uploaded))
    ensures ToolsMove(w, MainChannel(uploaded.store), MainChannel(FinishTools(w, pub, uploaded)))
    ensures forall key :: key in uploaded.store && key.Object? ==>
              key in FinishTools(w, pub, uploaded) && FinishTools(w, pub, uploaded)[key] == uploaded.store[key]
  {
    var mirrored := uploaded.store;
    if !uploaded.dead && InventoryOk(w, mirrored, Tools) && uploaded.budget > 0 {
      var indexed := mirrored[IndexKey(Tools) := IndexOf(w, mirrored, Tools)];
      IndexKeepsSound(w, mirrored, Tools, IndexOf(w, mirrored, Tools));
      if DecideTools(w, pub, indexed).Write? {
        ToolsWriteIsSafe(w, pub, mirrored, indexed);
      }
    }
  }

  lemma FinishToolsIsRun(w: World, pub: ToolsPublication, s: Store, budget: nat)
    requires pub.exactPush && SoundRelease(w, Tools, pub.release) && pub.githubMatches && CollisionFree(w, s, Tools, Identity(pub.release))
    ensures PublishTools(w, pub, s, budget).store ==
            FinishTools(w, pub, UploadAll(Progress(s, budget, false), Tools, DirectoryOf(w, Tools, pub.release.manifest), pub.release, ToolsNames(pub)))
  {
  }

  lemma MirrorLeavesEngine(s: Store, t: Store, d: Directory, r: Release, names: seq<string>)
    requires IsMirrored(s, t, d, r, names)
    ensures forall key :: key in s && key.Object? && key.scope == Engine ==> key in t && t[key] == s[key]
  {
  }

  /** The tools mirror, up to the point where it stops. */
  lemma MirrorIsSafe(w: World, pub: ToolsPublication, s: Store, budget: nat)
    requires Sound(w, s) && SoundRelease(w, Tools, pub.release) && CollisionFree(w, s, Tools, Identity(pub.release))
    ensures var d := DirectoryOf(w, Tools, pub.release.manifest);
            var uploaded := UploadAll(Progress(s, budget, false), Tools, d, pub.release, ToolsNames(pub));
            && Sound(w, uploaded.store) && MainChannel(uploaded.store) == MainChannel(s)
            && (!uploaded.dead ==> ToolsComplete(w, uploaded.store, ToolsReference(d, Identity(pub.release))))
            && (forall key :: key in s && key.Object? && key.scope == Engine ==> key in uploaded.store && uploaded.store[key] == s[key])
  {
    var d, names := DirectoryOf(w, Tools, pub.release.manifest), ToolsNames(pub);
    var j := Reached(budget, names);
    UploadMirrors(Progress(s, budget, false), d, pub.release, names);
    UploadStops(Progress(s, budget, false), d, pub.release, names);
    var uploaded := UploadAll(Progress(s, budget, false), Tools, d, pub.release, names);
    MirrorKeepsSound(w, pub, s, uploaded.store, names[..j]);
    MirrorLeavesEngine(s, uploaded.store, d, pub.release, names[..j]);
    if !uploaded.dead {
      assert names[..j] == names;
      MirroredIsComplete(w, pub, s, uploaded.store);
    }
  }

  lemma ToolsRunIsSafe(w: World, pub: ToolsPublication, s: Store, budget: nat)
    requires Sound(w, s)
    ensures var t := PublishTools(w, pub, s, budget).store;
            && Sound(w, t)
            && ToolsMove(w, MainChannel(s), MainChannel(t))
            && (forall key :: key in s && key.Object? && key.scope == Engine ==> key in t && t[key] == s[key])
  {
    if pub.exactPush && SoundRelease(w, Tools, pub.release) && pub.githubMatches && CollisionFree(w, s, Tools, Identity(pub.release)) {
      MirrorIsSafe(w, pub, s, budget);
      FinishToolsIsRun(w, pub, s, budget);
      FinishToolsIsSafe(w, pub, UploadAll(Progress(s, budget, false), Tools, DirectoryOf(w, Tools, pub.release.manifest), pub.release, ToolsNames(pub)));
    }
  }

  // ---- every sequence of runs ---------------------------------------------

  lemma RunIsSafe(w: World, s: Store, run: Run)
    requires Sound(w, s)
    ensures Sound(w, Perform(w, s, run))
    ensures match run
            case EngineRun(_, _) => EngineMove(w, MainChannel(s), MainChannel(Perform(w, s, run)))
            case ToolsRun(_, _) => ToolsMove(w, MainChannel(s), MainChannel(Perform(w, s, run)))
    ensures forall key :: key in s && key.Object? && key.scope == Engine ==>
              key in Perform(w, s, run) && Perform(w, s, run)[key] == s[key]
  {
    match run {
      case EngineRun(pub, budget) => EngineRunIsSafe(w, pub, s, budget);
      case ToolsRun(pub, budget) => ToolsRunIsSafe(w, pub, s, budget);
    }
  }

  /** "Ahead" is a strict ancestor, so it composes. */
  ghost predicate Ancestry(w: World) {
    forall a, b, c :: w.compare(a, b) == Ahead && w.compare(b, c) == Ahead ==> w.compare(a, c) == Ahead
  }

  /** From one published channel to a later one: never withdrawn, and each part unchanged or at a strict
      descendant. */
  ghost predicate Progresses(w: World, before: Option<Channel>, after: Option<Channel>) {
    before.Some? ==>
      && after.Some?
      && (EnginePart(before.value) == EnginePart(after.value) || Advances(w, before.value.engine, after.value.engine))
      && (before.value.tools.Some? ==>
            && after.value.tools.Some?
            && (before.value.tools == after.value.tools
                || Advances(w, before.value.tools.value.sha256, after.value.tools.value.sha256)))
  }

  lemma MoveProgresses(w: World, a: Option<Channel>, b: Option<Channel>, c: Option<Channel>)
    requires Ancestry(w) && Progresses(w, a, b) && (EngineMove(w, b, c) || ToolsMove(w, b, c))
    ensures Progresses(w, a, c)
  {
    if a.Some? {
      assert EnginePart(a.value) == EnginePart(b.value) ==> a.value.engine == b.value.engine;
      assert c.Some?;
    }
  }

  /** Over every serialised history the main channel only ever names complete publications. */
  lemma {:induction false} HistoryIsSound(w: World, s: Store, runs: seq<Run>)
    requires Sound(w, s)
    ensures Sound(w, History(w, s, runs))
  {
    if runs != [] {
      HistoryIsSound(w, s, runs[..|runs| - 1]);
      RunIsSafe(w, History(w, s, runs[..|runs| - 1]), runs[|runs| - 1]);
    }
  }

  /** No engine object is changed or lost. */
  ghost predicate KeepsObjects(s: Store, t: Store) {
    forall key :: key in s && key.Object? && key.scope == Engine ==> key in t && t[key] == s[key]
  }

  /** What lies between two moments of a history. */
  ghost predicate Follows(w: World, before: Store, after: Store) {
    Progresses(w, MainChannel(before), MainChannel(after)) && KeepsObjects(before, after)
  }

  lemma FollowsItself(w: World, s: Store)
    ensures Follows(w, s, s)
  {
  }

  lemma RunFollows(w: World, s: Store, t: Store, run: Run)
    requires Sound(w, t) && Ancestry(w) && Follows(w, s, t)
    ensures Follows(w, s, Perform(w, t, run))
  {
    RunIsSafe(w, t, run);
    MoveProgresses(w, MainChannel(s), MainChannel(t), MainChannel(Perform(w, t, run)));
  }

  lemma {:induction false} HistoryOneMore(w: World, s: Store, runs: seq<Run>, k: nat)
    requires k < |runs|
    ensures History(w, s, runs[..k + 1]) == Perform(w, History(w, s, runs[..k]), runs[k])
  {
    assert runs[..k + 1][..k] == runs[..k];
  }

  /** Between any two moments of a history, engine and tools each stay or move to a strict descendant, and
      no engine object that was stored is ever changed or lost. */
  lemma {:induction false} HistoryProgresses(w: World, s: Store, runs: seq<Run>, i: nat, j: nat)
    requires Sound(w, s) && Ancestry(w) && i <= j <= |runs|
    ensures Follows(w, History(w, s, runs[..i]), History(w, s, runs[..j]))
  {
    hide *;
    if i == j {
      FollowsItself(w, History(w, s, runs[..i]));
    } else {
      HistoryProgresses(w, s, runs, i, j - 1);
      HistoryIsSound(w, s, runs[..j - 1]);
      HistoryOneMore(w, s, runs, j - 1);
      RunFollows(w, History(w, s, runs[..i]), History(w, s, runs[..j - 1]), runs[j - 1]);
    }
  }

  // ---- the engine index ---------------------------------------------------

  lemma {:induction false} SizesStay(w: World, s: Store, t: Store, d: Directory, rows: seq<Row>)
    requires forall key :: key in s && key.Object? && key.scope == Engine ==> key in t && t[key] == s[key]
    requires forall row :: row in rows ==> Object(Engine, d, row.name) in s
    ensures ArtifactSizes(w, t, Engine, d, rows) == ArtifactSizes(w, s, Engine, d, rows)
  {
    if rows != [] {
      SizesStay(w, s, t, d, rows[..|rows| - 1]);
      assert rows[|rows| - 1] in rows;
    }
  }

  /** A listed engine directory is complete by declared size, and every later index lists it with the same row. */
  lemma {:induction false} ListedStaysListed(w: World, s: Store, runs: seq<Run>, i: nat, j: nat, d: Directory)
    requires Sound(w, s) && Ancestry(w) && i <= j <= |runs|
    requires Listed(w, History(w, s, runs[..i]), Engine, d)
    ensures Listed(w, History(w, s, runs[..j]), Engine, d)
    ensures IndexRowOf(w, History(w, s, runs[..j]), Engine, d) == IndexRowOf(w, History(w, s, runs[..i]), Engine, d)
    ensures IndexRowOf(w, History(w, s, runs[..i]), Engine, d) in IndexOf(w, History(w, s, runs[..j]), Engine).rows
  {
    var before, after := History(w, s, runs[..i]), History(w, s, runs[..j]);
    HistoryProgresses(w, s, runs, i, j);
    var key := Object(Engine, d, ManifestName(Engine));
    forall row | row in ArtifactsOf(before[key])
      ensures Object(Engine, d, row.name) in before && HasSize(w, after, Object(Engine, d, row.name), row.size)
    {
      assert HasSize(w, before, Object(Engine, d, row.name), row.size);
    }
    SizesStay(w, before, after, d, ArtifactsOf(before[key]));
    assert key in after && IsManifestKey(Engine, key) && key.directory == d;
  }
}
