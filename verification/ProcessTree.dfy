/**
  `discover_process_tree` (scripts/capture_process_memory.py): a breadth-first walk over a `/proc` that
  may answer differently on every read.

  Each read is numbered, and `Proc` is the answer to each numbered read; a frozen `/proc` is one whose
  answers do not depend on the number. A `children` file is its length and its tokens, where a token that
  is no integer is `None`.
 */
module ProcessTree {
  import opened Wrappers
  import opened Sorting

  const MAX_PROCESS_COUNT := 256
  const MAX_TREE_TASK_COUNT := 8192
  const MAX_TREE_CHILDREN_BYTES := 64 * 1024 * 1024

  datatype Code =
    | ReadError(reason: string) | PidReused | NoTasks
    | ProcessLimit | TaskLimit | ReadLimit | InvalidTree

  datatype Children = Children(length: nat, tokens: seq<Option<int>>)

  datatype Proc = Proc(
    startTime: (nat, int) -> Result<nat, Code>,
    tasks: (nat, int) -> Result<seq<int>, Code>,
    children: (nat, int, int) -> Result<Children, Code>)

  datatype Found = Found(pid: int, parent: Option<int>, startTime: nat)

  datatype Note = Note(pid: int, code: Code)

  datatype Discovery = Discovery(processes: seq<Found>, errors: seq<Note>)

  /** `_numeric_task_ids`: a sorted set, refused when too long or empty. */
  function TaskIds(listing: Result<seq<int>, Code>): Result<seq<int>, Code> {
    match listing
    case Failure(code) => Failure(code)
    case Success(ids) =>
      if |ids| > MAX_TREE_TASK_COUNT then Failure(TaskLimit)
      else if ids == [] then Failure(NoTasks)
      else Success(SortedSet(IntLess, ids))
  }

  // ---- what a frozen /proc says -------------------------------------------

  ghost predicate Frozen(proc: Proc) {
    && (forall t, pid :: proc.startTime(t, pid) == proc.startTime(0, pid))
    && (forall t, pid :: proc.tasks(t, pid) == proc.tasks(0, pid))
    && (forall t, pid, task :: proc.children(t, pid, task) == proc.children(0, pid, task))
  }

  lemma FrozenAnswers(proc: Proc, t: nat, pid: int, task: int)
    requires Frozen(proc)
    ensures proc.startTime(t, pid) == proc.startTime(0, pid)
    ensures proc.tasks(t, pid) == proc.tasks(0, pid)
    ensures proc.children(t, pid, task) == proc.children(0, pid, task)
  {
  }

  function Values(tokens: seq<Option<int>>): seq<int> {
    if tokens == [] then []
    else Values(tokens[..|tokens| - 1]) + if tokens[|tokens| - 1].Some? then [tokens[|tokens| - 1].value] else []
  }

  /** The child pids listed by the given tasks of a process. */
  function Listed(proc: Proc, pid: int, tasks: seq<int>): seq<int> {
    if tasks == [] then []
    else
      Listed(proc, pid, tasks[..|tasks| - 1]) +
      match proc.children(0, pid, tasks[|tasks| - 1])
      case Success(c) => Values(c.tokens)
      case Failure(_) => []
  }

  function ListedBytes(proc: Proc, pid: int, tasks: seq<int>): nat {
    if tasks == [] then 0
    else
      ListedBytes(proc, pid, tasks[..|tasks| - 1]) +
      match proc.children(0, pid, tasks[|tasks| - 1])
      case Success(c) => c.length
      case Failure(_) => 0
  }

  function Tasks(proc: Proc, pid: int): seq<int> {
    match TaskIds(proc.tasks(0, pid))
    case Success(ids) => ids
    case Failure(_) => []
  }

  function Kids(proc: Proc, pid: int): seq<int> {
    Listed(proc, pid, Tasks(proc, pid))
  }

  predicate GoodTokens(tokens: seq<Option<int>>) {
    forall i :: 0 <= i < |tokens| ==> tokens[i].Some? && tokens[i].value > 0
  }

  predicate GoodChildren(c: Result<Children, Code>) {
    c.Success? && GoodTokens(c.value.tokens)
  }

  /** Every read about this process succeeds and lists only process ids. */
  ghost predicate Healthy(proc: Proc, pid: int) {
    && proc.startTime(0, pid).Success?
    && TaskIds(proc.tasks(0, pid)).Success?
    && forall task :: task in Tasks(proc, pid) ==> GoodChildren(proc.children(0, pid, task))
  }

  ghost predicate IsPath(proc: Proc, root: int, path: seq<int>) {
    && path != [] && path[0] == root
    && forall i, j :: 0 <= i < j < |path| && j == i + 1 ==> path[j] in Kids(proc, path[i])
  }

  ghost predicate Leads(proc: Proc, root: int, path: seq<int>, pid: int) {
    IsPath(proc, root, path) && path[|path| - 1] == pid
  }

  ghost predicate Reachable(proc: Proc, root: int, pid: int) {
    exists path :: Leads(proc, root, path, pid)
  }

  /** `d` is the length of a shortest chain of children from the root. */
  ghost predicate Distance(proc: Proc, root: int, pid: int, d: nat) {
    && (exists path :: Leads(proc, root, path, pid) && |path| == d + 1)
    && (forall path :: Leads(proc, root, path, pid) ==> d + 1 <= |path|)
  }

  /** A frozen snapshot without a failing read anywhere below the root. */
  ghost predicate Snapshot(proc: Proc, root: int) {
    Frozen(proc) && forall pid :: Reachable(proc, root, pid) ==> Healthy(proc, pid)
  }

  function TaskTotal(proc: Proc, pids: seq<int>): nat {
    if pids == [] then 0 else TaskTotal(proc, pids[..|pids| - 1]) + |Tasks(proc, pids[|pids| - 1])|
  }

  function ByteTotal(proc: Proc, pids: seq<int>): nat {
    if pids == [] then 0
    else ByteTotal(proc, pids[..|pids| - 1]) + ListedBytes(proc, pids[|pids| - 1], Tasks(proc, pids[|pids| - 1]))
  }

  predicate WithinLimits(proc: Proc, pids: seq<int>) {
    |pids| <= MAX_PROCESS_COUNT && TaskTotal(proc, pids) <= MAX_TREE_TASK_COUNT && ByteTotal(proc, pids) <= MAX_TREE_CHILDREN_BYTES
  }

  /** Distinct processes below the root that together break a limit. */
  ghost predicate Excess(proc: Proc, root: int, pids: seq<int>) {
    && Distinct(pids)
    && AllReachable(proc, root, pids)
    && !WithinLimits(proc, pids)
  }

  ghost predicate AllReachable(proc: Proc, root: int, pids: seq<int>) {
    forall i :: 0 <= i < |pids| ==> Reachable(proc, root, pids[i])
  }

  function Pids(found: seq<Found>): (pids: seq<int>)
    ensures |pids| == |found| && forall i :: 0 <= i < |pids| ==> pids[i] == found[i].pid
  {
    seq(|found|, i requires 0 <= i < |found| => found[i].pid)
  }

  /** The root comes first and every other process after its parent. */
  ghost predicate ParentsFirst(found: seq<Found>, root: int) {
    forall i :: 0 <= i < |found| ==>
      match found[i].parent
      case None => i == 0 && found[i].pid == root
      case Some(parent) => exists j :: 0 <= j < i && found[j].pid == parent
  }

  // ---- paths --------------------------------------------------------------

  lemma RootIsReachable(proc: Proc, root: int)
    ensures Leads(proc, root, [root], root) && Reachable(proc, root, root)
  {
    var path := [root];
    assert IsPath(proc, root, path);
    assert Leads(proc, root, path, root);
  }

  lemma ChildIsReachable(proc: Proc, root: int, path: seq<int>, pid: int, child: int)
    requires Leads(proc, root, path, pid) && child in Kids(proc, pid)
    ensures Leads(proc, root, path + [child], child) && Reachable(proc, root, child)
  {
    var longer := path + [child];
    assert longer[|path|] == child && longer[0] == root;
    forall i, j | 0 <= i < j < |longer| && j == i + 1 ensures longer[j] in Kids(proc, longer[i]) {
      assert longer[i] == path[i];
      if j < |path| {
        assert longer[j] == path[j];
      } else {
        assert path[i] == pid;
      }
    }
    assert Leads(proc, root, longer, child);
  }

  /** Depths that grow by at most one along every child edge are lower bounds on path lengths. */
  ghost predicate Relaxed(proc: Proc, depth: map<int, nat>, pid: int)
    requires pid in depth
  {
    forall c :: c in Kids(proc, pid) ==> c in depth && depth[c] <= depth[pid] + 1
  }

  lemma {:induction false} ClosedDepthsBoundPaths(proc: Proc, root: int, depth: map<int, nat>, path: seq<int>)
    requires root in depth && depth[root] == 0
    requires forall pid :: pid in depth ==> Relaxed(proc, depth, pid)
    requires IsPath(proc, root, path)
    ensures path[|path| - 1] in depth && depth[path[|path| - 1]] + 1 <= |path|
  {
    var n := |path| - 1;
    assert path[n] == path[|path| - 1];
    if n > 0 {
      var shorter := path[..n];
      assert forall i :: 0 <= i < n ==> shorter[i] == path[i];
      ClosedDepthsBoundPaths(proc, root, depth, shorter);
      assert shorter[|shorter| - 1] == path[n - 1];
      assert path[n] in Kids(proc, path[n - 1]);
      assert Relaxed(proc, depth, path[n - 1]);
    }
  }

  // ---- reading the children of one process --------------------------------

  lemma {:induction false} ListedOfGood(proc: Proc, pid: int, tasks: seq<int>, k: nat)
    requires k < |tasks| && GoodChildren(proc.children(0, pid, tasks[k]))
    ensures Listed(proc, pid, tasks[..k + 1]) ==
            Listed(proc, pid, tasks[..k]) + Values(proc.children(0, pid, tasks[k]).value.tokens)
    ensures ListedBytes(proc, pid, tasks[..k + 1]) ==
            ListedBytes(proc, pid, tasks[..k]) + proc.children(0, pid, tasks[k]).value.length
  {
    assert tasks[..k + 1][..k] == tasks[..k];
  }

  lemma {:induction false} ListedBytesGrow(proc: Proc, pid: int, tasks: seq<int>, k: nat)
    requires k <= |tasks|
    ensures ListedBytes(proc, pid, tasks[..k]) <= ListedBytes(proc, pid, tasks)
  {
    if k < |tasks| {
      var n := |tasks| - 1;
      ListedBytesGrow(proc, pid, tasks[..n], k);
      assert tasks[..n][..k] == tasks[..k];
    } else {
      assert tasks[..k] == tasks;
    }
  }

  // ---- who names whom -----------------------------------------------------

  predicate Mentions(answer: Result<Children, Code>, child: int) {
    answer.Success? && Some(child) in answer.value.tokens
  }

  /** Read number `t`, of the `children` file of one of these tasks, names the child. */
  ghost predicate MentionedBy(proc: Proc, pid: int, tasks: seq<int>, child: int) {
    exists t: nat, task: int :: task in tasks && Mentions(proc.children(t, pid, task), child)
  }

  /** Some reads of the parent list a task, and name the child in that task's `children` file. */
  ghost predicate Names(proc: Proc, parent: int, child: int) {
    exists t: nat :: TaskIds(proc.tasks(t, parent)).Success?
                     && MentionedBy(proc, parent, TaskIds(proc.tasks(t, parent)).value, child)
  }

  lemma {:induction false} ValuesAreTokens(tokens: seq<Option<int>>, v: int)
    ensures v in Values(tokens) <==> Some(v) in tokens
  {
    if tokens != [] {
      var n := |tokens| - 1;
      ValuesAreTokens(tokens[..n], v);
      assert tokens == tokens[..n] + [tokens[n]];
    }
  }

  lemma {:induction false} MentionedIsListed(proc: Proc, pid: int, tasks: seq<int>, task: int, child: int)
    requires task in tasks && Mentions(proc.children(0, pid, task), child)
    ensures child in Listed(proc, pid, tasks)
  {
    var n := |tasks| - 1;
    if tasks[n] == task {
      ValuesAreTokens(proc.children(0, pid, task).value.tokens, child);
    } else {
      assert tasks == tasks[..n] + [tasks[n]];
      MentionedIsListed(proc, pid, tasks[..n], task, child);
    }
  }

  /** On a frozen `/proc`, whoever named a child at some read lists it. */
  lemma NamedIsKid(proc: Proc, parent: int, child: int)
    requires Frozen(proc) && Names(proc, parent, child)
    ensures child in Kids(proc, parent)
  {
    var s: nat :| TaskIds(proc.tasks(s, parent)).Success?
                  && MentionedBy(proc, parent, TaskIds(proc.tasks(s, parent)).value, child);
    FrozenAnswers(proc, s, parent, 0);
    var tasks := TaskIds(proc.tasks(s, parent)).value;
    var t: nat, task: int :| task in tasks && Mentions(proc.children(t, parent, task), child);
    FrozenAnswers(proc, t, parent, task);
    MentionedIsListed(proc, parent, tasks, task, child);
  }

  /** Where an entry comes from: its start time was read, and its parent named it. */
  ghost predicate HasOrigin(proc: Proc, f: Found) {
    && (exists t: nat :: proc.startTime(t, f.pid) == Success(f.startTime))
    && (f.parent.Some? ==> Names(proc, f.parent.value, f.pid))
  }

  ghost predicate Traced(proc: Proc, found: seq<Found>) {
    forall f :: f in found ==> HasOrigin(proc, f)
  }

  lemma TracedOfConcat(proc: Proc, a: seq<Found>, b: seq<Found>)
    requires Traced(proc, a) && Traced(proc, b)
    ensures Traced(proc, a + b)
  {
  }

  // ---- reading tokens ------------------------------------------------------

  /** `children.split()` and `int`: every token must be a positive integer. */
  method ReadTokens(tokens: seq<Option<int>>) returns (pids: Result<seq<int>, Code>)
    ensures pids.Success? <==> GoodTokens(tokens)
    ensures pids.Success? ==> pids.value == Values(tokens)
  {
    var children: seq<int> := [];
    for i := 0 to |tokens|
      invariant children == Values(tokens[..i])
      invariant GoodTokens(tokens[..i])
    {
      assert tokens[..i + 1][..i] == tokens[..i];
      assert forall k :: 0 <= k < i ==> tokens[k] == tokens[..i][k];
      if tokens[i] == None || tokens[i].value <= 0 {
        return Failure(InvalidTree);
      }
      children := children + [tokens[i].value];
    }
    assert tokens[..|tokens|] == tokens;
    return Success(children);
  }

  ghost predicate GoodTasks(proc: Proc, pid: int, tasks: seq<int>) {
    forall task :: task in tasks ==> GoodChildren(proc.children(0, pid, task))
  }

  lemma MentionedNow(proc: Proc, t: nat, pid: int, tasks: seq<int>, task: int)
    requires task in tasks && proc.children(t, pid, task).Success?
    ensures forall c :: c in Values(proc.children(t, pid, task).value.tokens) ==> MentionedBy(proc, pid, tasks, c)
  {
    forall c | c in Values(proc.children(t, pid, task).value.tokens) ensures MentionedBy(proc, pid, tasks, c) {
      ValuesAreTokens(proc.children(t, pid, task).value.tokens, c);
      assert Mentions(proc.children(t, pid, task), c);
    }
  }

  method ReadChildren(proc: Proc, before: nat, pid: int, tasks: seq<int>, bytesBefore: nat)
    returns (read: Result<(seq<int>, nat), Code>, errors: seq<Note>, clock: nat)
    requires bytesBefore <= MAX_TREE_CHILDREN_BYTES
    ensures read.Success? ==> read.value.1 <= MAX_TREE_CHILDREN_BYTES
    ensures read.Success? ==> forall c :: c in read.value.0 ==> MentionedBy(proc, pid, tasks, c)
    ensures Frozen(proc) && GoodTasks(proc, pid, tasks) && read.Success? ==>
              read.value == (Listed(proc, pid, tasks), bytesBefore + ListedBytes(proc, pid, tasks)) && errors == []
    ensures Frozen(proc) && GoodTasks(proc, pid, tasks) && read.Failure? ==>
              bytesBefore + ListedBytes(proc, pid, tasks) > MAX_TREE_CHILDREN_BYTES
  {
    var children: seq<int> := [];
    var bytes: nat := bytesBefore;
    errors, clock := [], before;
    ghost var calm := Frozen(proc) && GoodTasks(proc, pid, tasks);
    for k := 0 to |tasks|
      invariant bytes <= MAX_TREE_CHILDREN_BYTES
      invariant forall c :: c in children ==> MentionedBy(proc, pid, tasks, c)
      invariant calm ==> errors == [] && children == Listed(proc, pid, tasks[..k])
      invariant calm ==> bytes == bytesBefore + ListedBytes(proc, pid, tasks[..k])
    {
      var answer := proc.children(clock, pid, tasks[k]);
      if calm {
        FrozenAnswers(proc, clock, pid, tasks[k]);
        assert tasks[k] in tasks && answer == proc.children(0, pid, tasks[k]);
        ListedOfGood(proc, pid, tasks, k);
        ListedBytesGrow(proc, pid, tasks, k + 1);
      }
      clock := clock + 1;
      if answer.Failure? {
        errors := errors + [Note(pid, answer.error)];
        continue;
      }
      bytes := bytes + answer.value.length;
      if bytes > MAX_TREE_CHILDREN_BYTES {
        return Failure(ReadLimit), errors, clock;
      }
      var listed := ReadTokens(answer.value.tokens);
      if listed.Failure? {
        return Failure(listed.error), errors, clock;
      }
      MentionedNow(proc, clock - 1, pid, tasks, tasks[k]);
      children := children + listed.value;
    }
    assert tasks[..|tasks|] == tasks;
    read := Success((children, bytes));
  }

  // ---- enqueueing them ----------------------------------------------------

  function PidSet(found: seq<Found>): set<int> {
    set f | f in found :: f.pid
  }

  /** What the inner loop over the sorted child pids adds to the queue. */
  ghost predicate IsAdded(queuedPids: set<int>, parent: int, children: seq<int>, added: seq<Found>) {
    && Distinct(Pids(added))
    && forall f :: f in added ==> f.pid in children && f.pid !in queuedPids && f.parent == Some(parent)
  }

  /** Without failing reads, every child that was not queued yet is added, with its own start time. */
  ghost predicate IsFullyAdded(proc: Proc, queuedPids: set<int>, children: seq<int>, added: seq<Found>) {
    && (forall c :: c in children ==> c in queuedPids || c in PidSet(added))
    && (forall f :: f in added ==> proc.startTime(0, f.pid) == Success(f.startTime))
  }

  /** The children whose start time is asked for, in order. */
  function Asked(children: seq<int>, queuedPids: set<int>): seq<int> {
    if children == [] then []
    else
      var n := |children| - 1;
      Asked(children[..n], queuedPids) + if children[n] in queuedPids then [] else [children[n]]
  }

  function FoundFrom(child: int, parent: int, answer: Result<nat, Code>): seq<Found> {
    if answer.Success? then [Found(child, Some(parent), answer.value)] else []
  }

  function NotedFrom(child: int, answer: Result<nat, Code>): seq<Note> {
    if answer.Failure? then [Note(child, answer.error)] else []
  }

  /** What is queued when the start times of `asked` are read one after the other from read number `t` on. */
  function AddedFrom(proc: Proc, t: nat, parent: int, asked: seq<int>): seq<Found> {
    if asked == [] then []
    else
      var n := |asked| - 1;
      AddedFrom(proc, t, parent, asked[..n]) + FoundFrom(asked[n], parent, proc.startTime(t + n, asked[n]))
  }

  function NotesFrom(proc: Proc, t: nat, asked: seq<int>): seq<Note> {
    if asked == [] then []
    else
      var n := |asked| - 1;
      NotesFrom(proc, t, asked[..n]) + NotedFrom(asked[n], proc.startTime(t + n, asked[n]))
  }

  lemma {:induction false} AskedIsRest(children: seq<int>, queuedPids: set<int>)
    requires Distinct(children)
    ensures Distinct(Asked(children, queuedPids))
    ensures forall c :: c in Asked(children, queuedPids) <==> c in children && c !in queuedPids
  {
    if children != [] {
      var n := |children| - 1;
      AskedIsRest(children[..n], queuedPids);
      assert children == children[..n] + [children[n]];
      assert children[n] !in children[..n];
    }
  }

  /** The entries are asked children under this parent, with a start time that was read. */
  lemma {:induction false} AddedAreAsked(proc: Proc, t: nat, parent: int, asked: seq<int>)
    ensures forall f :: f in AddedFrom(proc, t, parent, asked) ==> f.pid in asked && f.parent == Some(parent)
    ensures forall f :: f in AddedFrom(proc, t, parent, asked) ==>
              exists s: nat :: proc.startTime(s, f.pid) == Success(f.startTime)
  {
    if asked != [] {
      var n := |asked| - 1;
      AddedAreAsked(proc, t, parent, asked[..n]);
      assert asked == asked[..n] + [asked[n]];
    }
  }

  lemma {:induction false} AddedAreDistinct(proc: Proc, t: nat, parent: int, asked: seq<int>)
    requires Distinct(asked)
    ensures Distinct(Pids(AddedFrom(proc, t, parent, asked)))
  {
    if asked != [] {
      var n := |asked| - 1;
      var front, last := AddedFrom(proc, t, parent, asked[..n]), FoundFrom(asked[n], parent, proc.startTime(t + n, asked[n]));
      AddedAreDistinct(proc, t, parent, asked[..n]);
      AddedAreAsked(proc, t, parent, asked[..n]);
      assert asked[n] !in asked[..n];
      DistinctOfConcat(front, last);
    }
  }

  lemma {:induction false} AddedIsAdded(proc: Proc, t: nat, parent: int, children: seq<int>, queuedPids: set<int>)
    requires Distinct(children)
    ensures IsAdded(queuedPids, parent, children, AddedFrom(proc, t, parent, Asked(children, queuedPids)))
  {
    AskedIsRest(children, queuedPids);
    AddedAreAsked(proc, t, parent, Asked(children, queuedPids));
    AddedAreDistinct(proc, t, parent, Asked(children, queuedPids));
  }

  lemma {:induction false} CalmAnswers(proc: Proc, t: nat, parent: int, asked: seq<int>)
    requires Frozen(proc) && forall c :: c in asked ==> proc.startTime(0, c).Success?
    ensures NotesFrom(proc, t, asked) == []
    ensures forall c :: c in asked ==> c in PidSet(AddedFrom(proc, t, parent, asked))
    ensures forall f :: f in AddedFrom(proc, t, parent, asked) ==> proc.startTime(0, f.pid) == Success(f.startTime)
  {
    if asked != [] {
      var n := |asked| - 1;
      assert asked == asked[..n] + [asked[n]];
      CalmAnswers(proc, t, parent, asked[..n]);
      FrozenAnswers(proc, t + n, asked[n], 0);
      assert asked[n] in asked;
      var front, last := AddedFrom(proc, t, parent, asked[..n]), FoundFrom(asked[n], parent, proc.startTime(t + n, asked[n]));
      PidSetOfConcat(front, last);
      assert last[0] in last && PidSet(last) == {asked[n]};
    }
  }

  /** The inner loop: every child that is not queued yet is asked for its start time, once, and is queued with the
      answer, or noted when the read fails. */
  method Enqueue(proc: Proc, before: nat, parent: int, children: seq<int>, queuedBefore: set<int>)
    returns (added: seq<Found>, errors: seq<Note>, queuedPids: set<int>, clock: nat)
    requires Distinct(children)
    ensures added == AddedFrom(proc, before, parent, Asked(children, queuedBefore))
    ensures errors == NotesFrom(proc, before, Asked(children, queuedBefore))
    ensures clock == before + |Asked(children, queuedBefore)|
    ensures queuedPids == queuedBefore + PidSet(added)
  {
    added, errors, queuedPids, clock := [], [], queuedBefore, before;
    for k := 0 to |children|
      invariant Enqueued(proc, before, parent, children, queuedBefore, k, added, errors, queuedPids, clock)
    {
      var child := children[k];
      if child in queuedPids {
        SkipChild(proc, before, parent, children, queuedBefore, k, added, errors, queuedPids, clock);
        continue;
      }
      var answer := proc.startTime(clock, child);
      AskChild(proc, before, parent, children, queuedBefore, k, added, errors, queuedPids, clock);
      clock := clock + 1;
      if answer.Failure? {
        errors := errors + [Note(child, answer.error)];
        continue;
      }
      added := added + [Found(child, Some(parent), answer.value)];
      queuedPids := queuedPids + {child};
    }
    assert children[..|children|] == children;
  }

  /** The loop's state after `k` children. */
  ghost predicate Enqueued(proc: Proc, t: nat, parent: int, children: seq<int>, before: set<int>, k: nat,
                           added: seq<Found>, errors: seq<Note>, queuedPids: set<int>, clock: nat) {
    && k <= |children| && IsAnswered(proc, t, parent, Asked(children[..k], before), added, errors, clock)
    && queuedPids == before + PidSet(added)
  }

  lemma SkipChild(proc: Proc, t: nat, parent: int, children: seq<int>, before: set<int>, k: nat,
                  added: seq<Found>, errors: seq<Note>, queuedPids: set<int>, clock: nat)
    requires Distinct(children) && k < |children| && children[k] in queuedPids
    requires Enqueued(proc, t, parent, children, before, k, added, errors, queuedPids, clock)
    ensures Enqueued(proc, t, parent, children, before, k + 1, added, errors, queuedPids, clock)
  {
    QueuedBefore(proc, t, parent, children, before, k);
    AskedNext(children, before, k);
    assert Asked(children[..k], before) + [] == Asked(children[..k], before);
  }

  lemma AskChild(proc: Proc, t: nat, parent: int, children: seq<int>, before: set<int>, k: nat,
                 added: seq<Found>, errors: seq<Note>, queuedPids: set<int>, clock: nat)
    requires Distinct(children) && k < |children| && children[k] !in queuedPids
    requires Enqueued(proc, t, parent, children, before, k, added, errors, queuedPids, clock)
    ensures var child, answer := children[k], proc.startTime(clock, children[k]);
            if answer.Success? then
              Enqueued(proc, t, parent, children, before, k + 1,
                       added + [Found(child, Some(parent), answer.value)], errors, queuedPids + {child}, clock + 1)
            else
              Enqueued(proc, t, parent, children, before, k + 1, added, errors + [Note(child, answer.error)], queuedPids, clock + 1)
  {
    var child, answer := children[k], proc.startTime(clock, children[k]);
    AskedNext(children, before, k);
    AnswerNext(proc, t, parent, Asked(children[..k], before), added, errors, clock, child);
    if answer.Success? {
      PidSetOfConcat(added, [Found(child, Some(parent), answer.value)]);
      assert PidSet([Found(child, Some(parent), answer.value)]) == {child};
      assert errors + [] == errors;
    } else {
      assert added + [] == added;
    }
  }

  /** The loop's state once these children were asked for. */
  ghost predicate IsAnswered(proc: Proc, t: nat, parent: int, asked: seq<int>, added: seq<Found>, errors: seq<Note>,
                             clock: nat) {
    added == AddedFrom(proc, t, parent, asked) && errors == NotesFrom(proc, t, asked) && clock == t + |asked|
  }

  lemma {:induction false} AskedNext(children: seq<int>, queuedPids: set<int>, k: nat)
    requires k < |children|
    ensures Asked(children[..k + 1], queuedPids)
         == Asked(children[..k], queuedPids) + if children[k] in queuedPids then [] else [children[k]]
  {
    assert children[..k + 1][..k] == children[..k];
  }

  lemma AnswerNext(proc: Proc, t: nat, parent: int, asked: seq<int>, added: seq<Found>, errors: seq<Note>,
                   clock: nat, child: int)
    requires IsAnswered(proc, t, parent, asked, added, errors, clock)
    ensures var answer := proc.startTime(clock, child);
            IsAnswered(proc, t, parent, asked + [child], added + FoundFrom(child, parent, answer),
                       errors + NotedFrom(child, answer), clock + 1)
  {
    assert (asked + [child])[..|asked|] == asked;
  }

  /** A child is queued when its turn comes exactly when it was before: the children are distinct. */
  lemma {:induction false} QueuedBefore(proc: Proc, t: nat, parent: int, children: seq<int>, queuedPids: set<int>, k: nat)
    requires Distinct(children) && k < |children|
    ensures children[k] !in PidSet(AddedFrom(proc, t, parent, Asked(children[..k], queuedPids)))
  {
    AskedIsRest(children[..k], queuedPids);
    AddedAreAsked(proc, t, parent, Asked(children[..k], queuedPids));
    assert children[k] !in children[..k];
  }

  // ---- the walk -----------------------------------------------------------

  /** The variables of the main loop; `depth` is proof bookkeeping. */
  datatype Walk = Walk(
    discovered: seq<Found>,
    queue: seq<Found>,
    queuedPids: set<int>,
    seen: set<int>,
    depth: map<int, nat>)

  /** What holds against any `/proc`. */
  ghost predicate Consistent(w: Walk, root: int) {
    && |w.discovered| <= MAX_PROCESS_COUNT
    && w.queuedPids == w.seen + PidSet(w.queue)
    && w.seen !! PidSet(w.queue)
    && Distinct(Pids(w.queue))
    && Distinct(Pids(w.discovered)) && PidSet(w.discovered) <= w.seen
    && ParentsFirst(w.discovered, root)
    && (forall f :: f in w.queue ==>
          match f.parent
          case None => f.pid == root && w.discovered == []
          case Some(parent) => parent in PidSet(w.discovered))
    && w.depth.Keys == w.queuedPids
  }

  ghost predicate IsDepth(proc: Proc, root: int, pid: int, d: nat) {
    exists path :: Leads(proc, root, path, pid) && |path| == d + 1
  }

  /** Parent links step down exactly one level. */
  ghost predicate Leveled(found: seq<Found>, depth: map<int, nat>) {
    forall f :: f in found ==>
      (f.pid in depth && (f.parent.Some? ==> f.parent.value in depth && depth[f.pid] == depth[f.parent.value] + 1))
  }

  function DepthOf(depth: map<int, nat>, pid: int): nat {
    if pid in depth then depth[pid] else 0
  }

  function QueueDepths(w: Walk): (ds: seq<nat>)
    ensures |ds| == |w.queue| && forall i :: 0 <= i < |ds| ==> ds[i] == DepthOf(w.depth, w.queue[i].pid)
  {
    seq(|w.queue|, i requires 0 <= i < |w.queue| => DepthOf(w.depth, w.queue[i].pid))
  }

  /** In order, and at most two levels. */
  ghost predicate TwoLevels(ds: seq<nat>) {
    && (forall i, j :: 0 <= i < j < |ds| ==> ds[i] <= ds[j])
    && (forall i :: 0 <= i < |ds| ==> ds[i] <= ds[0] + 1)
  }

  /** The queue holds two neighbouring levels in order, and nothing seen is deeper than its head. */
  ghost predicate Layered(w: Walk) {
    && TwoLevels(QueueDepths(w))
    && (w.queue != [] ==> forall pid :: pid in w.seen ==> DepthOf(w.depth, pid) <= QueueDepths(w)[0])
  }

  ghost predicate RealDepths(proc: Proc, root: int, w: Walk) {
    forall pid :: pid in w.queuedPids ==> IsDepth(proc, root, pid, DepthOf(w.depth, pid))
  }

  ghost predicate AllRelaxed(proc: Proc, w: Walk) {
    forall pid :: pid in w.seen ==> pid in w.depth && Relaxed(proc, w.depth, pid)
  }

  ghost predicate TrueStart(proc: Proc, found: seq<Found>) {
    forall f :: f in found ==> proc.startTime(0, f.pid) == Success(f.startTime)
  }

  /** What holds in addition on a snapshot. */
  ghost predicate Calm(proc: Proc, root: int, w: Walk) {
    && Consistent(w, root)
    && w.seen == PidSet(w.discovered)
    && root in w.depth && w.depth[root] == 0
    && RealDepths(proc, root, w)
    && AllRelaxed(proc, w)
    && Layered(w)
    && Leveled(w.discovered, w.depth) && Leveled(w.queue, w.depth)
    && TrueStart(proc, w.discovered) && TrueStart(proc, w.queue)
  }

  /** The head could not be confirmed: it is dropped. */
  function Drop(w: Walk): Walk
    requires w.queue != []
  {
    w.(queue := w.queue[1..], seen := w.seen + {w.queue[0].pid})
  }

  /** The head is discovered, and `added` joins the end of the queue one level below it. */
  function Advance(w: Walk, added: seq<Found>): Walk
    requires w.queue != [] && w.queue[0].pid in w.depth
  {
    var head := w.queue[0];
    Walk(w.discovered + [head], w.queue[1..] + added, w.queuedPids + PidSet(added), w.seen + {head.pid},
         map pid | pid in w.depth.Keys + PidSet(added) :: if pid in w.depth then w.depth[pid] else w.depth[head.pid] + 1)
  }

  lemma PidSetOfConcat(a: seq<Found>, b: seq<Found>)
    ensures PidSet(a + b) == PidSet(a) + PidSet(b)
  {
  }

  lemma HeadOfQueue(queue: seq<Found>)
    requires queue != [] && Distinct(Pids(queue))
    ensures PidSet(queue) == {queue[0].pid} + PidSet(queue[1..])
    ensures queue[0].pid !in PidSet(queue[1..])
    ensures Distinct(Pids(queue[1..]))
  {
    assert queue == [queue[0]] + queue[1..];
    var rest := queue[1..];
    assert forall i :: 0 <= i < |rest| ==> Pids(rest)[i] == Pids(queue)[i + 1];
    assert forall i :: 0 < i < |queue| ==> Pids(queue)[i] != Pids(queue)[0];
    assert forall i :: 0 <= i < |rest| ==> rest[i].pid != queue[0].pid;
  }

  lemma DistinctOfConcat(a: seq<Found>, b: seq<Found>)
    requires Distinct(Pids(a)) && Distinct(Pids(b)) && PidSet(a) !! PidSet(b)
    ensures Distinct(Pids(a + b))
  {
    var all := Pids(a + b);
    forall i, j | 0 <= i < j < |all| ensures all[i] != all[j] {
      if i < |a| && |a| <= j {
        assert a[i] in a && b[j - |a|] in b;
        assert a[i].pid in PidSet(a) && b[j - |a|].pid in PidSet(b);
      } else if j < |a| {
        assert Pids(a)[i] != Pids(a)[j];
      } else {
        assert Pids(b)[i - |a|] != Pids(b)[j - |a|];
      }
    }
  }

  lemma DropIsConsistent(w: Walk, root: int)
    requires Consistent(w, root) && w.queue != []
    ensures Consistent(Drop(w), root)
  {
    HeadOfQueue(w.queue);
  }

  lemma DiscoverKeepsParents(discovered: seq<Found>, head: Found, root: int)
    requires ParentsFirst(discovered, root)
    requires match head.parent
             case None => head.pid == root && discovered == []
             case Some(parent) => parent in PidSet(discovered)
    ensures ParentsFirst(discovered + [head], root)
  {
    var all := discovered + [head];
    forall i | 0 <= i < |all|
      ensures match all[i].parent
              case None => i == 0 && all[i].pid == root
              case Some(parent) => exists j :: 0 <= j < i && all[j].pid == parent
    {
      if i < |discovered| {
        assert all[i] == discovered[i];
        if all[i].parent.Some? {
          var j :| 0 <= j < i && discovered[j].pid == all[i].parent.value;
          assert all[j].pid == all[i].parent.value;
        }
      } else if head.parent.Some? {
        var j :| 0 <= j < |discovered| && discovered[j].pid == head.parent.value;
        assert all[j].pid == head.parent.value;
      }
    }
  }

  lemma AdvanceIsConsistent(w: Walk, root: int, children: seq<int>, added: seq<Found>)
    requires Consistent(w, root) && w.queue != [] && |w.discovered| < MAX_PROCESS_COUNT
    requires IsAdded(w.queuedPids, w.queue[0].pid, children, added)
    ensures w.queue[0].pid in w.depth && Consistent(Advance(w, added), root)
  {
    var head := w.queue[0];
    assert head in w.queue && head.pid in PidSet(w.queue);
    var v := Advance(w, added);
    HeadOfQueue(w.queue);
    PidSetOfConcat(w.queue[1..], added);
    PidSetOfConcat(w.discovered, [head]);
    assert PidSet([head]) == {head.pid};
    DistinctOfConcat(w.queue[1..], added);
    assert Distinct(Pids([head]));
    DistinctOfConcat(w.discovered, [head]);
    DiscoverKeepsParents(w.discovered, head, root);
  }

  /** One calm step: the head is discovered and all of its new children are queued. */
  ghost predicate CalmStep(proc: Proc, root: int, w: Walk, children: seq<int>, added: seq<Found>) {
    && Calm(proc, root, w) && w.queue != [] && |w.discovered| < MAX_PROCESS_COUNT
    && (forall c :: c in children <==> c in Kids(proc, w.queue[0].pid))
    && IsAdded(w.queuedPids, w.queue[0].pid, children, added)
    && IsFullyAdded(proc, w.queuedPids, children, added)
  }

  lemma AdvanceDepths(proc: Proc, root: int, w: Walk, added: seq<Found>)
    requires w.queue != [] && w.queue[0].pid in w.queuedPids && w.depth.Keys == w.queuedPids
    requires RealDepths(proc, root, w)
    requires forall f :: f in added ==> f.pid !in w.queuedPids && f.pid in Kids(proc, w.queue[0].pid)
    ensures RealDepths(proc, root, Advance(w, added))
  {
    var head := w.queue[0];
    var path :| Leads(proc, root, path, head.pid) && |path| == DepthOf(w.depth, head.pid) + 1;
    forall pid | pid in PidSet(added) ensures IsDepth(proc, root, pid, w.depth[head.pid] + 1) {
      ChildIsReachable(proc, root, path, head.pid, pid);
      assert |path + [pid]| == w.depth[head.pid] + 2;
    }
  }

  lemma AdvanceRelaxes(proc: Proc, root: int, w: Walk, children: seq<int>, added: seq<Found>)
    requires CalmStep(proc, root, w, children, added) && w.queue[0].pid in w.queuedPids
    ensures AllRelaxed(proc, Advance(w, added))
  {
    var v, head := Advance(w, added), w.queue[0];
    forall c | c in Kids(proc, head.pid) ensures c in v.depth && v.depth[c] <= v.depth[head.pid] + 1 {
      assert c in children;
      if c in w.queuedPids {
        if c in PidSet(w.queue) {
          var i :| 0 <= i < |w.queue| && w.queue[i].pid == c;
          assert QueueDepths(w)[i] <= QueueDepths(w)[0] + 1;
        } else {
          assert DepthOf(w.depth, c) <= DepthOf(w.depth, head.pid);
        }
      } else {
        assert c in PidSet(added);
      }
    }
    forall pid | pid in w.seen ensures pid in v.depth && Relaxed(proc, v.depth, pid) {
      assert Relaxed(proc, w.depth, pid);
    }
  }

  lemma AdvancedDepth(w: Walk, children: seq<int>, added: seq<Found>, root: int, i: nat)
    requires Consistent(w, root) && w.queue != [] && w.queue[0].pid in w.depth
    requires IsAdded(w.queuedPids, w.queue[0].pid, children, added)
    requires i < |Advance(w, added).queue|
    ensures DepthOf(Advance(w, added).depth, Advance(w, added).queue[i].pid) ==
            if i < |w.queue| - 1 then DepthOf(w.depth, w.queue[i + 1].pid) else w.depth[w.queue[0].pid] + 1
  {
    var v, rest := Advance(w, added), |w.queue| - 1;
    if i < rest {
      assert v.queue[i] == w.queue[i + 1] && w.queue[i + 1] in w.queue;
      assert w.queue[i + 1].pid in PidSet(w.queue);
    } else {
      assert v.queue[i] == added[i - rest] && added[i - rest] in added;
      assert added[i - rest].pid in PidSet(added);
    }
  }

  function Repeat(n: nat, d: nat): seq<nat> {
    seq(n, i requires 0 <= i < n => d)
  }

  lemma TwoLevelsAdvance(ds: seq<nat>, n: nat)
    requires ds != [] && TwoLevels(ds)
    ensures TwoLevels(ds[1..] + Repeat(n, ds[0] + 1))
  {
    var next := ds[1..] + Repeat(n, ds[0] + 1);
    assert forall i :: 0 <= i < |next| ==> next[i] == if i < |ds| - 1 then ds[1..][i] else ds[0] + 1;
    assert forall i :: 0 <= i < |ds| - 1 ==> ds[0] <= ds[1..][i] <= ds[0] + 1;
  }

  lemma AdvanceLayers(proc: Proc, root: int, w: Walk, children: seq<int>, added: seq<Found>)
    requires Consistent(w, root) && w.queue != [] && w.queue[0].pid in w.depth
    requires IsAdded(w.queuedPids, w.queue[0].pid, children, added)
    requires Layered(w)
    ensures Layered(Advance(w, added))
  {
    var v, ds := Advance(w, added), QueueDepths(w);
    var next := ds[1..] + Repeat(|added|, ds[0] + 1);
    assert QueueDepths(v) == next by {
      forall i | 0 <= i < |v.queue| ensures QueueDepths(v)[i] == next[i] {
        AdvancedDepth(w, children, added, root, i);
      }
    }
    TwoLevelsAdvance(ds, |added|);
    forall pid | pid in v.seen ensures DepthOf(v.depth, pid) <= ds[0] {
    }
    if v.queue != [] {
      assert ds[0] <= next[0];
    }
  }

  lemma AdvanceLevels(w: Walk, parent: Found, depth: map<int, nat>, added: seq<Found>)
    requires parent.pid in w.depth && Leveled(w.queue, w.depth) && Leveled(w.discovered, w.depth) && parent in w.queue
    requires forall pid :: pid in w.depth ==> pid in depth && depth[pid] == w.depth[pid]
    requires forall f :: f in added ==> f.parent == Some(parent.pid) && f.pid in depth && depth[f.pid] == depth[parent.pid] + 1
    ensures Leveled(w.discovered + [parent], depth) && Leveled(w.queue[1..] + added, depth)
  {
    forall f | f in w.queue || f in w.discovered
      ensures f.pid in depth && (f.parent.Some? ==> f.parent.value in depth && depth[f.pid] == depth[f.parent.value] + 1)
    {
      if f.parent.Some? {
        var above := f.parent.value;
        assert above in w.depth && above in depth;
      }
    }
    assert forall f :: f in w.queue[1..] + added ==> f in w.queue || f in added;
  }

  lemma AdvanceStarts(proc: Proc, w: Walk, parent: Found, children: seq<int>, added: seq<Found>)
    requires TrueStart(proc, w.queue) && TrueStart(proc, w.discovered) && parent in w.queue
    requires IsFullyAdded(proc, w.queuedPids, children, added)
    ensures TrueStart(proc, w.discovered + [parent]) && TrueStart(proc, w.queue[1..] + added)
  {
    assert forall f :: f in w.queue[1..] + added ==> f in w.queue || f in added;
  }

  lemma HeadIsQueued(w: Walk, root: int)
    requires Consistent(w, root) && w.queue != []
    ensures w.queue[0].pid in w.queuedPids && w.queue[0].pid in w.depth && w.queue[0].pid !in w.seen
  {
    assert w.queue[0] in w.queue && w.queue[0].pid in PidSet(w.queue);
  }

  lemma AdvanceSees(w: Walk, added: seq<Found>)
    requires w.queue != [] && w.queue[0].pid in w.depth && w.seen == PidSet(w.discovered)
    ensures Advance(w, added).seen == PidSet(Advance(w, added).discovered)
    ensures forall pid :: pid in w.depth ==> pid in Advance(w, added).depth && Advance(w, added).depth[pid] == w.depth[pid]
  {
    PidSetOfConcat(w.discovered, [w.queue[0]]);
    assert PidSet([w.queue[0]]) == {w.queue[0].pid};
  }

  lemma AdvanceIsCalm(proc: Proc, root: int, w: Walk, children: seq<int>, added: seq<Found>)
    requires CalmStep(proc, root, w, children, added)
    ensures w.queue[0].pid in w.depth && Calm(proc, root, Advance(w, added))
  {
    HeadIsQueued(w, root);
    AdvanceIsConsistent(w, root, children, added);
    AdvanceDepths(proc, root, w, added);
    AdvanceRelaxes(proc, root, w, children, added);
    AdvanceLayers(proc, root, w, children, added);
    AdvanceSees(w, added);
    var v := Advance(w, added);
    forall f | f in added ensures f.pid in v.depth && v.depth[f.pid] == v.depth[w.queue[0].pid] + 1 {
      assert f.pid in PidSet(added);
    }
    AdvanceLevels(w, w.queue[0], v.depth, added);
    AdvanceStarts(proc, w, w.queue[0], children, added);
  }

  /** When the queue is empty on a snapshot, exactly the reachable processes were discovered, each at its
      distance from the root. */
  lemma ExhaustedIsComplete(proc: Proc, root: int, w: Walk)
    requires Calm(proc, root, w) && w.queue == []
    ensures forall pid :: pid in PidSet(w.discovered) <==> Reachable(proc, root, pid)
    ensures forall pid :: pid in PidSet(w.discovered) ==> pid in w.depth && Distance(proc, root, pid, w.depth[pid])
  {
    assert w.depth.Keys == w.seen;
    forall path, pid | Leads(proc, root, path, pid) ensures pid in w.depth && w.depth[pid] + 1 <= |path| {
      ClosedDepthsBoundPaths(proc, root, w.depth, path);
    }
    forall pid | pid in w.seen ensures Reachable(proc, root, pid) && Distance(proc, root, pid, w.depth[pid]) {
      assert IsDepth(proc, root, pid, DepthOf(w.depth, pid));
    }
  }

  // ---- the limits ---------------------------------------------------------

  /** The counters match what the discovered processes listed. */
  ghost predicate Counted(proc: Proc, found: seq<Found>, taskCount: int, bytes: int) {
    && taskCount == TaskTotal(proc, Pids(found)) <= MAX_TREE_TASK_COUNT
    && bytes == ByteTotal(proc, Pids(found)) <= MAX_TREE_CHILDREN_BYTES
  }

  lemma {:induction false} TotalsOfDiscover(proc: Proc, found: seq<Found>, head: Found)
    ensures var pids := Pids(found + [head]);
            && TaskTotal(proc, pids) == TaskTotal(proc, Pids(found)) + |Tasks(proc, head.pid)|
            && ByteTotal(proc, pids) == ByteTotal(proc, Pids(found)) + ListedBytes(proc, head.pid, Tasks(proc, head.pid))
  {
    assert Pids(found + [head]) == Pids(found) + [head.pid];
    assert Pids(found + [head])[..|found|] == Pids(found);
  }

  lemma CalmPidsAreReachable(proc: Proc, root: int, w: Walk, pid: int)
    requires Calm(proc, root, w) && pid in w.queuedPids
    ensures Reachable(proc, root, pid)
  {
    assert IsDepth(proc, root, pid, DepthOf(w.depth, pid));
  }

  lemma DiscoveredAreReachable(proc: Proc, root: int, w: Walk)
    requires Calm(proc, root, w) && w.queue != []
    ensures AllReachable(proc, root, Pids(w.discovered + [w.queue[0]]))
  {
    HeadIsQueued(w, root);
    var all := w.discovered + [w.queue[0]];
    forall i | 0 <= i < |all| ensures Reachable(proc, root, all[i].pid) {
      assert all[i] in all && (i < |w.discovered| ==> w.discovered[i] in w.discovered);
      assert all[i].pid in w.queuedPids;
      CalmPidsAreReachable(proc, root, w, all[i].pid);
    }
  }

  lemma DiscoverIsDistinct(w: Walk, root: int)
    requires Consistent(w, root) && w.queue != []
    ensures Distinct(Pids(w.discovered + [w.queue[0]]))
  {
    var head := w.queue[0];
    HeadIsQueued(w, root);
    assert PidSet([head]) == {head.pid} && Distinct(Pids([head]));
    DistinctOfConcat(w.discovered, [head]);
  }

  /** Breaking a limit on a snapshot is the snapshot's doing. */
  lemma OverrunIsExcess(proc: Proc, root: int, w: Walk)
    requires Calm(proc, root, w) && w.queue != []
    requires !WithinLimits(proc, Pids(w.discovered + [w.queue[0]]))
    ensures exists pids :: Excess(proc, root, pids)
  {
    DiscoverIsDistinct(w, root);
    DiscoveredAreReachable(proc, root, w);
    assert Excess(proc, root, Pids(w.discovered + [w.queue[0]]));
  }

  /** On a snapshot the head is confirmed, its tasks can be listed, and its children can be read. */
  lemma HeadIsHealthy(proc: Proc, root: int, w: Walk)
    requires Snapshot(proc, root) && Calm(proc, root, w) && w.queue != []
    ensures Healthy(proc, w.queue[0].pid)
    ensures proc.startTime(0, w.queue[0].pid) == Success(w.queue[0].startTime)
    ensures forall c :: c in Kids(proc, w.queue[0].pid) ==> proc.startTime(0, c).Success?
  {
    var head := w.queue[0];
    HeadIsQueued(w, root);
    assert head in w.queue;
    CalmPidsAreReachable(proc, root, w, head.pid);
    var path :| Leads(proc, root, path, head.pid);
    forall c | c in Kids(proc, head.pid) ensures proc.startTime(0, c).Success? {
      ChildIsReachable(proc, root, path, head.pid, c);
      assert Healthy(proc, c);
    }
  }

  lemma StartIsCalm(proc: Proc, root: int, start: nat)
    requires proc.startTime(0, root) == Success(start)
    ensures Calm(proc, root, Walk([], [Found(root, None, start)], {root}, {}, map[root := 0]))
  {
    RootIsReachable(proc, root);
    var w := Walk([], [Found(root, None, start)], {root}, {}, map[root := 0]);
    assert w.queue[0] in w.queue && PidSet(w.queue) == {root};
    assert |[root]| == DepthOf(w.depth, root) + 1;
    assert IsDepth(proc, root, root, 0);
  }

  lemma AdvanceNothing(w: Walk)
    requires w.queue != [] && w.queue[0].pid in w.depth
    ensures Advance(w, []) == Walk(w.discovered + [w.queue[0]], w.queue[1..], w.queuedPids, w.seen + {w.queue[0].pid}, w.depth)
  {
    assert w.queuedPids + PidSet([]) == w.queuedPids;
    assert w.queue[1..] + [] == w.queue[1..];
  }

  /** How the visit of one process ends: the whole walk stops, the process is noted as unreadable, or its
      children are known. */
  datatype Visit =
    | Stop(code: Code)
    | Unreadable(code: Code)
    | Visited(children: seq<int>, taskCount: nat, bytes: nat, errors: seq<Note>)

  method VisitProcess(proc: Proc, before: nat, pid: int, tasksBefore: nat, bytesBefore: nat)
    returns (v: Visit, clock: nat)
    requires bytesBefore <= MAX_TREE_CHILDREN_BYTES
    ensures v.Visited? ==> v.bytes <= MAX_TREE_CHILDREN_BYTES && v.taskCount <= MAX_TREE_TASK_COUNT
    ensures v.Visited? ==> Distinct(v.children) && forall c :: c in v.children ==> Names(proc, pid, c)
    ensures Frozen(proc) && Healthy(proc, pid) ==>
              match v
              case Stop(_) =>
                || tasksBefore + |Tasks(proc, pid)| > MAX_TREE_TASK_COUNT
                || bytesBefore + ListedBytes(proc, pid, Tasks(proc, pid)) > MAX_TREE_CHILDREN_BYTES
              case Unreadable(_) => false
              case Visited(children, taskCount, bytes, errors) =>
                && (forall c :: c in children <==> c in Kids(proc, pid))
                && taskCount == tasksBefore + |Tasks(proc, pid)|
                && bytes == bytesBefore + ListedBytes(proc, pid, Tasks(proc, pid))
                && errors == []
  {
    var listing := proc.tasks(before, pid);
    ghost var calm := Frozen(proc) && Healthy(proc, pid);
    if calm {
      FrozenAnswers(proc, before, pid, 0);
      assert GoodTasks(proc, pid, Tasks(proc, pid));
    }
    clock := before + 1;
    var tasks := TaskIds(listing);
    if tasks.Failure? {
      return Unreadable(tasks.error), clock;
    }
    assert calm ==> tasks.value == Tasks(proc, pid);
    var taskCount := tasksBefore + |tasks.value|;
    if taskCount > MAX_TREE_TASK_COUNT {
      return Stop(TaskLimit), clock;
    }
    var read, errors, after := ReadChildren(proc, clock, pid, tasks.value, bytesBefore);
    clock := after;
    if read.Failure? {
      return Stop(read.error), clock;
    }
    IntLessIsStrict();
    SortedSetAscends(IntLess, read.value.0);
    v := Visited(SortedSet(IntLess, read.value.0), taskCount, read.value.1, errors);
    assert forall c :: c in v.children ==> c in read.value.0;
  }

  /** The loop invariant. */
  ghost predicate Good(proc: Proc, root: int, w: Walk, errors: seq<Note>, taskCount: int, bytes: int) {
    && Consistent(w, root)
    && Traced(proc, w.discovered) && Traced(proc, w.queue)
    && 0 <= taskCount && 0 <= bytes <= MAX_TREE_CHILDREN_BYTES
    && (Snapshot(proc, root) ==> Calm(proc, root, w) && errors == [] && Counted(proc, w.discovered, taskCount, bytes))
  }

  /** What is known about the head before it is visited. */
  lemma HeadOnSnapshot(proc: Proc, root: int, w: Walk, errors: seq<Note>, taskCount: int, bytes: int, t: nat)
    requires Good(proc, root, w, errors, taskCount, bytes) && w.queue != []
    ensures w.queue[0].pid in w.depth && w.queue[0].pid !in w.seen
    ensures Snapshot(proc, root) ==> Healthy(proc, w.queue[0].pid) && Frozen(proc)
    ensures Snapshot(proc, root) ==> proc.startTime(t, w.queue[0].pid) == Success(w.queue[0].startTime)
    ensures Snapshot(proc, root) ==> forall c :: c in Kids(proc, w.queue[0].pid) ==> proc.startTime(0, c).Success?
  {
    HeadIsQueued(w, root);
    if Snapshot(proc, root) {
      HeadIsHealthy(proc, root, w);
      FrozenAnswers(proc, t, w.queue[0].pid, 0);
    }
  }

  lemma {:induction false} StopOnSnapshot(proc: Proc, root: int, w: Walk, errors: seq<Note>, taskCount: int, bytes: int)
    requires Good(proc, root, w, errors, taskCount, bytes) && w.queue != [] && Snapshot(proc, root)
    requires || |w.discovered| >= MAX_PROCESS_COUNT
             || taskCount + |Tasks(proc, w.queue[0].pid)| > MAX_TREE_TASK_COUNT
             || bytes + ListedBytes(proc, w.queue[0].pid, Tasks(proc, w.queue[0].pid)) > MAX_TREE_CHILDREN_BYTES
    ensures exists pids :: Excess(proc, root, pids)
  {
    TotalsOfDiscover(proc, w.discovered, w.queue[0]);
    OverrunIsExcess(proc, root, w);
  }

  lemma DropIsGood(proc: Proc, root: int, w: Walk, errors: seq<Note>, errors': seq<Note>, taskCount: int, bytes: int)
    requires Good(proc, root, w, errors, taskCount, bytes) && w.queue != [] && !Snapshot(proc, root)
    ensures Good(proc, root, Drop(w), errors', taskCount, bytes)
  {
    DropIsConsistent(w, root);
    assert forall f :: f in w.queue[1..] ==> f in w.queue;
  }

  lemma AdvanceIsTraced(proc: Proc, w: Walk, added: seq<Found>)
    requires w.queue != [] && w.queue[0].pid in w.depth
    requires Traced(proc, w.discovered) && Traced(proc, w.queue) && Traced(proc, added)
    ensures Traced(proc, Advance(w, added).discovered) && Traced(proc, Advance(w, added).queue)
  {
    assert forall f :: f in w.queue[1..] ==> f in w.queue;
    TracedOfConcat(proc, w.queue[1..], added);
    TracedOfConcat(proc, w.discovered, [w.queue[0]]);
  }

  lemma {:induction false} AddedAreTraced(proc: Proc, t: nat, parent: int, children: seq<int>, queuedPids: set<int>)
    requires Distinct(children) && forall c :: c in children ==> Names(proc, parent, c)
    ensures Traced(proc, AddedFrom(proc, t, parent, Asked(children, queuedPids)))
  {
    AskedIsRest(children, queuedPids);
    AddedAreAsked(proc, t, parent, Asked(children, queuedPids));
  }

  lemma UnreadableIsGood(proc: Proc, root: int, w: Walk, errors: seq<Note>, errors': seq<Note>, taskCount: int, bytes: int)
    requires Good(proc, root, w, errors, taskCount, bytes) && w.queue != [] && !Snapshot(proc, root)
    requires |w.discovered| < MAX_PROCESS_COUNT
    ensures w.queue[0].pid in w.depth && Good(proc, root, Advance(w, []), errors', taskCount, bytes)
    ensures Advance(w, []) == Walk(w.discovered + [w.queue[0]], w.queue[1..], w.queuedPids, w.seen + {w.queue[0].pid}, w.depth)
  {
    AdvanceIsConsistent(w, root, [], []);
    AdvanceIsTraced(proc, w, []);
    AdvanceNothing(w);
  }

  lemma {:induction false} AdvanceIsGood(proc: Proc, root: int, w: Walk, errors: seq<Note>, taskCount: int,
                                         bytes: int, t: nat,
                      children: seq<int>, added: seq<Found>, errors': seq<Note>, taskCount': int, bytes': int)
    requires Good(proc, root, w, errors, taskCount, bytes) && w.queue != [] && |w.discovered| < MAX_PROCESS_COUNT
    requires 0 <= taskCount' <= MAX_TREE_TASK_COUNT && 0 <= bytes' <= MAX_TREE_CHILDREN_BYTES
    requires Distinct(children) && forall c :: c in children ==> Names(proc, w.queue[0].pid, c)
    requires added == AddedFrom(proc, t, w.queue[0].pid, Asked(children, w.queuedPids))
    requires Snapshot(proc, root) ==>
      && (forall c :: c in children <==> c in Kids(proc, w.queue[0].pid))
      && taskCount' == taskCount + |Tasks(proc, w.queue[0].pid)|
      && bytes' == bytes + ListedBytes(proc, w.queue[0].pid, Tasks(proc, w.queue[0].pid))
      && errors' == NotesFrom(proc, t, Asked(children, w.queuedPids))
    ensures w.queue[0].pid in w.depth && Good(proc, root, Advance(w, added), errors', taskCount', bytes')
  {
    AddedIsAdded(proc, t, w.queue[0].pid, children, w.queuedPids);
    AdvanceIsConsistent(w, root, children, added);
    AddedAreTraced(proc, t, w.queue[0].pid, children, w.queuedPids);
    AdvanceIsTraced(proc, w, added);
    if Snapshot(proc, root) {
      HeadIsHealthy(proc, root, w);
      FullyAsked(proc, t, w.queue[0].pid, children, w.queuedPids);
      assert CalmStep(proc, root, w, children, added);
      AdvanceIsCalm(proc, root, w, children, added);
      AdvanceIsCounted(proc, w.discovered, w.queue[0], taskCount, bytes, taskCount', bytes');
    }
  }

  /** Where no start time fails to be read, all new children are queued with their own. */
  lemma {:induction false} FullyAsked(proc: Proc, t: nat, parent: int, children: seq<int>, queuedPids: set<int>)
    requires Frozen(proc) && Distinct(children) && forall c :: c in children ==> proc.startTime(0, c).Success?
    ensures NotesFrom(proc, t, Asked(children, queuedPids)) == []
    ensures IsFullyAdded(proc, queuedPids, children, AddedFrom(proc, t, parent, Asked(children, queuedPids)))
  {
    AskedIsRest(children, queuedPids);
    CalmAnswers(proc, t, parent, Asked(children, queuedPids));
  }

  lemma {:induction false} AdvanceIsCounted(proc: Proc, found: seq<Found>, head: Found, taskCount: int, bytes: int,
                                            taskCount': int, bytes': int)
    requires Counted(proc, found, taskCount, bytes)
    requires 0 <= taskCount' <= MAX_TREE_TASK_COUNT && 0 <= bytes' <= MAX_TREE_CHILDREN_BYTES
    requires taskCount' == taskCount + |Tasks(proc, head.pid)|
    requires bytes' == bytes + ListedBytes(proc, head.pid, Tasks(proc, head.pid))
    ensures Counted(proc, found + [head], taskCount', bytes')
  {
    TotalsOfDiscover(proc, found, head);
  }

  lemma StartIsGood(proc: Proc, root: int, start: Result<nat, Code>)
    requires start == proc.startTime(0, root)
    ensures start.Success? ==> Good(proc, root, Walk([], [Found(root, None, start.value)], {root}, {}, map[root := 0]), [], 0, 0)
    ensures start.Failure? ==> !Snapshot(proc, root)
  {
    RootIsReachable(proc, root);
    if start.Success? {
      StartIsCalm(proc, root, start.value);
    }
  }

  /** What holds of an answer against any `/proc`: the recorded parents named their children. */
  ghost predicate Orderly(proc: Proc, r: Result<Discovery, Code>, root: int) {
    r.Success? ==>
      && |r.value.processes| <= MAX_PROCESS_COUNT
      && Distinct(Pids(r.value.processes))
      && ParentsFirst(r.value.processes, root)
      && Traced(proc, r.value.processes)
  }

  /** Every recorded parent lists the process as its child. */
  ghost predicate ParentsList(proc: Proc, found: seq<Found>) {
    forall f :: f in found && f.parent.Some? ==> f.pid in Kids(proc, f.parent.value)
  }

  lemma TracedParentsList(proc: Proc, found: seq<Found>)
    requires Frozen(proc) && Traced(proc, found)
    ensures ParentsList(proc, found)
  {
    forall f | f in found && f.parent.Some? ensures f.pid in Kids(proc, f.parent.value) {
      NamedIsKid(proc, f.parent.value, f.pid);
    }
  }

  /** What holds of an answer on a snapshot: everything below the root at its distance, under a parent that lists
      it one step closer to the root, or a limit really broken. */
  ghost predicate Faithful(proc: Proc, root: int, r: Result<Discovery, Code>, depth: map<int, nat>) {
    && (r.Success? ==>
          && r.value.errors == []
          && (forall pid :: pid in PidSet(r.value.processes) <==> Reachable(proc, root, pid))
          && (forall pid :: pid in PidSet(r.value.processes) ==> pid in depth && Distance(proc, root, pid, depth[pid]))
          && Leveled(r.value.processes, depth)
          && ParentsList(proc, r.value.processes)
          && TrueStart(proc, r.value.processes)
          && WithinLimits(proc, Pids(r.value.processes)))
    && (r.Failure? ==> exists pids :: Excess(proc, root, pids))
  }

  lemma ExhaustedIsFaithful(proc: Proc, root: int, w: Walk, errors: seq<Note>, taskCount: int, bytes: int)
    requires Good(proc, root, w, errors, taskCount, bytes) && w.queue == []
    ensures Orderly(proc, Success(Discovery(w.discovered, errors)), root)
    ensures Snapshot(proc, root) ==> Faithful(proc, root, Success(Discovery(w.discovered, errors)), w.depth)
  {
    if Snapshot(proc, root) {
      ExhaustedIsComplete(proc, root, w);
      TracedParentsList(proc, w.discovered);
    }
  }

  lemma {:induction false} StopIsFaithful(proc: Proc, root: int, w: Walk, errors: seq<Note>, taskCount: int,
                                          bytes: int, code: Code)
    requires Good(proc, root, w, errors, taskCount, bytes) && w.queue != []
    requires Snapshot(proc, root) ==>
             || |w.discovered| >= MAX_PROCESS_COUNT
             || taskCount + |Tasks(proc, w.queue[0].pid)| > MAX_TREE_TASK_COUNT
             || bytes + ListedBytes(proc, w.queue[0].pid, Tasks(proc, w.queue[0].pid)) > MAX_TREE_CHILDREN_BYTES
    ensures Orderly(proc, Failure(code), root)
    ensures Snapshot(proc, root) ==> Faithful(proc, root, Failure(code), w.depth)
  {
    if Snapshot(proc, root) {
      StopOnSnapshot(proc, root, w, errors, taskCount, bytes);
    }
  }

  /** How the loop goes on after a confirmed head: the walk stops, or entries join the queue. */
  datatype Turn =
    | Halt(code: Code)
    | Proceed(added: seq<Found>, queuedPids: set<int>, errors: seq<Note>, taskCount: nat, bytes: nat)

  /** The rest of one turn, once the head is discovered. */
  method ExpandHead(proc: Proc, root: int, before: nat, head: Found, queuedPids: set<int>, errors: seq<Note>,
                    taskCount: nat, bytes: nat, ghost w: Walk)
    returns (turn: Turn, clock: nat)
    requires Good(proc, root, w, errors, taskCount, bytes) && w.queue != [] && |w.discovered| < MAX_PROCESS_COUNT
    requires head == w.queue[0] && queuedPids == w.queuedPids && bytes <= MAX_TREE_CHILDREN_BYTES
    ensures turn.Halt? ==>
              Orderly(proc, Failure(turn.code), root)
              && (Snapshot(proc, root) ==> Faithful(proc, root, Failure(turn.code), w.depth))
    ensures turn.Proceed? ==>
              head.pid in w.depth && turn.queuedPids == queuedPids + PidSet(turn.added)
              && Good(proc, root, Advance(w, turn.added), turn.errors, turn.taskCount, turn.bytes)
  {
    hide Snapshot, Orderly, Faithful, Advance, Kids;
    HeadOnSnapshot(proc, root, w, errors, taskCount, bytes, before);
    var visit;
    visit, clock := VisitProcess(proc, before, head.pid, taskCount, bytes);
    match visit {
      case Stop(code) =>
        StopIsFaithful(proc, root, w, errors, taskCount, bytes, code);
        turn := Halt(code);
      case Unreadable(code) =>
        UnreadableIsGood(proc, root, w, errors, errors + [Note(head.pid, code)], taskCount, bytes);
        turn := Proceed([], queuedPids, errors + [Note(head.pid, code)], taskCount, bytes);
      case Visited(children, counted, total, noted) =>
        ghost var asked := clock;
        var added, unread, queued;
        added, unread, queued, clock := Enqueue(proc, clock, head.pid, children, queuedPids);
        AdvanceIsGood(proc, root, w, errors, taskCount, bytes, asked, children, added, errors + noted + unread, counted, total);
        turn := Proceed(added, queued, errors + noted + unread, counted, total);
    }
  }

  /**
    Against any `/proc`: at most 256 distinct processes, each after its parent, which named it in a read, and
    with a start time that was read; the check for a pid that was seen before never fires.
    On a snapshot: success means that no error was noted and exactly the processes below the root were
    found, each at its distance from the root with a parent that lists it and is one step closer; failure means
    that processes below the root really break a limit.
   */
  method DiscoverProcessTree(proc: Proc, root: int) returns (r: Result<Discovery, Code>, ghost depth: map<int, nat>)
    ensures Orderly(proc, r, root)
    ensures Snapshot(proc, root) ==> Faithful(proc, root, r, depth)
  {
    var clock: nat := 0;
    var rootStart := proc.startTime(clock, root);
    StartIsGood(proc, root, rootStart);
    clock := clock + 1;
    depth := map[root := 0];
    if rootStart.Failure? {
      return Failure(rootStart.error), depth;
    }
    var discovered: seq<Found> := [];
    var errors: seq<Note> := [];
    var queue := [Found(root, None, rootStart.value)];
    var queuedPids := {root};
    var seen: set<int> := {};
    var taskCount, childrenBytes := 0, 0;
    ghost var w := Walk(discovered, queue, queuedPids, seen, depth);
    while queue != []
      invariant w == Walk(discovered, queue, queuedPids, seen, depth)
      invariant Good(proc, root, w, errors, taskCount, childrenBytes)
      decreases MAX_PROCESS_COUNT - |discovered|, |queue|
    {
      var head := queue[0];
      HeadOnSnapshot(proc, root, w, errors, taskCount, childrenBytes, clock);
      queue := queue[1..];
      if head.pid in seen {
        assert false;
        continue;
      }
      seen := seen + {head.pid};
      var start := proc.startTime(clock, head.pid);
      clock := clock + 1;
      if start != Success(head.startTime) {
        DropIsGood(proc, root, w, errors, errors + [Note(head.pid, if start.Failure? then start.error else PidReused)], taskCount, childrenBytes);
        errors := errors + [Note(head.pid, if start.Failure? then start.error else PidReused)];
        w := Drop(w);
        continue;
      }
      discovered := discovered + [head];
      if |discovered| > MAX_PROCESS_COUNT {
        StopIsFaithful(proc, root, w, errors, taskCount, childrenBytes, ProcessLimit);
        return Failure(ProcessLimit), depth;
      }
      var turn;
      turn, clock := ExpandHead(proc, root, clock, head, queuedPids, errors, taskCount, childrenBytes, w);
      if turn.Halt? {
        return Failure(turn.code), depth;
      }
      taskCount, childrenBytes := turn.taskCount, turn.bytes;
      errors, queue, queuedPids := turn.errors, queue + turn.added, turn.queuedPids;
      w := Advance(w, turn.added);
      depth := w.depth;
    }
    ExhaustedIsFaithful(proc, root, w, errors, taskCount, childrenBytes);
    r := Success(Discovery(discovered, errors));
  }
}
