/**
  `capture_process`, `conservation_check` and `capture_receipt` (scripts/capture_process_memory.py): the byte
  budget shared by all processes, and the join with the pinned-storage ledger.

  What each read of `/proc` gives is an input, and so is the parser from a text to its mappings; the parser
  itself is `SmapsParser`. A ledger row's pid or phase is `None` when it is missing or of another type.
 */
module CaptureReceipt {
  import opened Integers
  import opened Wrappers
  import opened Sorting
  import opened SmapsMapping
  import SmapsDiff
  import ProcessTree

  const MAX_SMAPS_BYTES := 16 * 1024 * 1024
  const MAX_ROLLUP_BYTES := 2 * 1024 * 1024
  const MAX_CAPTURE_RAW_BYTES := 16 * 1024 * 1024

  datatype Code =
    | ReadFailed(reason: string) | ReadLimitExceeded | NonAscii
    | PidReused | CgroupChanged | InvalidRollup | MalformedProcData

  /** The answers of `/proc` for one process, in the order they are asked for. */
  datatype Answers = Answers(
    start: Result<nat, Code>,
    smaps: Result<string, Code>,
    rollup: Result<string, Code>,
    cgroup: Result<string, Code>,
    cgroupAgain: Result<string, Code>,
    startAgain: Result<nat, Code>)

  datatype Evidence = Evidence(start: nat, rawSmaps: string, rawRollup: string, cgroup: string, conserved: bool)

  datatype Record = Record(pid: int, evidence: Result<Evidence, Code>)

  type Parser = string -> Option<seq<Mapping>>

  // ---- conservation_check --------------------------------------------------

  function AnonymousBytes(m: Mapping): Option<int> {
    SmapsDiff.BytesOf(m.fields, "Anonymous")
  }

  function AnonymousTotal(ms: seq<Mapping>): int {
    if ms == [] then 0
    else AnonymousTotal(ms[..|ms| - 1]) + SmapsDiff.OrZero(AnonymousBytes(ms[|ms| - 1]))
  }

  /** The status is `pass`: every mapping and the rollup report the field, and the sums differ by at most epsilon. */
  predicate Conserved(ms: seq<Mapping>, rollup: Mapping, epsilon: nat) {
    && AnonymousBytes(rollup).Some?
    && (forall i :: 0 <= i < |ms| ==> AnonymousBytes(ms[i]).Some?)
    && AnonymousTotal(ms) <= AnonymousBytes(rollup).value + epsilon
    && AnonymousBytes(rollup).value <= AnonymousTotal(ms) + epsilon
  }

  // ---- capture_process -----------------------------------------------------

  predicate Ascii(s: string) {
    forall i :: 0 <= i < |s| ==> s[i] as int < 128
  }

  function ReadBounded(content: Result<string, Code>, maximum: int): Result<string, Code> {
    if content.Failure? then content
    else if |content.value| > maximum then Failure(ReadLimitExceeded)
    else if !Ascii(content.value) then Failure(NonAscii)
    else content
  }

  /** What follows the two bounded answers. */
  function Examine(parse: Parser, answers: Answers, start: nat, smaps: string, rollup: string,
                   epsilon: nat): Result<Evidence, Code> {
    var ms, rs := parse(smaps), parse(rollup);
    if ms.None? || rs.None? then Failure(MalformedProcData)
    else if |rs.value| != 1 then Failure(InvalidRollup)
    else if answers.cgroup.Failure? then Failure(answers.cgroup.error)
    else if answers.cgroupAgain.Failure? then Failure(answers.cgroupAgain.error)
    else if answers.cgroup != answers.cgroupAgain then Failure(CgroupChanged)
    else if answers.startAgain.Failure? then Failure(answers.startAgain.error)
    else if answers.startAgain.value != start then Failure(PidReused)
    else Success(Evidence(start, smaps, rollup, answers.cgroup.value, Conserved(ms.value, rs.value[0], epsilon)))
  }

  function CaptureProcess(parse: Parser, answers: Answers, discovered: Option<nat>, budget: int,
                          epsilon: nat): Result<Evidence, Code> {
    if answers.start.Failure? then Failure(answers.start.error)
    else if discovered.Some? && answers.start.value != discovered.value then Failure(PidReused)
    else
      var smaps := ReadBounded(answers.smaps, Min(MAX_SMAPS_BYTES, budget));
      if smaps.Failure? then Failure(smaps.error)
      else
        var rollup := ReadBounded(answers.rollup, Min(MAX_ROLLUP_BYTES, budget - |smaps.value|));
        if rollup.Failure? then Failure(rollup.error)
        else Examine(parse, answers, answers.start.value, smaps.value, rollup.value, epsilon)
  }

  // ---- the processes of a receipt --------------------------------------------

  datatype Target = Target(pid: int, start: Option<nat>)

  /** One capture: the parser, the tolerance, and the answers for each pid. */
  datatype Capture = Capture(parse: Parser, epsilon: nat, answers: int -> Answers)

  predicate ByPid(a: Target, b: Target) {
    a.pid <= b.pid
  }

  function RawBytes(r: Record): nat {
    match r.evidence
    case Success(e) => |e.rawSmaps| + |e.rawRollup|
    case Failure(_) => 0
  }

  function RawTotal(rs: seq<Record>): nat {
    if rs == [] then 0 else RawTotal(rs[..|rs| - 1]) + RawBytes(rs[|rs| - 1])
  }

  /** One process, read within what the ones before it left of the budget. */
  function RecordOf(c: Capture, t: Target, used: nat): (r: Record)
    ensures r.pid == t.pid
    ensures used <= MAX_CAPTURE_RAW_BYTES ==> used + RawBytes(r) <= MAX_CAPTURE_RAW_BYTES
  {
    Record(t.pid, CaptureProcess(c.parse, c.answers(t.pid), t.start, MAX_CAPTURE_RAW_BYTES - used, c.epsilon))
  }

  function Records(c: Capture, targets: seq<Target>): (rs: seq<Record>)
    ensures |rs| == |targets|
  {
    if targets == [] then []
    else
      var before := Records(c, targets[..|targets| - 1]);
      before + [RecordOf(c, targets[|targets| - 1], RawTotal(before))]
  }

  lemma {:induction false} RawTotalOfAppend(rs: seq<Record>, r: Record)
    ensures RawTotal(rs + [r]) == RawTotal(rs) + RawBytes(r)
  {
    assert (rs + [r])[..|rs|] == rs;
  }

  lemma {:induction false} RecordsArePids(c: Capture, targets: seq<Target>, i: nat)
    requires i < |targets|
    ensures Records(c, targets)[i].pid == targets[i].pid
    decreases |targets|
  {
    var n := |targets| - 1;
    if i < n {
      RecordsArePids(c, targets[..n], i);
    }
  }

  method CaptureAll(c: Capture, targets: seq<Target>) returns (processes: seq<Record>, ghost sorted: seq<Target>)
    ensures sorted == SortBy(ByPid, targets)
    ensures processes == Records(c, sorted)
    ensures RawTotal(processes) <= MAX_CAPTURE_RAW_BYTES
  {
    var order := SortBy(ByPid, targets);
    sorted := order;
    processes := [];
    var rawBytes: nat := 0;
    for k := 0 to |order|
      invariant processes == Records(c, order[..k])
      invariant rawBytes == RawTotal(processes) <= MAX_CAPTURE_RAW_BYTES
    {
      RecordsExtend(c, order[..k], order[k]);
      assert order[..k + 1] == order[..k] + [order[k]];
      var process := RecordOf(c, order[k], rawBytes);
      rawBytes := rawBytes + RawBytes(process);
      processes := processes + [process];
    }
    assert order[..|order|] == order;
  }

  lemma {:induction false} RecordsExtend(c: Capture, front: seq<Target>, t: Target)
    ensures var before := Records(c, front);
            var r := RecordOf(c, t, RawTotal(before));
            Records(c, front + [t]) == before + [r] && RawTotal(before + [r]) == RawTotal(before) + RawBytes(r)
  {
    assert (front + [t])[..|front|] == front;
    RawTotalOfAppend(Records(c, front), RecordOf(c, t, RawTotal(Records(c, front))));
  }

  /** No receipt holds more than 16 MiB of raw text, whatever `/proc` answers. */
  lemma {:induction false} BudgetIsKept(c: Capture, targets: seq<Target>)
    ensures RawTotal(Records(c, targets)) <= MAX_CAPTURE_RAW_BYTES
    decreases |targets|
  {
    if targets != [] {
      var n := |targets| - 1;
      BudgetIsKept(c, targets[..n]);
      RecordsExtend(c, targets[..n], targets[n]);
      assert targets == targets[..n] + [targets[n]];
    }
  }

  /** Every answer about this process is sound; only the limits can still stop its capture. */
  predicate Sound(c: Capture, t: Target) {
    var answers := c.answers(t.pid);
    && answers.start.Success? && (t.start.Some? ==> answers.start.value == t.start.value)
    && answers.smaps.Success? && Ascii(answers.smaps.value)
    && answers.rollup.Success? && Ascii(answers.rollup.value)
    && Examine(c.parse, answers, answers.start.value, answers.smaps.value, answers.rollup.value, c.epsilon).Success?
  }

  function Size(c: Capture, t: Target): nat {
    var answers := c.answers(t.pid);
    (if answers.smaps.Success? then |answers.smaps.value| else 0) + (if answers.rollup.Success? then |answers.rollup.value| else 0)
  }

  function TotalSize(c: Capture, targets: seq<Target>): nat {
    if targets == [] then 0 else TotalSize(c, targets[..|targets| - 1]) + Size(c, targets[|targets| - 1])
  }

  predicate AllCaptured(rs: seq<Record>) {
    forall i :: 0 <= i < |rs| ==> rs[i].evidence.Success?
  }

  predicate FitsRollup(c: Capture, t: Target) {
    var rollup := c.answers(t.pid).rollup;
    rollup.Success? ==> |rollup.value| <= MAX_ROLLUP_BYTES
  }

  lemma SoundIsCapturedExactly(c: Capture, t: Target, used: nat)
    requires Sound(c, t) && used <= MAX_CAPTURE_RAW_BYTES
    ensures RecordOf(c, t, used).evidence.Success? <==> used + Size(c, t) <= MAX_CAPTURE_RAW_BYTES && FitsRollup(c, t)
    ensures RecordOf(c, t, used).evidence.Success? ==> RawBytes(RecordOf(c, t, used)) == Size(c, t)
  {
  }

  /** The whole run fits: the texts together, and each rollup alone. */
  ghost predicate Fits(c: Capture, targets: seq<Target>) {
    TotalSize(c, targets) <= MAX_CAPTURE_RAW_BYTES && forall i :: 0 <= i < |targets| ==> FitsRollup(c, targets[i])
  }

  lemma {:induction false} FitsExtends(c: Capture, front: seq<Target>, t: Target)
    ensures TotalSize(c, front + [t]) == TotalSize(c, front) + Size(c, t)
    ensures Fits(c, front + [t]) <==>
              Fits(c, front) && FitsRollup(c, t) && TotalSize(c, front) + Size(c, t) <= MAX_CAPTURE_RAW_BYTES
  {
    var targets := front + [t];
    assert targets[..|front|] == front && targets[|front|] == t;
    assert forall i :: 0 <= i < |front| ==> targets[i] == front[i];
  }

  lemma AllCapturedOfAppend(rs: seq<Record>, r: Record)
    ensures AllCaptured(rs + [r]) <==> AllCaptured(rs) && r.evidence.Success?
  {
    assert forall i :: 0 <= i < |rs| ==> (rs + [r])[i] == rs[i];
    assert (rs + [r])[|rs|] == r;
  }

  /** All captured exactly when all fits, and then the total is the size. */
  ghost predicate CapturedExactly(c: Capture, targets: seq<Target>) {
    var rs := Records(c, targets);
    && RawTotal(rs) <= MAX_CAPTURE_RAW_BYTES
    && (AllCaptured(rs) <==> Fits(c, targets))
    && (AllCaptured(rs) ==> RawTotal(rs) == TotalSize(c, targets))
  }

  lemma OneMoreExactly(c: Capture, front: seq<Target>, t: Target)
    requires CapturedExactly(c, front) && Sound(c, t)
    ensures CapturedExactly(c, front + [t])
  {
    var before := Records(c, front);
    RecordsExtend(c, front, t);
    AllCapturedOfAppend(before, RecordOf(c, t, RawTotal(before)));
    SoundIsCapturedExactly(c, t, RawTotal(before));
    FitsExtends(c, front, t);
  }

  lemma NoneIsCaptured(c: Capture)
    ensures CapturedExactly(c, [])
  {
  }

  ghost predicate AllSound(c: Capture, targets: seq<Target>) {
    forall i :: 0 <= i < |targets| ==> Sound(c, targets[i])
  }

  /** Of sound processes all are captured exactly when their texts fit the budget together and each rollup fits. */
  lemma {:induction false} AllCapturedExactly(c: Capture, targets: seq<Target>)
    requires AllSound(c, targets)
    ensures CapturedExactly(c, targets)
    decreases |targets|
  {
    if targets == [] {
      NoneIsCaptured(c);
    } else {
      var n := |targets| - 1;
      assert Sound(c, targets[n]);
      assert AllSound(c, targets[..n]);
      AllCapturedExactly(c, targets[..n]);
      OneMoreExactly(c, targets[..n], targets[n]);
      assert targets == targets[..n] + [targets[n]];
    }
  }

  // ---- the ledger --------------------------------------------------------------

  datatype LedgerRow = LedgerRow(pid: Option<int>, phase: Option<string>, content: string)

  datatype LedgerNote =
    | MalformedRow | PidNotCaptured(pid: int) | IdentityUnavailable(pid: int) | DuplicateRow(pid: int) | RowMissing(pid: int)

  function ByProcess(rs: seq<Record>): map<int, Record> {
    if rs == [] then map[] else ByProcess(rs[..|rs| - 1])[rs[|rs| - 1].pid := rs[|rs| - 1]]
  }

  datatype Join = Join(notes: seq<LedgerNote>, rows: map<int, LedgerRow>, selected: set<int>)

  function JoinRow(j: Join, row: LedgerRow, phase: string, processes: map<int, Record>): Join {
    if row.pid.None? || row.phase.None? then j.(notes := j.notes + [MalformedRow])
    else if row.phase.value != phase then j
    else
      var pid := row.pid.value;
      var chosen := j.(selected := j.selected + {pid});
      if pid !in processes then chosen.(notes := j.notes + [PidNotCaptured(pid)])
      else if processes[pid].evidence.Failure? then chosen.(notes := j.notes + [IdentityUnavailable(pid)])
      else if pid in j.rows then chosen.(notes := j.notes + [DuplicateRow(pid)])
      else chosen.(rows := j.rows[pid := row])
  }

  function Joined(rows: seq<LedgerRow>, phase: string, processes: map<int, Record>): Join {
    if rows == [] then Join([], map[], {})
    else JoinRow(Joined(rows[..|rows| - 1], phase, processes), rows[|rows| - 1], phase, processes)
  }

  predicate InPhase(row: LedgerRow, phase: string) {
    row.pid.Some? && row.phase == Some(phase)
  }

  predicate Captured(pid: int, processes: map<int, Record>) {
    pid in processes && processes[pid].evidence.Success?
  }

  /** Rows are well formed, and each row of the phase belongs to its own captured process. */
  ghost predicate CleanRows(rows: seq<LedgerRow>, phase: string, processes: map<int, Record>) {
    && (forall i :: 0 <= i < |rows| ==> rows[i].pid.Some? && rows[i].phase.Some?)
    && (forall i :: 0 <= i < |rows| && InPhase(rows[i], phase) ==> Captured(rows[i].pid.value, processes))
    && (forall i, j :: 0 <= i < j < |rows| && InPhase(rows[i], phase) && InPhase(rows[j], phase) ==>
          rows[i].pid != rows[j].pid)
  }

  ghost predicate HasRow(rows: seq<LedgerRow>, phase: string, pid: int) {
    exists i :: 0 <= i < |rows| && InPhase(rows[i], phase) && rows[i].pid.value == pid
  }

  lemma HasRowExtends(front: seq<LedgerRow>, row: LedgerRow, phase: string, pid: int)
    ensures HasRow(front + [row], phase, pid) <==>
              HasRow(front, phase, pid) || (InPhase(row, phase) && row.pid.value == pid)
  {
    var rows := front + [row];
    assert rows[|front|] == row;
    assert forall i :: 0 <= i < |front| ==> rows[i] == front[i];
  }

  /** The selected pids are those with a row in the phase. */
  lemma {:induction false} JoinSelects(rows: seq<LedgerRow>, phase: string, processes: map<int, Record>, pid: int)
    ensures pid in Joined(rows, phase, processes).selected <==> HasRow(rows, phase, pid)
    decreases |rows|
  {
    if rows != [] {
      var n := |rows| - 1;
      JoinSelects(rows[..n], phase, processes, pid);
      HasRowExtends(rows[..n], rows[n], phase, pid);
      assert rows == rows[..n] + [rows[n]];
    }
  }

  /** A joined row is one of the rows, of this phase and pid, and its process was captured. */
  lemma {:induction false} JoinedRowFits(rows: seq<LedgerRow>, phase: string, processes: map<int, Record>, pid: int)
    requires pid in Joined(rows, phase, processes).rows
    ensures var row := Joined(rows, phase, processes).rows[pid];
            row in rows && InPhase(row, phase) && row.pid.value == pid && Captured(pid, processes)
    ensures pid in Joined(rows, phase, processes).selected
    decreases |rows|
  {
    var n := |rows| - 1;
    assert rows == rows[..n] + [rows[n]];
    if pid in Joined(rows[..n], phase, processes).rows {
      JoinedRowFits(rows[..n], phase, processes, pid);
    }
  }

  lemma CleanExtends(front: seq<LedgerRow>, row: LedgerRow, phase: string, processes: map<int, Record>)
    ensures CleanRows(front + [row], phase, processes) <==>
            && CleanRows(front, phase, processes)
            && row.pid.Some? && row.phase.Some?
            && (InPhase(row, phase) ==>
                  Captured(row.pid.value, processes) && !HasRow(front, phase, row.pid.value))
  {
    var rows := front + [row];
    assert rows[|front|] == row;
    assert forall i :: 0 <= i < |front| ==> rows[i] == front[i];
  }

  /** The join leaves no note exactly on clean rows, and then every selected pid has its row. */
  lemma {:induction false} JoinIsCleanExactly(rows: seq<LedgerRow>, phase: string, processes: map<int, Record>)
    ensures Joined(rows, phase, processes).notes == [] <==> CleanRows(rows, phase, processes)
    ensures Joined(rows, phase, processes).notes == [] ==>
              Joined(rows, phase, processes).rows.Keys == Joined(rows, phase, processes).selected
    decreases |rows|
  {
    if rows != [] {
      var n := |rows| - 1;
      var front, row := rows[..n], rows[n];
      JoinIsCleanExactly(front, phase, processes);
      CleanExtends(front, row, phase, processes);
      if InPhase(row, phase) {
        JoinSelects(front, phase, processes, row.pid.value);
      }
      assert rows == front + [row];
    }
  }

  method JoinLedger(rows: seq<LedgerRow>, phase: string, processes: map<int, Record>) returns (j: Join)
    ensures j == Joined(rows, phase, processes)
  {
    var notes: seq<LedgerNote> := [];
    var byPid: map<int, LedgerRow> := map[];
    var selected: set<int> := {};
    for k := 0 to |rows|
      invariant Join(notes, byPid, selected) == Joined(rows[..k], phase, processes)
    {
      assert rows[..k + 1][..k] == rows[..k];
      var row := rows[k];
      if row.pid.None? || row.phase.None? {
        notes := notes + [MalformedRow];
      } else if row.phase.value == phase {
        var pid := row.pid.value;
        selected := selected + {pid};
        if pid !in processes {
          notes := notes + [PidNotCaptured(pid)];
        } else if processes[pid].evidence.Failure? {
          notes := notes + [IdentityUnavailable(pid)];
        } else if pid in byPid {
          notes := notes + [DuplicateRow(pid)];
        } else {
          byPid := byPid[pid := row];
        }
      }
    }
    assert rows[..|rows|] == rows;
    j := Join(notes, byPid, selected);
  }

  // ---- capture_receipt ------------------------------------------------------------

  datatype CgroupCode = RootUnavailable | CgroupMismatch | CgroupDrift | CgroupFailed(code: Code)

  datatype TreeNote = Discovery(note: ProcessTree.Note) | WalkFailed(code: ProcessTree.Code) | RankNotCaptured(pid: int)

  datatype Receipt = Receipt(
    valid: bool, treeNotes: seq<TreeNote>, ledgerNotes: seq<LedgerNote>, cgroupError: Option<CgroupCode>,
    processes: seq<Record>, pinned: map<int, LedgerRow>)

  /** The arguments, where `ranks` are the pids given a rank, and what `/proc` and the cgroup files answer; the walk is absent without descendants. */
  datatype Request = Request(
    root: int, ranks: seq<int>, walk: Option<Result<ProcessTree.Discovery, ProcessTree.Code>>,
    capture: Capture, cgroup: Result<bool, Code>, rows: seq<LedgerRow>, phase: string)

  function Targets(q: Request): seq<Target> {
    match q.walk
    case None => [Target(q.root, None)]
    case Some(Failure(_)) => []
    case Some(Success(d)) =>
      seq(|d.processes|, i requires 0 <= i < |d.processes| => Target(d.processes[i].pid, Some(d.processes[i].startTime)))
  }

  function WalkNotes(q: Request): seq<TreeNote> {
    match q.walk
    case None => []
    case Some(Failure(code)) => [WalkFailed(code)]
    case Some(Success(d)) => seq(|d.errors|, i requires 0 <= i < |d.errors| => Discovery(d.errors[i]))
  }

  function TargetPids(q: Request): set<int> {
    set i | 0 <= i < |Targets(q)| :: Targets(q)[i].pid
  }

  ghost predicate SameCgroup(rs: seq<Record>, path: string) {
    forall i :: 0 <= i < |rs| && rs[i].evidence.Success? ==> rs[i].evidence.value.cgroup == path
  }

  method CheckCgroup(processes: seq<Record>, byPid: map<int, Record>, root: int, reading: Result<bool, Code>) returns (e: Option<CgroupCode>)
    ensures e.None? <==> CgroupIsSound(root, processes, byPid, reading)
    ensures !Captured(root, byPid) <==> e == Some(RootUnavailable)
  {
    if root !in byPid || byPid[root].evidence.Failure? {
      return Some(RootUnavailable);
    }
    var path := byPid[root].evidence.value.cgroup;
    for k := 0 to |processes|
      invariant SameCgroup(processes[..k], path)
    {
      assert processes[..k + 1] == processes[..k] + [processes[k]];
      if processes[k].evidence.Success? && processes[k].evidence.value.cgroup != path {
        return Some(CgroupMismatch);
      }
    }
    assert processes[..|processes|] == processes;
    match reading {
      case Failure(code) => return Some(CgroupFailed(code));
      case Success(stable) => return if stable then None else Some(CgroupDrift);
    }
  }

  predicate Proven(r: Record) {
    r.evidence.Success? && r.evidence.value.conserved
  }

  predicate AllProven(rs: seq<Record>) {
    forall i :: 0 <= i < |rs| ==> Proven(rs[i])
  }

  /** The walk left no note, and found every pid that was given a rank. */
  ghost predicate WalkIsComplete(q: Request) {
    WalkNotes(q) == [] && forall pid :: pid in q.ranks ==> pid in TargetPids(q)
  }

  /** The root was captured, every captured process shares its cgroup, and that cgroup read stable. */
  ghost predicate CgroupIsSound(root: int, processes: seq<Record>, byPid: map<int, Record>, reading: Result<bool, Code>) {
    Captured(root, byPid) && SameCgroup(processes, byPid[root].evidence.value.cgroup) && reading == Success(true)
  }

  /** The rows are clean, and every captured pid with a rank has one. */
  ghost predicate LedgerIsComplete(q: Request, byPid: map<int, Record>) {
    CleanRows(q.rows, q.phase, byPid) && forall pid :: pid in q.ranks && pid in byPid ==> HasRow(q.rows, q.phase, pid)
  }

  /** What makes a receipt valid, said of the captured processes and the ledger rows. */
  ghost predicate Complete(q: Request, processes: seq<Record>) {
    && WalkIsComplete(q) && AllProven(processes)
    && CgroupIsSound(q.root, processes, ByProcess(processes), q.cgroup)
    && LedgerIsComplete(q, ByProcess(processes))
  }

  method NoteTree(q: Request) returns (notes: seq<TreeNote>)
    ensures notes == [] <==> WalkIsComplete(q)
  {
    notes := WalkNotes(q);
    var sorted, captured := SortedSet(IntLess, q.ranks), TargetPids(q);
    IntLessIsStrict();
    SortedSetAscends(IntLess, q.ranks);
    for k := 0 to |sorted|
      invariant notes == [] <==> WalkNotes(q) == [] && forall i :: 0 <= i < k ==> sorted[i] in captured
    {
      if sorted[k] !in captured {
        notes := notes + [RankNotCaptured(sorted[k])];
      }
    }
    MembersByPosition(sorted, q.ranks, captured);
  }

  lemma MembersByPosition(sorted: seq<int>, pids: seq<int>, s: set<int>)
    requires forall pid :: pid in sorted <==> pid in pids
    ensures (forall i :: 0 <= i < |sorted| ==> sorted[i] in s) <==> forall pid :: pid in pids ==> pid in s
  {
    if forall pid :: pid in pids ==> pid in s {
      forall i | 0 <= i < |sorted| ensures sorted[i] in s {
        var pid := sorted[i];
        assert pid in sorted;
        assert pid in pids;
      }
    }
  }

  method NoteLedger(q: Request, byPid: map<int, Record>) returns (notes: seq<LedgerNote>, rows: map<int, LedgerRow>)
    ensures rows == Joined(q.rows, q.phase, byPid).rows
    ensures notes == [] <==> LedgerIsComplete(q, byPid)
  {
    var join := JoinLedger(q.rows, q.phase, byPid);
    notes, rows := join.notes, join.rows;
    var sorted := SortedSet(IntLess, q.ranks);
    IntLessIsStrict();
    SortedSetAscends(IntLess, q.ranks);
    for k := 0 to |sorted|
      invariant notes == [] <==> join.notes == [] && forall i :: 0 <= i < k && sorted[i] in byPid ==> sorted[i] in join.selected
    {
      if sorted[k] in byPid && sorted[k] !in join.selected {
        notes := notes + [RowMissing(sorted[k])];
      }
    }
    JoinIsCleanExactly(q.rows, q.phase, byPid);
    RanksHaveRows(q, byPid, sorted);
  }

  lemma {:induction false} RanksHaveRows(q: Request, byPid: map<int, Record>, sorted: seq<int>)
    requires forall pid :: pid in sorted <==> pid in q.ranks
    ensures (forall i :: 0 <= i < |sorted| && sorted[i] in byPid ==> sorted[i] in Joined(q.rows, q.phase, byPid).selected)
       <==> forall pid :: pid in q.ranks && pid in byPid ==> HasRow(q.rows, q.phase, pid)
  {
    var selected := Joined(q.rows, q.phase, byPid).selected;
    forall pid ensures pid in selected <==> HasRow(q.rows, q.phase, pid) {
      JoinSelects(q.rows, q.phase, byPid, pid);
    }
    if forall pid :: pid in q.ranks && pid in byPid ==> HasRow(q.rows, q.phase, pid) {
      forall i | 0 <= i < |sorted| && sorted[i] in byPid ensures sorted[i] in selected {
        var pid := sorted[i];
        assert pid in sorted;
        assert pid in q.ranks;
      }
    }
    if forall i :: 0 <= i < |sorted| && sorted[i] in byPid ==> sorted[i] in selected {
      forall pid | pid in q.ranks && pid in byPid ensures HasRow(q.rows, q.phase, pid) {
        assert pid in sorted;
        var i :| 0 <= i < |sorted| && sorted[i] == pid;
      }
    }
  }

  method CaptureReceipt(q: Request) returns (r: Receipt, ghost sorted: seq<Target>)
    ensures sorted == SortBy(ByPid, Targets(q))
    ensures r.processes == Records(q.capture, sorted)
    ensures RawTotal(r.processes) <= MAX_CAPTURE_RAW_BYTES
    ensures r.valid <==> Complete(q, r.processes)
    ensures r.pinned == Joined(q.rows, q.phase, ByProcess(r.processes)).rows
  {
    var treeNotes := NoteTree(q);
    var processes;
    processes, sorted := CaptureAll(q.capture, Targets(q));
    var byPid := ByProcess(processes);
    var cgroupError := CheckCgroup(processes, byPid, q.root, q.cgroup);
    var ledgerNotes, rows := NoteLedger(q, byPid);
    var valid := AllProven(processes) && treeNotes == [] && cgroupError.None? && ledgerNotes == [];
    r := Receipt(valid, treeNotes, ledgerNotes, cgroupError, processes, rows);
  }

  lemma {:induction false} ByProcessFinds(rs: seq<Record>, pid: int)
    ensures pid in ByProcess(rs) <==> exists i :: 0 <= i < |rs| && rs[i].pid == pid
    ensures pid in ByProcess(rs) ==> ByProcess(rs)[pid] in rs && ByProcess(rs)[pid].pid == pid
    decreases |rs|
  {
    if rs != [] {
      var n := |rs| - 1;
      ByProcessFinds(rs[..n], pid);
      assert rs == rs[..n] + [rs[n]];
      assert forall i :: 0 <= i < n ==> rs[..n][i] == rs[i];
    }
  }

  lemma TargetsAreRecorded(q: Request, pid: int)
    requires pid in TargetPids(q)
    ensures pid in ByProcess(Records(q.capture, SortBy(ByPid, Targets(q))))
  {
    var sorted := SortBy(ByPid, Targets(q));
    var rs := Records(q.capture, sorted);
    SortByElements(ByPid, Targets(q));
    var i :| 0 <= i < |Targets(q)| && Targets(q)[i].pid == pid;
    assert Targets(q)[i] in sorted;
    var k :| 0 <= k < |sorted| && sorted[k] == Targets(q)[i];
    RecordsArePids(q.capture, sorted, k);
    ByProcessFinds(rs, pid);
  }

  /**
    In a valid receipt every ranked pid was captured with conserved totals, exactly one ledger row of the phase
    names it, and that row is the one attached to it.
   */
  lemma {:induction false} ValidReceiptJoinsEveryRank(q: Request, processes: seq<Record>, pid: int)
    requires processes == Records(q.capture, SortBy(ByPid, Targets(q))) && Complete(q, processes) && pid in q.ranks
    ensures pid in ByProcess(processes) && ByProcess(processes)[pid] in processes && Proven(ByProcess(processes)[pid])
    ensures pid in Joined(q.rows, q.phase, ByProcess(processes)).rows
    ensures exists i: nat :: OnlyRow(q.rows, q.phase, pid, i) && q.rows[i] == Joined(q.rows, q.phase, ByProcess(processes)).rows[pid]
  {
    var byPid := ByProcess(processes);
    TargetsAreRecorded(q, pid);
    ByProcessFinds(processes, pid);
    assert Proven(byPid[pid]);
    JoinIsCleanExactly(q.rows, q.phase, byPid);
    JoinSelects(q.rows, q.phase, byPid, pid);
    JoinedRowFits(q.rows, q.phase, byPid, pid);
    CleanRowIsOnly(q.rows, q.phase, byPid, pid, Joined(q.rows, q.phase, byPid).rows[pid]);
  }

  /** Row i is the one row of the phase that names the pid. */
  ghost predicate OnlyRow(rows: seq<LedgerRow>, phase: string, pid: int, i: nat) {
    && i < |rows| && InPhase(rows[i], phase) && rows[i].pid.value == pid
    && forall j :: 0 <= j < |rows| && InPhase(rows[j], phase) && rows[j].pid.value == pid ==> j == i
  }

  lemma CleanRowIsOnly(rows: seq<LedgerRow>, phase: string, processes: map<int, Record>, pid: int, row: LedgerRow)
    requires CleanRows(rows, phase, processes) && row in rows && InPhase(row, phase) && row.pid.value == pid
    ensures exists i: nat :: OnlyRow(rows, phase, pid, i) && rows[i] == row
  {
    var i :| 0 <= i < |rows| && rows[i] == row;
    forall j | 0 <= j < |rows| && InPhase(rows[j], phase) && rows[j].pid.value == pid ensures j == i {
      assert InPhase(rows[i], phase) && rows[i].pid == rows[j].pid;
    }
    assert OnlyRow(rows, phase, pid, i);
  }

  // ---- the walk and the receipt ------------------------------------------------

  /** The request as it stands once the tree was walked. */
  function Walked(q: Request, walk: Result<ProcessTree.Discovery, ProcessTree.Code>): Request {
    q.(walk := Some(walk))
  }

  /** One record for each pid, in ascending order. */
  ghost predicate AscendingPids(rs: seq<Record>) {
    forall i, j :: 0 <= i < j < |rs| ==> rs[i].pid < rs[j].pid
  }

  predicate Recorded(rs: seq<Record>, pid: int) {
    exists i :: 0 <= i < |rs| && rs[i].pid == pid
  }

  /** Exactly the processes below the root, each with its totals conserved and the start time that `/proc` gives. */
  ghost predicate HoldsTree(proc: ProcessTree.Proc, root: int, rs: seq<Record>) {
    && (forall pid :: Recorded(rs, pid) <==> ProcessTree.Reachable(proc, root, pid))
    && (forall i :: 0 <= i < |rs| ==> Proven(rs[i]) && proc.startTime(0, rs[i].pid) == Result.Success(rs[i].evidence.value.start))
  }

  lemma ByPidIsAnOrder()
    ensures TotalPreorder(ByPid)
  {
  }

  lemma TargetsAreDistinct(q: Request, d: ProcessTree.Discovery)
    requires q.walk == Some(Result.Success(d)) && Distinct(ProcessTree.Pids(d.processes))
    ensures Distinct(Targets(q))
    ensures forall s, t :: s in Targets(q) && t in Targets(q) && s.pid == t.pid ==> s == t
  {
    var ts, pids := Targets(q), ProcessTree.Pids(d.processes);
    forall i, j | 0 <= i < |ts| && 0 <= j < |ts| && ts[i].pid == ts[j].pid ensures i == j {
      assert pids[i] == pids[j];
    }
  }

  lemma {:induction false} SortedTargetsAscend(ts: seq<Target>)
    requires Distinct(ts) && forall s, t :: s in ts && t in ts && s.pid == t.pid ==> s == t
    ensures var sorted := SortBy(ByPid, ts); forall i, j :: 0 <= i < j < |sorted| ==> sorted[i].pid < sorted[j].pid
  {
    ByPidIsAnOrder();
    SortBySorts(ByPid, ts);
    SortByElements(ByPid, ts);
    var sorted := SortBy(ByPid, ts);
    DistinctOfPermutation(ts, sorted);
    forall i, j | 0 <= i < j < |sorted| ensures sorted[i].pid < sorted[j].pid {
      assert sorted[i] in sorted && sorted[j] in sorted;
      assert ByPid(sorted[i], sorted[j]);
    }
  }

  lemma {:induction false} RecordsAscend(c: Capture, sorted: seq<Target>)
    requires forall i, j :: 0 <= i < j < |sorted| ==> sorted[i].pid < sorted[j].pid
    ensures AscendingPids(Records(c, sorted))
  {
    forall i, j | 0 <= i < j < |sorted| ensures Records(c, sorted)[i].pid < Records(c, sorted)[j].pid {
      RecordsArePids(c, sorted, i);
      RecordsArePids(c, sorted, j);
    }
  }

  /** A record that succeeded holds the start time that the walk read. */
  lemma {:induction false} RecordsKeepStarts(c: Capture, targets: seq<Target>, i: nat)
    requires i < |targets| && Records(c, targets)[i].evidence.Success? && targets[i].start.Some?
    ensures Records(c, targets)[i].evidence.value.start == targets[i].start.value
    decreases |targets|
  {
    var n := |targets| - 1;
    if i < n {
      RecordsKeepStarts(c, targets[..n], i);
    }
  }

  lemma TargetOfRecord(q: Request, d: ProcessTree.Discovery, i: nat) returns (f: ProcessTree.Found)
    requires q.walk == Some(Result.Success(d)) && i < |Records(q.capture, SortBy(ByPid, Targets(q)))|
    ensures f in d.processes && SortBy(ByPid, Targets(q))[i] == Target(f.pid, Some(f.startTime))
    ensures Records(q.capture, SortBy(ByPid, Targets(q)))[i].pid == f.pid
  {
    var sorted := SortBy(ByPid, Targets(q));
    ByPidIsAnOrder();
    SortByElements(ByPid, Targets(q));
    RecordsArePids(q.capture, sorted, i);
    assert sorted[i] in Targets(q);
    var k :| 0 <= k < |Targets(q)| && Targets(q)[k] == sorted[i];
    f := d.processes[k];
  }

  lemma FoundIsRecorded(q: Request, d: ProcessTree.Discovery, pid: int)
    requires q.walk == Some(Result.Success(d)) && pid in ProcessTree.PidSet(d.processes)
    ensures Recorded(Records(q.capture, SortBy(ByPid, Targets(q))), pid)
  {
    var f :| f in d.processes && f.pid == pid;
    var k :| 0 <= k < |d.processes| && d.processes[k] == f;
    assert Targets(q)[k].pid == pid;
    TargetsAreRecorded(q, pid);
    ByProcessFinds(Records(q.capture, SortBy(ByPid, Targets(q))), pid);
  }

  /** What a valid receipt over a faithful walk holds. */
  lemma ValidReceiptHoldsTree(proc: ProcessTree.Proc, q: Request, d: ProcessTree.Discovery, depth: map<int, nat>,
                              rs: seq<Record>)
    requires q.walk == Some(Result.Success(d)) && ProcessTree.Faithful(proc, q.root, Result.Success(d), depth)
    requires rs == Records(q.capture, SortBy(ByPid, Targets(q))) && AllProven(rs)
    ensures HoldsTree(proc, q.root, rs)
  {
    forall pid ensures Recorded(rs, pid) <==> ProcessTree.Reachable(proc, q.root, pid) {
      if Recorded(rs, pid) {
        var i: nat :| i < |rs| && rs[i].pid == pid;
        var f := TargetOfRecord(q, d, i);
      }
      if pid in ProcessTree.PidSet(d.processes) {
        FoundIsRecorded(q, d, pid);
      }
    }
    forall i | 0 <= i < |rs| ensures Proven(rs[i]) && proc.startTime(0, rs[i].pid) == Result.Success(rs[i].evidence.value.start) {
      var f := TargetOfRecord(q, d, i);
      RecordsKeepStarts(q.capture, SortBy(ByPid, Targets(q)), i);
    }
  }

  /**
    `capture_receipt` with descendants: the walk and then the captures. Against any `/proc` the records are at most
    256 and ascend strictly by pid; on a snapshot a valid receipt holds exactly the processes below the root.
   */
  method CaptureDescendants(proc: ProcessTree.Proc, q: Request)
    returns (r: Receipt, ghost walk: Result<ProcessTree.Discovery, ProcessTree.Code>, ghost depth: map<int, nat>)
    ensures ProcessTree.Orderly(proc, walk, q.root)
    ensures ProcessTree.Snapshot(proc, q.root) ==> ProcessTree.Faithful(proc, q.root, walk, depth)
    ensures RawTotal(r.processes) <= MAX_CAPTURE_RAW_BYTES
    ensures |r.processes| <= ProcessTree.MAX_PROCESS_COUNT && AscendingPids(r.processes)
    ensures r.valid <==> Complete(Walked(q, walk), r.processes)
    ensures r.valid && ProcessTree.Snapshot(proc, q.root) ==> HoldsTree(proc, q.root, r.processes)
  {
    var found;
    found, depth := ProcessTree.DiscoverProcessTree(proc, q.root);
    walk := found;
    var request := Walked(q, found);
    ghost var sorted;
    r, sorted := CaptureReceipt(request);
    ByPidIsAnOrder();
    SortBySorts(ByPid, Targets(request));
    if found.Success? {
      TargetsAreDistinct(request, found.value);
      if r.valid && ProcessTree.Snapshot(proc, q.root) {
        ValidReceiptHoldsTree(proc, request, found.value, depth, r.processes);
      }
    }
    SortedTargetsAscend(Targets(request));
    RecordsAscend(q.capture, sorted);
  }
}
