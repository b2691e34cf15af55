/**
 The background-job protocol of backend/app/jobs: the worker loop, the snapshot handler with its three
 transactions, and the optional Valkey signals.

 A state holds the committed rows, the signals and where each worker is. A step is one committed
 transaction, one signal operation, one introspection, or a crash.
 */
module JobQueue {

  import opened Dicts

  type JobId = nat

  type SnapshotId = nat

  type WorkerId = nat

  datatype Status = Queued | Running | Succeeded | Failed

  datatype Job = Job(
    jobType: string, status: Status, snapshot: SnapshotId, runAfter: int, attemptCount: nat,
    startedAt: Option<int>, finishedAt: Option<int>, lastError: Option<string>)

  datatype Snapshot = Snapshot(
    status: Status, startedAt: Option<int>, finishedAt: Option<int>, errorMessage: Option<string>)

  /** Where a worker is. From `Claiming` on it works on one job. */
  datatype Place =
    | Idle
    | Popped(signal: Option<JobId>)           // asked Valkey, about to look into the table
    | Claiming(job: JobId)                    // has the row locked in an open transaction
    | Claimed(job: JobId)                     // has committed the claim
    | Handling(job: JobId)                    // the handler has been started
    | Introspecting(job: JobId)               // the first transaction has been committed
    | Storing(job: JobId, data: string)       // introspection has succeeded
    | Recording(job: JobId, message: string)  // introspection has failed
    | Returned(job: JobId)                    // the handler has returned
    | Raised(job: JobId, message: string)     // the handler has raised
  {
    predicate Holds(j: JobId) {
      !Idle? && !Popped? && job == j
    }
  }

  datatype State = State(
    now: int,
    jobs: map<JobId, Job>,
    snapshots: map<SnapshotId, Snapshot>,
    data: map<SnapshotId, string>,
    signals: map<string, int>,               // the shared sorted set: members with scores
    workers: map<WorkerId, Place>,
    starts: map<JobId, nat>)                 // history: how often each job's handler was started
  {
    function At(w: WorkerId): Place {
      if w in workers then workers[w] else Idle
    }

    function Starts(j: JobId): nat {
      if j in starts then starts[j] else 0
    }
  }

  /** How a member of the sorted set is read as a job id; None if it is not one. */
  type Decoder = string -> Option<JobId>

  datatype Config = Config(handlers: set<string>, valkeyEnabled: bool, decode: Decoder)

  // ---------------------------------------------------------------- steps

  datatype Step =
    | Create(j: JobId, s: SnapshotId)                     // API: one snapshot with its job
    | Signals(signals: map<string, int>)                  // Valkey loses, repeats, keeps or invents signals
    | Tick(now: int)
    | Pop(w: WorkerId, member: Option<string>)
    | ClaimSignaled(w: WorkerId)
    | Poll(w: WorkerId, job: Option<JobId>)
    | CommitClaim(w: WorkerId)
    | Dispatch(w: WorkerId)
    | Begin(w: WorkerId, connection: bool)
    | Introspect(w: WorkerId, result: Option<string>, message: string)
    | Record(w: WorkerId)
    | Store(w: WorkerId)
    | Finish(w: WorkerId)
    | Abort(w: WorkerId, message: string)                 // a transaction of the handler or of its success fails
    | Crash(w: WorkerId)

  predicate Due(s: State, j: JobId) {
    j in s.jobs && s.jobs[j].status == Queued && s.jobs[j].runAfter <= s.now
  }

  /** Another transaction has the row: SKIP LOCKED passes it over. */
  ghost predicate Locked(s: State, j: JobId) {
    exists w :: s.At(w) == Claiming(j)
  }

  /** The signal with the lowest score, if it is due. */
  ghost predicate LeastDue(s: State, m: string) {
    && m in s.signals && s.signals[m] <= s.now
    && forall x :: x in s.signals ==> s.signals[m] <= s.signals[x]
  }

  /** The due job that has waited longest among those nobody has locked. */
  ghost predicate Oldest(s: State, j: JobId) {
    && Due(s, j) && !Locked(s, j)
    && forall k :: Due(s, k) && !Locked(s, k) ==> s.jobs[j].runAfter <= s.jobs[k].runAfter
  }

  function MarkRunning(job: Job, now: int): Job {
    job.(status := Running, startedAt := Some(now), attemptCount := job.attemptCount + 1)
  }

  function UnknownType(jobType: string): string {
    "Unknown job_type: " + jobType
  }

  function Move(s: State, w: WorkerId, p: Place): State {
    s.(workers := s.workers[w := p])
  }

  function PutJob(s: State, j: JobId, job: Job): State {
    s.(jobs := s.jobs[j := job])
  }

  function PutSnapshot(s: State, id: SnapshotId, snap: Snapshot): State {
    s.(snapshots := s.snapshots[id := snap])
  }

  /** The worker is at work on a job whose row is there. */
  predicate Working(s: State, w: WorkerId) {
    !s.At(w).Idle? && !s.At(w).Popped? && s.At(w).job in s.jobs
  }

  ghost predicate CanPoll(c: Config, s: State, w: WorkerId, j: Option<JobId>) {
    && (s.At(w) == Popped(None) || (s.At(w) == Idle && !c.valkeyEnabled))
    && (j.Some? ==> Oldest(s, j.value))
    && (j.None? ==> forall k :: Due(s, k) ==> Locked(s, k))
  }

  ghost predicate Enabled(c: Config, s: State, step: Step) {
    match step
    case Create(j, id) => j !in s.jobs && id !in s.snapshots && id !in s.data
    case Signals(_) => true
    case Tick(now) => now >= s.now
    case Pop(w, m) => s.At(w) == Idle && c.valkeyEnabled && (m.Some? ==> LeastDue(s, m.value))
    case ClaimSignaled(w) => s.At(w).Popped? && s.At(w).signal.Some?
    case Poll(w, j) => CanPoll(c, s, w, j)
    case CommitClaim(w) => Working(s, w) && s.At(w).Claiming?
    case Dispatch(w) => Working(s, w) && s.At(w).Claimed?
    case Begin(w, _) => Working(s, w) && s.At(w).Handling?
    case Introspect(w, _, _) => s.At(w).Introspecting?
    case Record(w) => Working(s, w) && s.At(w).Recording?
    case Store(w) => Working(s, w) && s.At(w).Storing?
    case Finish(w) => Working(s, w) && (s.At(w).Returned? || s.At(w).Raised?)
    case Abort(w, _) =>
      s.At(w).Handling? || s.At(w).Introspecting? || s.At(w).Storing? || s.At(w).Recording? || s.At(w).Returned?
    case Crash(w) => true
  }

  /** No other worker moves, and this one is idle or goes on with its job. */
  ghost predicate GoesOn(s: State, s': State, w: WorkerId) {
    && s'.workers == s.workers[w := s'.At(w)]
    && forall j :: s'.At(w).Holds(j) ==> s.At(w).Holds(j)
  }

  /** The worker keeps a job that it holds, or has written its end. */
  ghost predicate KeepsOrEnds(s: State, s': State, w: WorkerId) {
    forall j :: s.At(w).Holds(j) ==> s'.At(w).Holds(j) || (j in s'.jobs && s'.jobs[j].status in {Succeeded, Failed})
  }

  /** No other worker moves, no row changes, and this one holds nothing or a job that is due. */
  ghost predicate Asks(s: State, s': State, w: WorkerId) {
    && s'.workers == s.workers[w := s'.At(w)] && s'.jobs == s.jobs && s'.snapshots == s.snapshots
    && forall j :: s'.At(w).Holds(j) ==> Due(s, j)
  }

  function AfterCreate(s: State, j: JobId, id: SnapshotId): State {
    s.(snapshots := s.snapshots[id := Snapshot(Queued, None, None, None)],
       jobs := s.jobs[j := Job("snapshot", Queued, id, s.now, 0, None, None, None)])
  }

  function AfterPop(c: Config, s: State, w: WorkerId, m: Option<string>): (s': State)
    ensures Asks(s, s', w)
  {
    if m.None? then Move(s, w, Popped(None))
    else Move(s.(signals := s.signals - {m.value}), w, Popped(c.decode(m.value)))
  }

  ghost function AfterClaimSignaled(s: State, w: WorkerId): (s': State)
    requires s.At(w).Popped? && s.At(w).signal.Some?
    ensures Asks(s, s', w)
  {
    var j := s.At(w).signal.value;
    if Due(s, j) && !Locked(s, j) then Move(s, w, Claiming(j)) else Move(s, w, Popped(None))
  }

  function AfterPoll(s: State, w: WorkerId, j: Option<JobId>): (s': State)
    requires j.Some? ==> Due(s, j.value)
    ensures Asks(s, s', w)
  {
    if j.None? then Move(s, w, Idle) else Move(s, w, Claiming(j.value))
  }

  function AfterCommitClaim(s: State, w: WorkerId): (s': State)
    requires Working(s, w)
    ensures GoesOn(s, s', w)
    ensures KeepsOrEnds(s, s', w) && s'.snapshots == s.snapshots
  {
    var j := s.At(w).job;
    Move(PutJob(s, j, MarkRunning(s.jobs[j], s.now)), w, Claimed(j))
  }

  function AfterDispatch(c: Config, s: State, w: WorkerId): (s': State)
    requires Working(s, w)
    ensures GoesOn(s, s', w)
    ensures KeepsOrEnds(s, s', w) && s'.snapshots == s.snapshots
  {
    var j := s.At(w).job;
    if s.jobs[j].jobType in c.handlers then Move(s.(starts := s.starts[j := s.Starts(j) + 1]), w, Handling(j))
    else Move(PutJob(s, j, s.jobs[j].(status := Failed, finishedAt := Some(s.now),
                                      lastError := Some(UnknownType(s.jobs[j].jobType)))), w, Idle)
  }

  function SnapshotMissing(): string {
    "snapshot not found"
  }

  function ConnectionMissing(): string {
    "db connection not found"
  }

  function AfterBegin(s: State, w: WorkerId, connection: bool): (s': State)
    requires Working(s, w)
    ensures GoesOn(s, s', w) && s'.jobs == s.jobs
    ensures KeepsOrEnds(s, s', w)
  {
    var j, id := s.At(w).job, s.jobs[s.At(w).job].snapshot;
    if id !in s.snapshots then Move(s, w, Raised(j, SnapshotMissing()))
    else if !connection then Move(s, w, Raised(j, ConnectionMissing()))
    else Move(PutSnapshot(s, id, s.snapshots[id].(status := Running, startedAt := Some(s.now))), w, Introspecting(j))
  }

  function AfterIntrospect(s: State, w: WorkerId, result: Option<string>, message: string): (s': State)
    requires s.At(w).Introspecting?
    ensures GoesOn(s, s', w) && s'.jobs == s.jobs
    ensures KeepsOrEnds(s, s', w) && s'.snapshots == s.snapshots
  {
    var j := s.At(w).job;
    if result.Some? then Move(s, w, Storing(j, result.value)) else Move(s, w, Recording(j, message))
  }

  function AfterRecord(s: State, w: WorkerId): (s': State)
    requires Working(s, w) && s.At(w).Recording?
    ensures GoesOn(s, s', w) && s'.jobs == s.jobs
    ensures KeepsOrEnds(s, s', w)
  {
    var j, id, message := s.At(w).job, s.jobs[s.At(w).job].snapshot, s.At(w).message;
    if id !in s.snapshots then Move(s, w, Raised(j, message))
    else Move(PutSnapshot(s, id, s.snapshots[id].(status := Failed, errorMessage := Some(message),
                                                  finishedAt := Some(s.now))), w, Raised(j, message))
  }

  function AfterStore(s: State, w: WorkerId): (s': State)
    requires Working(s, w) && s.At(w).Storing?
    ensures GoesOn(s, s', w) && s'.jobs == s.jobs
    ensures KeepsOrEnds(s, s', w)
  {
    var j, id := s.At(w).job, s.jobs[s.At(w).job].snapshot;
    if id !in s.snapshots then Move(s, w, Raised(j, SnapshotMissing()))
    else
      var snap := s.snapshots[id].(status := Succeeded, finishedAt := Some(s.now), errorMessage := None);
      Move(PutSnapshot(s, id, snap).(data := s.data[id := s.At(w).data]), w, Returned(j))
  }

  function AfterFinish(s: State, w: WorkerId): (s': State)
    requires Working(s, w) && (s.At(w).Returned? || s.At(w).Raised?)
    ensures GoesOn(s, s', w)
    ensures KeepsOrEnds(s, s', w) && s'.snapshots == s.snapshots
  {
    var j := s.At(w).job;
    var job := s.jobs[j].(finishedAt := Some(s.now));
    if s.At(w).Returned? then Move(PutJob(s, j, job.(status := Succeeded, lastError := None)), w, Idle)
    else Move(PutJob(s, j, job.(status := Failed, lastError := Some(s.At(w).message))), w, Idle)
  }

  function AfterAbort(s: State, w: WorkerId, message: string): (s': State)
    requires !s.At(w).Idle? && !s.At(w).Popped?
    ensures GoesOn(s, s', w) && s'.jobs == s.jobs
    ensures KeepsOrEnds(s, s', w) && s'.snapshots == s.snapshots
  {
    Move(s, w, Raised(s.At(w).job, message))
  }

  function AfterCrash(s: State, w: WorkerId): (s': State)
    ensures GoesOn(s, s', w) && s'.jobs == s.jobs
    ensures s'.snapshots == s.snapshots
  {
    Move(s, w, Idle)
  }

  ghost function Next(c: Config, s: State, step: Step): State
    requires Enabled(c, s, step)
  {
    match step
    case Create(j, id) => AfterCreate(s, j, id)
    case Signals(signals) => s.(signals := signals)
    case Tick(now) => s.(now := now)
    case Pop(w, m) => AfterPop(c, s, w, m)
    case ClaimSignaled(w) => AfterClaimSignaled(s, w)
    case Poll(w, j) => AfterPoll(s, w, j)
    case CommitClaim(w) => AfterCommitClaim(s, w)
    case Dispatch(w) => AfterDispatch(c, s, w)
    case Begin(w, connection) => AfterBegin(s, w, connection)
    case Introspect(w, result, message) => AfterIntrospect(s, w, result, message)
    case Record(w) => AfterRecord(s, w)
    case Store(w) => AfterStore(s, w)
    case Finish(w) => AfterFinish(s, w)
    case Abort(w, message) => AfterAbort(s, w, message)
    case Crash(w) => AfterCrash(s, w)
  }

  ghost predicate Initial(s: State) {
    s.jobs == map[] && s.snapshots == map[] && s.data == map[] && s.starts == map[] && s.workers == map[]
  }

  ghost predicate IsRun(c: Config, run: seq<State>, steps: seq<Step>) {
    && |run| == |steps| + 1 && Initial(run[0])
    && forall i :: 0 <= i < |steps| ==> Enabled(c, run[i], steps[i]) && run[i + 1] == Next(c, run[i], steps[i])
  }

  // ---------------------------------------------------------------- what every step keeps

  /** A job is held by one worker at most. */
  ghost predicate OneHolder(s: State) {
    forall v, w, j :: s.At(v).Holds(j) && s.At(w).Holds(j) ==> v == w
  }

  /** The row of a job that is held at a place, and whether its handler has been started. */
  ghost predicate RowFits(s: State, p: Place, j: JobId) {
    && j in s.jobs
    && s.jobs[j].status == (if p.Claiming? then Queued else Running)
    && s.Starts(j) == (if p.Claiming? || p.Claimed? then 0 else 1)
  }

  ghost predicate RowsFit(s: State) {
    forall w, j :: s.At(w).Holds(j) ==> RowFits(s, s.At(w), j)
  }

  /** Attempts and handler starts, by status. */
  ghost predicate CountOk(s: State, j: JobId) {
    if j in s.jobs then
      && s.jobs[j].attemptCount == (if s.jobs[j].status == Queued then 0 else 1)
      && s.Starts(j) <= s.jobs[j].attemptCount
    else s.Starts(j) == 0
  }

  ghost predicate CountsOk(s: State) {
    forall j :: CountOk(s, j)
  }

  /** Each snapshot belongs to one job. */
  ghost predicate OneJobEach(s: State) {
    && (forall j :: j in s.jobs ==> s.jobs[j].snapshot in s.snapshots)
    && (forall i, j :: i in s.jobs && j in s.jobs && s.jobs[i].snapshot == s.jobs[j].snapshot ==> i == j)
  }

  /** Data is there exactly for a succeeded snapshot; a failed one says why and when. */
  ghost predicate RecordOk(s: State, id: SnapshotId) {
    && (id in s.data <==> id in s.snapshots && s.snapshots[id].status == Succeeded)
    && (id in s.snapshots && s.snapshots[id].status == Failed ==>
          s.snapshots[id].errorMessage.Some? && s.snapshots[id].finishedAt.Some?)
  }

  ghost predicate RecordsOk(s: State) {
    forall id :: RecordOk(s, id)
  }

  /** The status that the snapshot of a held job has at each place. */
  ghost predicate SnapshotFits(p: Place, st: Status) {
    match p
    case Claiming(_) => st == Queued
    case Claimed(_) => st == Queued
    case Handling(_) => st == Queued
    case Introspecting(_) => st == Running
    case Storing(_, _) => st == Running
    case Recording(_, _) => st == Running
    case Returned(_) => st == Succeeded
    case _ => true
  }

  ghost predicate PlacesFit(s: State) {
    forall w, j :: s.At(w).Holds(j) && j in s.jobs && s.jobs[j].snapshot in s.snapshots ==>
      SnapshotFits(s.At(w), s.snapshots[s.jobs[j].snapshot].status)
  }

  ghost predicate JobAgrees(s: State, j: JobId) {
    j in s.jobs && s.jobs[j].snapshot in s.snapshots ==>
      && (s.jobs[j].status == Queued ==> s.snapshots[s.jobs[j].snapshot].status == Queued)
      && (s.jobs[j].status == Succeeded ==> s.snapshots[s.jobs[j].snapshot].status == Succeeded)
  }

  ghost predicate JobsAgree(s: State) {
    forall j :: JobAgrees(s, j)
  }

  ghost predicate Inv(s: State) {
    OneHolder(s) && RowsFit(s) && CountsOk(s) && OneJobEach(s) && RecordsOk(s) && PlacesFit(s) && JobsAgree(s)
  }

  lemma {:induction false} InitialInv(s: State)
    requires Initial(s)
    ensures Inv(s)
  {
  }

  ghost predicate NobodyHolds(s: State, j: JobId) {
    forall v :: !s.At(v).Holds(j)
  }

  /** A step of worker w on job j: everything that does not belong to them stays. */
  ghost predicate Frame(s: State, s': State, w: WorkerId, j: JobId, p: Place) {
    && j in s.jobs && s.jobs[j].snapshot in s.snapshots
    && (s.At(w).Holds(j) || NobodyHolds(s, j))
    && (forall v :: s'.At(v) == if v == w then p else s.At(v))
    && (forall i :: p.Holds(i) ==> i == j)
    && s'.jobs.Keys == s.jobs.Keys && s'.snapshots.Keys == s.snapshots.Keys
    && (forall i :: i in s.jobs && i != j ==> s'.jobs[i] == s.jobs[i])
    && s'.jobs[j].snapshot == s.jobs[j].snapshot
    && (forall i :: i != j ==> s'.Starts(i) == s.Starts(i))
    && (forall id :: id in s.snapshots && id != s.jobs[j].snapshot ==> s'.snapshots[id] == s.snapshots[id])
    && (forall id :: id != s.jobs[j].snapshot ==> (id in s'.data <==> id in s.data))
  }

  /** What the step has to establish about its own job and snapshot. */
  ghost predicate OwnOk(s': State, j: JobId, p: Place)
    requires j in s'.jobs && s'.jobs[j].snapshot in s'.snapshots
  {
    && (p.Holds(j) ==> RowFits(s', p, j) && SnapshotFits(p, s'.snapshots[s'.jobs[j].snapshot].status))
    && CountOk(s', j) && JobAgrees(s', j) && RecordOk(s', s'.jobs[j].snapshot)
  }

  lemma {:induction false} FrameHolders(s: State, s': State, w: WorkerId, j: JobId, p: Place)
    requires Inv(s) && Frame(s, s', w, j, p) && OwnOk(s', j, p)
    ensures OneHolder(s') && RowsFit(s')
  {
    hide CountsOk, OneJobEach, RecordsOk, PlacesFit, JobsAgree, SnapshotFits;
    forall v, i | s'.At(v).Holds(i) ensures RowFits(s', s'.At(v), i) {
      if v != w {
        assert RowFits(s, s.At(v), i);
      }
    }
  }

  lemma {:induction false} FrameRows(s: State, s': State, w: WorkerId, j: JobId, p: Place)
    requires Inv(s) && Frame(s, s', w, j, p) && OwnOk(s', j, p)
    ensures CountsOk(s') && OneJobEach(s')
  {
    hide OneHolder, RowsFit, RecordsOk, PlacesFit, JobsAgree, SnapshotFits;
    forall i ensures CountOk(s', i) {
      assert CountOk(s, i);
    }
  }

  lemma {:induction false} FrameSnapshots(s: State, s': State, w: WorkerId, j: JobId, p: Place)
    requires Inv(s) && Frame(s, s', w, j, p) && OwnOk(s', j, p)
    ensures RecordsOk(s') && JobsAgree(s') && PlacesFit(s')
  {
    hide CountsOk, RowFits, SnapshotFits;
    forall id ensures RecordOk(s', id) {
      assert RecordOk(s, id);
    }
    forall i ensures JobAgrees(s', i) {
      assert JobAgrees(s, i);
    }
    forall v, i | s'.At(v).Holds(i) && i in s'.jobs && s'.jobs[i].snapshot in s'.snapshots
      ensures SnapshotFits(s'.At(v), s'.snapshots[s'.jobs[i].snapshot].status)
    {
      if v != w {
        assert s.At(v).Holds(i);
      }
    }
  }

  /** A step that stays within its frame and is right about its own job keeps the invariant. */
  lemma {:induction false} FrameKeeps(s: State, s': State, w: WorkerId, j: JobId, p: Place)
    requires Inv(s) && Frame(s, s', w, j, p) && OwnOk(s', j, p)
    ensures Inv(s')
  {
    FrameHolders(s, s', w, j, p);
    FrameRows(s, s', w, j, p);
    FrameSnapshots(s, s', w, j, p);
    hide OneHolder, RowsFit, CountsOk, OneJobEach, RecordsOk, PlacesFit, JobsAgree;
  }

  // ---- the steps one by one

  /** Moving to a place where no job is held. */
  lemma {:induction false} FreeMoveKeeps(s: State, s': State, w: WorkerId, p: Place)
    requires Inv(s) && (p.Idle? || p.Popped?)
    requires s'.jobs == s.jobs && s'.snapshots == s.snapshots && s'.data == s.data && s'.starts == s.starts
    requires s'.workers == s.workers[w := p]
    ensures Inv(s')
  {
    assert forall v :: s'.At(v) == if v == w then p else s.At(v);
    assert forall j :: s'.Starts(j) == s.Starts(j);
    forall v, i | s'.At(v).Holds(i) ensures RowFits(s', s'.At(v), i) {
      assert RowFits(s, s.At(v), i);
    }
    forall i ensures CountOk(s', i) { assert CountOk(s, i); }
    forall id ensures RecordOk(s', id) { assert RecordOk(s, id); }
    forall i ensures JobAgrees(s', i) { assert JobAgrees(s, i); }
    hide RowFits, SnapshotFits;
    forall v, i | s'.At(v).Holds(i) && i in s'.jobs && s'.jobs[i].snapshot in s'.snapshots
      ensures SnapshotFits(s'.At(v), s'.snapshots[s'.jobs[i].snapshot].status)
    {
      assert s.At(v).Holds(i);
    }
  }

  /** The places of the workers fit the rows as long as these rows stay. */
  lemma {:induction false} PlacesKept(s: State, s': State)
    requires Inv(s) && s'.workers == s.workers
    requires forall i :: i in s.jobs ==> i in s'.jobs && s'.jobs[i] == s.jobs[i]
    requires forall id :: id in s.snapshots ==> id in s'.snapshots && s'.snapshots[id] == s.snapshots[id]
    requires s'.starts == s.starts
    ensures OneHolder(s') && RowsFit(s') && PlacesFit(s')
  {
    hide CountsOk, RecordsOk, JobsAgree, SnapshotFits;
    assert forall v :: s'.At(v) == s.At(v);
    assert forall i :: s'.Starts(i) == s.Starts(i);
    forall v, i | s'.At(v).Holds(i) ensures RowFits(s', s'.At(v), i) {
      assert RowFits(s, s.At(v), i);
    }
    forall v, i | s'.At(v).Holds(i) && i in s'.jobs && s'.jobs[i].snapshot in s'.snapshots
      ensures SnapshotFits(s'.At(v), s'.snapshots[s'.jobs[i].snapshot].status)
    {
      assert s.At(v).Holds(i) && RowFits(s, s.At(v), i);
    }
  }

  /** A change of the clock or of the signals. */
  lemma {:induction false} OutsideKeeps(s: State, s': State)
    requires Inv(s)
    requires s'.jobs == s.jobs && s'.snapshots == s.snapshots && s'.data == s.data && s'.starts == s.starts
    requires s'.workers == s.workers
    ensures Inv(s')
  {
    PlacesKept(s, s');
    hide OneHolder, RowsFit, PlacesFit;
    forall i ensures CountOk(s', i) { assert CountOk(s, i) && s'.Starts(i) == s.Starts(i); }
    forall id ensures RecordOk(s', id) { assert RecordOk(s, id); }
    forall i ensures JobAgrees(s', i) { assert JobAgrees(s, i); }
  }

  lemma {:induction false} CreateKeeps(s: State, j: JobId, id: SnapshotId)
    requires Inv(s) && j !in s.jobs && id !in s.snapshots && id !in s.data
    ensures Inv(AfterCreate(s, j, id))
  {
    var s' := AfterCreate(s, j, id);
    PlacesKept(s, s');
    hide OneHolder, RowsFit, PlacesFit;
    assert forall i :: s'.Starts(i) == s.Starts(i);
    forall i ensures CountOk(s', i) { assert CountOk(s, i); }
    forall x ensures RecordOk(s', x) { assert RecordOk(s, x); }
    forall i ensures JobAgrees(s', i) { assert JobAgrees(s, i); }
  }

  lemma {:induction false} ClaimKeeps(s: State, w: WorkerId, j: JobId)
    requires Inv(s) && Due(s, j) && !Locked(s, j)
    ensures Inv(Move(s, w, Claiming(j)))
  {
    var s' := Move(s, w, Claiming(j));
    forall v ensures !s.At(v).Holds(j) {
      assert s.At(v).Holds(j) ==> RowFits(s, s.At(v), j) && s.At(v) == Claiming(j);
    }
    assert CountOk(s, j) && JobAgrees(s, j) && RecordOk(s, s.jobs[j].snapshot);
    hide OneHolder, RowsFit, CountsOk, RecordsOk, PlacesFit, JobsAgree;
    assert OwnOk(s', j, Claiming(j)) by { assert s'.Starts(j) == s.Starts(j); }
    hide OwnOk, CountOk, JobAgrees, RecordOk;
    assert Frame(s, s', w, j, Claiming(j));
    hide OneJobEach, Frame;
    FrameKeeps(s, s', w, j, Claiming(j));
  }

  lemma {:induction false} HeldFacts(s: State, w: WorkerId, j: JobId)
    requires Inv(s) && s.At(w).Holds(j)
    ensures j in s.jobs && s.jobs[j].snapshot in s.snapshots && RowFits(s, s.At(w), j)
    ensures SnapshotFits(s.At(w), s.snapshots[s.jobs[j].snapshot].status)
    ensures CountOk(s, j) && JobAgrees(s, j) && RecordOk(s, s.jobs[j].snapshot)
  {
    hide SnapshotFits;
  }

  lemma {:induction false} CommitClaimKeeps(s: State, w: WorkerId)
    requires Inv(s) && Working(s, w) && s.At(w).Claiming?
    ensures Inv(AfterCommitClaim(s, w))
  {
    hide Inv;
    var s', j := AfterCommitClaim(s, w), s.At(w).job;
    HeldFacts(s, w, j);
    assert Frame(s, s', w, j, s'.At(w));
    hide Frame;
    FrameKeeps(s, s', w, j, s'.At(w));
  }

  /** The handler is started. */
  lemma {:induction false} StartKeeps(s: State, w: WorkerId, j: JobId)
    requires Inv(s) && s.At(w) == Claimed(j)
    ensures Inv(Move(s.(starts := s.starts[j := s.Starts(j) + 1]), w, Handling(j)))
  {
    hide Inv;
    var s' := Move(s.(starts := s.starts[j := s.Starts(j) + 1]), w, Handling(j));
    HeldFacts(s, w, j);
    assert s'.Starts(j) == 1;
    assert Frame(s, s', w, j, Handling(j));
    hide Frame;
    FrameKeeps(s, s', w, j, Handling(j));
  }

  /** There is no handler for the type of the job. */
  lemma {:induction false} RefuseKeeps(s: State, w: WorkerId, j: JobId, job: Job)
    requires Inv(s) && s.At(w) == Claimed(j) && j in s.jobs
    requires job.status == Failed && job.attemptCount == s.jobs[j].attemptCount && job.snapshot == s.jobs[j].snapshot
    ensures Inv(Move(PutJob(s, j, job), w, Idle))
  {
    hide Inv;
    var s' := Move(PutJob(s, j, job), w, Idle);
    HeldFacts(s, w, j);
    assert Frame(s, s', w, j, Idle);
    hide Frame;
    FrameKeeps(s, s', w, j, Idle);
  }

  lemma {:induction false} DispatchKeeps(c: Config, s: State, w: WorkerId)
    requires Inv(s) && Working(s, w) && s.At(w).Claimed?
    ensures Inv(AfterDispatch(c, s, w))
  {
    hide Inv, UnknownType;
    var j := s.At(w).job;
    if s.jobs[j].jobType in c.handlers {
      StartKeeps(s, w, j);
    } else {
      RefuseKeeps(s, w, j, AfterDispatch(c, s, w).jobs[j]);
    }
  }

  lemma {:induction false} BeginKeeps(s: State, w: WorkerId, connection: bool)
    requires Inv(s) && Working(s, w) && s.At(w).Handling?
    ensures Inv(AfterBegin(s, w, connection))
  {
    hide Inv;
    var s', j := AfterBegin(s, w, connection), s.At(w).job;
    HeldFacts(s, w, j);
    assert Frame(s, s', w, j, s'.At(w));
    hide Frame;
    FrameKeeps(s, s', w, j, s'.At(w));
  }

  lemma {:induction false} IntrospectKeeps(s: State, w: WorkerId, result: Option<string>, message: string)
    requires Inv(s) && s.At(w).Introspecting?
    ensures Inv(AfterIntrospect(s, w, result, message))
  {
    hide Inv;
    var s', j := AfterIntrospect(s, w, result, message), s.At(w).job;
    HeldFacts(s, w, j);
    assert Frame(s, s', w, j, s'.At(w));
    hide Frame;
    FrameKeeps(s, s', w, j, s'.At(w));
  }

  lemma {:induction false} RecordKeeps(s: State, w: WorkerId)
    requires Inv(s) && Working(s, w) && s.At(w).Recording?
    ensures Inv(AfterRecord(s, w))
  {
    hide Inv;
    var s', j := AfterRecord(s, w), s.At(w).job;
    HeldFacts(s, w, j);
    assert Frame(s, s', w, j, s'.At(w));
    hide Frame;
    FrameKeeps(s, s', w, j, s'.At(w));
  }

  lemma {:induction false} StoreKeeps(s: State, w: WorkerId)
    requires Inv(s) && Working(s, w) && s.At(w).Storing?
    ensures Inv(AfterStore(s, w))
  {
    hide Inv;
    var s', j := AfterStore(s, w), s.At(w).job;
    HeldFacts(s, w, j);
    assert Frame(s, s', w, j, s'.At(w));
    hide Frame;
    FrameKeeps(s, s', w, j, s'.At(w));
  }

  lemma {:induction false} FinishKeeps(s: State, w: WorkerId)
    requires Inv(s) && Working(s, w) && (s.At(w).Returned? || s.At(w).Raised?)
    ensures Inv(AfterFinish(s, w))
  {
    hide Inv;
    var s', j := AfterFinish(s, w), s.At(w).job;
    HeldFacts(s, w, j);
    FinishFrame(s, w);
    hide Frame;
    FrameKeeps(s, s', w, j, s'.At(w));
  }

  lemma {:induction false} FinishFrame(s: State, w: WorkerId)
    requires Inv(s) && Working(s, w) && (s.At(w).Returned? || s.At(w).Raised?)
    ensures var s' := AfterFinish(s, w); Frame(s, s', w, s.At(w).job, s'.At(w))
  {
    hide Inv;
    HeldFacts(s, w, s.At(w).job);
  }

  lemma {:induction false} AbortKeeps(s: State, w: WorkerId, message: string)
    requires Inv(s) && !s.At(w).Idle? && !s.At(w).Popped? && !s.At(w).Claiming? && !s.At(w).Claimed?
      && !s.At(w).Raised?
    ensures Inv(AfterAbort(s, w, message))
  {
    hide Inv;
    var s', j := AfterAbort(s, w, message), s.At(w).job;
    HeldFacts(s, w, j);
    assert Frame(s, s', w, j, s'.At(w));
    hide Frame;
    FrameKeeps(s, s', w, j, s'.At(w));
  }

  /** Asking for work, with or without success. */
  lemma {:induction false} PopKeeps(c: Config, s: State, w: WorkerId, m: Option<string>)
    requires Inv(s)
    ensures Inv(AfterPop(c, s, w, m))
  {
    hide Inv;
    if m.None? {
      FreeMoveKeeps(s, AfterPop(c, s, w, m), w, Popped(None));
    } else {
      FreeMoveKeeps(s, AfterPop(c, s, w, m), w, Popped(c.decode(m.value)));
    }
  }

  lemma {:induction false} ClaimSignaledKeeps(s: State, w: WorkerId)
    requires Inv(s) && s.At(w).Popped? && s.At(w).signal.Some?
    ensures Inv(AfterClaimSignaled(s, w))
  {
    hide Inv, Due, Locked;
    var j := s.At(w).signal.value;
    if Due(s, j) && !Locked(s, j) {
      ClaimKeeps(s, w, j);
    } else {
      FreeMoveKeeps(s, AfterClaimSignaled(s, w), w, Popped(None));
    }
  }

  lemma {:induction false} PollKeeps(c: Config, s: State, w: WorkerId, j: Option<JobId>)
    requires Inv(s) && CanPoll(c, s, w, j)
    ensures Inv(AfterPoll(s, w, j))
  {
    hide Inv, Due, Locked;
    if j.Some? {
      ClaimKeeps(s, w, j.value);
    } else {
      FreeMoveKeeps(s, AfterPoll(s, w, j), w, Idle);
    }
  }

  lemma {:induction false} CrashKeeps(s: State, w: WorkerId)
    requires Inv(s)
    ensures Inv(AfterCrash(s, w))
  {
    hide Inv;
    FreeMoveKeeps(s, AfterCrash(s, w), w, Idle);
  }

  /** Every step of every worker, of the API and of Valkey keeps the invariant. */
  lemma {:induction false} StepKeeps(c: Config, s: State, step: Step)
    requires Inv(s) && Enabled(c, s, step)
    ensures Inv(Next(c, s, step))
  {
    hide Inv, CanPoll, LeastDue, AfterCreate, AfterPop, AfterClaimSignaled, AfterPoll, AfterCommitClaim,
      AfterDispatch, AfterBegin, AfterIntrospect, AfterRecord, AfterStore, AfterFinish, AfterAbort, AfterCrash;
    match step
    case Create(j, id) => CreateKeeps(s, j, id);
    case Signals(signals) => OutsideKeeps(s, s.(signals := signals));
    case Tick(now) => OutsideKeeps(s, s.(now := now));
    case Pop(w, m) => PopKeeps(c, s, w, m);
    case ClaimSignaled(w) => ClaimSignaledKeeps(s, w);
    case Poll(w, j) => PollKeeps(c, s, w, j);
    case CommitClaim(w) => CommitClaimKeeps(s, w);
    case Dispatch(w) => DispatchKeeps(c, s, w);
    case Begin(w, connection) => BeginKeeps(s, w, connection);
    case Introspect(w, result, message) => IntrospectKeeps(s, w, result, message);
    case Record(w) => RecordKeeps(s, w);
    case Store(w) => StoreKeeps(s, w);
    case Finish(w) => FinishKeeps(s, w);
    case Abort(w, message) => AbortKeeps(s, w, message);
    case Crash(w) => CrashKeeps(s, w);
  }

  // ---------------------------------------------------------------- whole runs

  lemma {:induction false} RunInv(c: Config, run: seq<State>, steps: seq<Step>, i: nat)
    requires IsRun(c, run, steps) && i < |run|
    ensures Inv(run[i])
  {
    hide Inv, Enabled, Next;
    if i == 0 {
      InitialInv(run[0]);
    } else {
      RunInv(c, run, steps, i - 1);
      StepKeeps(c, run[i - 1], steps[i - 1]);
    }
  }

  /** In every state of every run, a job was attempted and its handler started at most once. */
  lemma {:induction false} AtMostOnce(c: Config, run: seq<State>, steps: seq<Step>, i: nat, j: JobId)
    requires IsRun(c, run, steps) && i < |run|
    ensures run[i].Starts(j) <= 1
    ensures j in run[i].jobs ==> run[i].jobs[j].attemptCount <= 1
  {
    RunInv(c, run, steps, i);
    assert CountOk(run[i], j);
    hide IsRun;
  }

  /** The only ways in which a status may change. */
  predicate Forward(a: Status, b: Status) {
    a == b || a == Queued || (a == Running && b != Queued)
  }

  /** The row of the job is all that changes, and its status moves forward. */
  ghost predicate Advances(s: State, s': State, j: JobId) {
    && j in s.jobs && s'.jobs.Keys == s.jobs.Keys
    && (forall i :: i != j && i in s.jobs ==> s'.jobs[i] == s.jobs[i])
    && s'.jobs[j].snapshot == s.jobs[j].snapshot && Forward(s.jobs[j].status, s'.jobs[j].status)
  }

  lemma {:induction false} RowStatus(s: State, w: WorkerId)
    requires Inv(s) && Working(s, w)
    ensures s.jobs[s.At(w).job].status == if s.At(w).Claiming? then Queued else Running
  {
    hide Inv, SnapshotFits, RecordOk, JobAgrees, CountOk;
    HeldFacts(s, w, s.At(w).job);
  }

  lemma {:induction false} ClaimAdvances(s: State, w: WorkerId)
    requires Inv(s) && Working(s, w) && s.At(w).Claiming?
    ensures Advances(s, AfterCommitClaim(s, w), s.At(w).job)
  {
    hide Inv;
    RowStatus(s, w);
  }

  lemma {:induction false} DispatchAdvances(c: Config, s: State, w: WorkerId)
    requires Inv(s) && Working(s, w) && s.At(w).Claimed?
    ensures Advances(s, AfterDispatch(c, s, w), s.At(w).job)
  {
    hide Inv, UnknownType;
    RowStatus(s, w);
  }

  lemma {:induction false} FinishAdvances(s: State, w: WorkerId)
    requires Inv(s) && Working(s, w) && (s.At(w).Returned? || s.At(w).Raised?)
    ensures Advances(s, AfterFinish(s, w), s.At(w).job)
  {
    hide Inv;
    RowStatus(s, w);
  }

  predicate WritesRow(step: Step) {
    step.CommitClaim? || step.Dispatch? || step.Finish?
  }

  /** The steps that write the row of a job. */
  lemma {:induction false} StatusWritten(c: Config, s: State, step: Step)
    requires Inv(s) && Enabled(c, s, step) && WritesRow(step)
    ensures s.At(step.w).Holds(s.At(step.w).job)
    ensures Advances(s, Next(c, s, step), s.At(step.w).job)
    ensures s.jobs[s.At(step.w).job].status == Queued ==> step.CommitClaim?
  {
    hide Inv, Advances, CanPoll, LeastDue, AfterCreate, AfterPop, AfterClaimSignaled, AfterPoll, AfterCommitClaim,
      AfterDispatch, AfterBegin, AfterIntrospect, AfterRecord, AfterStore, AfterFinish, AfterAbort, AfterCrash;
    RowStatus(s, step.w);
    match step
    case CommitClaim(w) => ClaimAdvances(s, w);
    case Dispatch(w) => DispatchAdvances(c, s, w);
    case Finish(w) => FinishAdvances(s, w);
  }

  lemma {:induction false} StatusKept(c: Config, s: State, step: Step)
    requires Enabled(c, s, step) && !WritesRow(step)
    ensures forall j :: j in s.jobs ==> j in Next(c, s, step).jobs && Next(c, s, step).jobs[j] == s.jobs[j]
  {
    hide CanPoll, LeastDue, GoesOn, AfterPop, AfterClaimSignaled, AfterPoll, AfterCommitClaim, AfterDispatch,
      AfterBegin, AfterIntrospect, AfterRecord, AfterStore, AfterFinish, AfterAbort, AfterCrash;
  }

  lemma {:induction false} StatusStep(c: Config, s: State, step: Step, j: JobId)
    requires Inv(s) && Enabled(c, s, step) && j in s.jobs
    ensures j in Next(c, s, step).jobs
    ensures Next(c, s, step).jobs[j].snapshot == s.jobs[j].snapshot
    ensures Forward(s.jobs[j].status, Next(c, s, step).jobs[j].status)
    ensures s.jobs[j].status == Queued && Next(c, s, step).jobs[j].status != Queued ==> step.CommitClaim?
  {
    hide Inv, Enabled, Next;
    if WritesRow(step) {
      StatusWritten(c, s, step);
    } else {
      StatusKept(c, s, step);
    }
  }

  /** Over any stretch of any run, a job's status only moves forward. */
  lemma {:induction false} StatusOnlyForward(c: Config, run: seq<State>, steps: seq<Step>, i: nat, k: nat, j: JobId)
    requires IsRun(c, run, steps) && i <= k < |run| && j in run[i].jobs
    ensures j in run[k].jobs && Forward(run[i].jobs[j].status, run[k].jobs[j].status)
    decreases k - i
  {
    hide Inv, Enabled, Next;
    if i < k {
      StatusOnlyForward(c, run, steps, i, k - 1, j);
      RunInv(c, run, steps, k - 1);
      StatusStep(c, run[k - 1], steps[k - 1], j);
    }
  }

  /** In every state of every run, what the rows say about a snapshot and its job fits together. */
  lemma {:induction false} SnapshotsSafe(c: Config, run: seq<State>, steps: seq<Step>, i: nat, id: SnapshotId)
    requires IsRun(c, run, steps) && i < |run|
    ensures id in run[i].data <==> id in run[i].snapshots && run[i].snapshots[id].status == Succeeded
    ensures id in run[i].snapshots && run[i].snapshots[id].status == Failed ==>
      run[i].snapshots[id].errorMessage.Some? && run[i].snapshots[id].finishedAt.Some?
    ensures forall j :: j in run[i].jobs && run[i].jobs[j].snapshot == id && run[i].jobs[j].status == Succeeded ==>
      id in run[i].snapshots && run[i].snapshots[id].status == Succeeded && id in run[i].data
  {
    RunInv(c, run, steps, i);
    assert RecordOk(run[i], id);
    forall j | j in run[i].jobs && run[i].jobs[j].snapshot == id
      ensures JobAgrees(run[i], j) && id in run[i].snapshots
    {
    }
    hide IsRun;
  }

  // ---------------------------------------------------------------- without Valkey

  /** The state with nothing of Valkey in it; a worker that asked Valkey counts as idle. */
  ghost function Erase(s: State): State {
    s.(signals := map[],
       workers := map w | w in s.workers && !s.workers[w].Idle? && !s.workers[w].Popped? :: s.workers[w])
  }

  /** A queue that only has its table, and hands out any job that is due and not locked. */
  ghost predicate DbOnlyStep(c: Config, t: State, t': State) {
    || t' == t
    || (exists w, j :: t.At(w) == Idle && Due(t, j) && !Locked(t, j) && t' == Erase(Move(t, w, Claiming(j))))
    || (exists step :: !UsesValkey(step) && Enabled(c, t, step) && t' == Erase(Next(c, t, step)))
  }

  /** The steps of claiming and signalling. */
  predicate UsesValkey(step: Step) {
    step.Signals? || step.Pop? || step.ClaimSignaled? || step.Poll?
  }

  lemma {:induction false} ErasedAt(s: State, w: WorkerId)
    ensures Erase(s).At(w) == if s.At(w).Popped? then Idle else s.At(w)
    ensures Erase(s) == s.(signals := map[], workers := Erase(s).workers)
  {
  }

  lemma {:induction false} ErasedLocks(s: State, j: JobId)
    ensures Locked(Erase(s), j) <==> Locked(s, j)
  {
    forall w ensures Erase(s).At(w) == if s.At(w).Popped? then Idle else s.At(w) {
      ErasedAt(s, w);
    }
  }

  lemma {:induction false} ErasedMove(s: State, w: WorkerId, p: Place)
    ensures Erase(Move(s, w, p)) == Erase(Move(Erase(s), w, p))
  {
  }

  lemma {:induction false} ErasedFreeMove(s: State, s': State, w: WorkerId, p: Place)
    requires (p.Idle? || p.Popped?) && (s.At(w).Idle? || s.At(w).Popped?)
    requires s' == Move(s, w, p).(signals := s'.signals)
    ensures Erase(s') == Erase(s)
  {
    assert Erase(s').workers == Erase(s).workers;
  }

  lemma {:induction false} ErasedClaim(c: Config, s: State, w: WorkerId, j: JobId)
    requires (s.At(w).Idle? || s.At(w).Popped?) && Due(s, j) && !Locked(s, j)
    ensures DbOnlyStep(c, Erase(s), Erase(Move(s, w, Claiming(j))))
  {
    ErasedAt(s, w);
    ErasedLocks(s, j);
    ErasedMove(s, w, Claiming(j));
    var t := Erase(s);
    assert t.At(w) == Idle && Due(t, j) && !Locked(t, j);
    assert Erase(Move(s, w, Claiming(j))) == Erase(Move(t, w, Claiming(j)));
  }

  /** Erasing sees only rows and places. */
  lemma {:induction false} ErasedUpdate(s: State, w: WorkerId, p: Place, rows: State)
    ensures var x := s.(jobs := rows.jobs, snapshots := rows.snapshots, data := rows.data, starts := rows.starts);
      var y := Erase(s).(jobs := rows.jobs, snapshots := rows.snapshots, data := rows.data, starts := rows.starts);
      Erase(Move(x, w, p)) == Erase(Move(y, w, p))
  {
  }

  lemma {:induction false} ErasedCommitClaim(s: State, w: WorkerId)
    requires Working(s, w) && s.At(w).Claiming?
    ensures Working(Erase(s), w) && Erase(s).At(w).Claiming?
    ensures Erase(AfterCommitClaim(s, w)) == Erase(AfterCommitClaim(Erase(s), w))
  {
    hide Erase;
    ErasedAt(s, w);
    var s' := AfterCommitClaim(s, w);
    ErasedUpdate(s, w, s'.At(w), s');
  }

  lemma {:induction false} ErasedDispatch(c: Config, s: State, w: WorkerId)
    requires Working(s, w) && s.At(w).Claimed?
    ensures Working(Erase(s), w) && Erase(s).At(w).Claimed?
    ensures Erase(AfterDispatch(c, s, w)) == Erase(AfterDispatch(c, Erase(s), w))
  {
    hide Erase, UnknownType;
    ErasedAt(s, w);
    var j := s.At(w).job;
    if s.jobs[j].jobType in c.handlers {
      ErasedUpdate(s, w, Handling(j), s.(starts := s.starts[j := s.Starts(j) + 1]));
    } else {
      ErasedUpdate(s, w, Idle, PutJob(s, j, AfterDispatch(c, s, w).jobs[j]));
    }
  }

  lemma {:induction false} ErasedFinish(s: State, w: WorkerId)
    requires Working(s, w) && (s.At(w).Returned? || s.At(w).Raised?)
    ensures Working(Erase(s), w) && (Erase(s).At(w).Returned? || Erase(s).At(w).Raised?)
    ensures Erase(AfterFinish(s, w)) == Erase(AfterFinish(Erase(s), w))
  {
    hide Erase;
    ErasedAt(s, w);
    var s' := AfterFinish(s, w);
    ErasedUpdate(s, w, s'.At(w), s');
  }

  lemma {:induction false} ErasedBegin(s: State, w: WorkerId, connection: bool)
    requires Working(s, w) && s.At(w).Handling?
    ensures Working(Erase(s), w) && Erase(s).At(w).Handling?
    ensures Erase(AfterBegin(s, w, connection)) == Erase(AfterBegin(Erase(s), w, connection))
  {
    hide Erase;
    ErasedAt(s, w);
    var j, id := s.At(w).job, s.jobs[s.At(w).job].snapshot;
    if id !in s.snapshots {
      ErasedMove(s, w, Raised(j, SnapshotMissing()));
    } else if !connection {
      ErasedMove(s, w, Raised(j, ConnectionMissing()));
    } else {
      var snap := s.snapshots[id].(status := Running, startedAt := Some(s.now));
      ErasedUpdate(s, w, Introspecting(j), PutSnapshot(s, id, snap));
    }
  }

  lemma {:induction false} ErasedRecord(s: State, w: WorkerId)
    requires Working(s, w) && s.At(w).Recording?
    ensures Working(Erase(s), w) && Erase(s).At(w).Recording?
    ensures Erase(AfterRecord(s, w)) == Erase(AfterRecord(Erase(s), w))
  {
    hide Erase;
    ErasedAt(s, w);
    var s' := AfterRecord(s, w);
    ErasedUpdate(s, w, s'.At(w), s');
  }

  lemma {:induction false} ErasedStore(s: State, w: WorkerId)
    requires Working(s, w) && s.At(w).Storing?
    ensures Working(Erase(s), w) && Erase(s).At(w).Storing?
    ensures Erase(AfterStore(s, w)) == Erase(AfterStore(Erase(s), w))
  {
    hide Erase;
    ErasedAt(s, w);
    var s' := AfterStore(s, w);
    ErasedUpdate(s, w, s'.At(w), s');
  }

  lemma {:induction false} ErasedIntrospect(s: State, w: WorkerId, result: Option<string>, message: string)
    requires s.At(w).Introspecting?
    ensures Erase(s).At(w).Introspecting?
    ensures Erase(AfterIntrospect(s, w, result, message)) == Erase(AfterIntrospect(Erase(s), w, result, message))
  {
    hide Erase;
    ErasedAt(s, w);
    ErasedMove(s, w, AfterIntrospect(s, w, result, message).At(w));
  }

  lemma {:induction false} ErasedAbort(s: State, w: WorkerId, message: string)
    requires !s.At(w).Idle? && !s.At(w).Popped?
    ensures !Erase(s).At(w).Idle? && !Erase(s).At(w).Popped?
    ensures Erase(AfterAbort(s, w, message)) == Erase(AfterAbort(Erase(s), w, message))
  {
    hide Erase;
    ErasedAt(s, w);
    ErasedMove(s, w, AfterAbort(s, w, message).At(w));
  }

  lemma {:induction false} ErasedCrash(s: State, w: WorkerId)
    ensures Erase(AfterCrash(s, w)) == Erase(AfterCrash(Erase(s), w))
  {
    hide Erase;
    ErasedMove(s, w, Idle);
  }

  lemma {:induction false} ErasedOutside(s: State, rows: State)
    requires rows.workers == s.workers && rows.signals == s.signals
    ensures Erase(rows) == Erase(Erase(s).(now := rows.now, jobs := rows.jobs, snapshots := rows.snapshots,
                                           data := rows.data, starts := rows.starts))
  {
  }

  /** A step that Valkey has no part in is the same step without it. */
  lemma {:induction false} ErasedTableStep(c: Config, s: State, step: Step)
    requires !UsesValkey(step) && Enabled(c, s, step)
    ensures Enabled(c, Erase(s), step) && Erase(Next(c, s, step)) == Erase(Next(c, Erase(s), step))
  {
    hide Erase, Working, CanPoll, LeastDue, AfterPop, AfterClaimSignaled, AfterPoll, AfterCommitClaim, AfterDispatch,
      AfterBegin, AfterIntrospect, AfterRecord, AfterStore, AfterFinish, AfterAbort, AfterCrash;
    match step
    case CommitClaim(w) => ErasedCommitClaim(s, w);
    case Dispatch(w) => ErasedDispatch(c, s, w);
    case Finish(w) => ErasedFinish(s, w);
    case Begin(w, connection) => ErasedBegin(s, w, connection);
    case Record(w) => ErasedRecord(s, w);
    case Store(w) => ErasedStore(s, w);
    case Introspect(w, result, message) => ErasedIntrospect(s, w, result, message);
    case Abort(w, message) =>
      ErasedAt(s, w);
      ErasedAbort(s, w, message);
    case Crash(w) => ErasedCrash(s, w);
    case Create(j, id) =>
      ErasedAt(s, 0);
      ErasedOutside(s, AfterCreate(s, j, id));
    case Tick(now) =>
      ErasedAt(s, 0);
      ErasedOutside(s, s.(now := now));
  }

  /** Signals, polls and claims: nothing happens to the table, or a due job is handed out. */
  lemma {:induction false} ErasedClaimStep(c: Config, s: State, step: Step)
    requires UsesValkey(step) && Enabled(c, s, step)
    ensures DbOnlyStep(c, Erase(s), Erase(Next(c, s, step)))
  {
    hide Erase, Due, Locked, LeastDue, AfterCreate, AfterCommitClaim, AfterDispatch, AfterBegin,
      AfterIntrospect, AfterRecord, AfterStore, AfterFinish, AfterAbort, AfterCrash;
    match step
    case Signals(signals) => SignalsErased(s, signals);
    case Pop(w, m) => ErasedFreeMove(s, AfterPop(c, s, w, m), w, AfterPop(c, s, w, m).At(w));
    case ClaimSignaled(w) =>
      var j := s.At(w).signal.value;
      if Due(s, j) && !Locked(s, j) {
        ErasedClaim(c, s, w, j);
      } else {
        ErasedFreeMove(s, Move(s, w, Popped(None)), w, Popped(None));
      }
    case Poll(w, j) =>
      if j.Some? { ErasedClaim(c, s, w, j.value); } else { ErasedFreeMove(s, Move(s, w, Idle), w, Idle); }
  }

  lemma {:induction false} SignalsErased(s: State, signals: map<string, int>)
    ensures Erase(s.(signals := signals)) == Erase(s)
  {
  }

  lemma {:induction false} ErasedStep(c: Config, s: State, step: Step)
    requires Enabled(c, s, step)
    ensures DbOnlyStep(c, Erase(s), Erase(Next(c, s, step)))
  {
    hide Erase, Enabled, Next;
    if UsesValkey(step) {
      ErasedClaimStep(c, s, step);
    } else {
      ErasedTableStep(c, s, step);
    }
  }

  /** A run of the queue that only has its table. */
  ghost predicate IsDbOnlyRun(c: Config, run: seq<State>) {
    && run != [] && Initial(run[0]) && run[0].signals == map[]
    && forall i :: 0 <= i < |run| - 1 ==> DbOnlyStep(c, run[i], run[i + 1])
  }

  ghost function Erased(run: seq<State>): seq<State> {
    seq(|run|, i requires 0 <= i < |run| => Erase(run[i]))
  }

  lemma {:induction false} InitialErased(s: State)
    requires Initial(s)
    ensures Initial(Erase(s)) && Erase(s).signals == map[]
  {
  }

  /** Erasing the Valkey state turns any run into a run of the queue that only has its table. */
  lemma {:induction false} RunWithoutValkey(c: Config, run: seq<State>, steps: seq<Step>)
    requires IsRun(c, run, steps)
    ensures IsDbOnlyRun(c, Erased(run))
  {
    hide DbOnlyStep, Erase, Enabled, Next, Initial;
    InitialErased(run[0]);
    forall i | 0 <= i < |run| - 1 ensures DbOnlyStep(c, Erased(run)[i], Erased(run)[i + 1]) {
      assert Enabled(c, run[i], steps[i]) && run[i + 1] == Next(c, run[i], steps[i]);
      ErasedStep(c, run[i], steps[i]);
    }
  }
}
