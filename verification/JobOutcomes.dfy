/**
 What becomes of jobs and snapshots in the protocol of backend/app/jobs: which jobs a crash strands, which
 snapshots of failed jobs are failed, and that the outcomes are possible.
 */
module JobOutcomes {
  import opened Dicts
  import opened JobQueue

  // ---------------------------------------------------------------- jobs that a crash leaves behind

  /** Marked as running, but no worker has it. */
  ghost predicate Stranded(s: State, j: JobId) {
    j in s.jobs && s.jobs[j].status == Running && NobodyHolds(s, j)
  }

  predicate ByWorker(step: Step, v: WorkerId) {
    !step.Create? && !step.Signals? && !step.Tick? && step.w == v
  }

  predicate AsksForWork(step: Step) {
    step.Pop? || step.ClaimSignaled? || step.Poll?
  }

  /** What a step does to the worker that takes it. */
  lemma {:induction false} WorkerStep(c: Config, s: State, step: Step)
    requires Enabled(c, s, step) && !step.Create? && !step.Signals? && !step.Tick?
    ensures if AsksForWork(step) then Asks(s, Next(c, s, step), step.w) else GoesOn(s, Next(c, s, step), step.w)
  {
    hide CanPoll, LeastDue, Asks, GoesOn, AfterCreate, AfterPop, AfterClaimSignaled, AfterPoll, AfterCommitClaim,
      AfterDispatch, AfterBegin, AfterIntrospect, AfterRecord, AfterStore, AfterFinish, AfterAbort, AfterCrash;
  }

  lemma {:induction false} OthersStay(c: Config, s: State, step: Step, v: WorkerId)
    requires Enabled(c, s, step) && !ByWorker(step, v)
    ensures Next(c, s, step).At(v) == s.At(v)
  {
    if step.Create? || step.Signals? || step.Tick? {
      NobodyMoves(c, s, step);
    } else {
      WorkerStep(c, s, step);
    }
    hide Enabled, Next;
  }

  lemma {:induction false} NobodyMoves(c: Config, s: State, step: Step)
    requires Enabled(c, s, step) && (step.Create? || step.Signals? || step.Tick?)
    ensures Next(c, s, step).workers == s.workers
  {
    hide CanPoll, LeastDue, GoesOn, Asks, AfterPop, AfterClaimSignaled, AfterPoll, AfterCommitClaim, AfterDispatch,
      AfterBegin, AfterIntrospect, AfterRecord, AfterStore, AfterFinish, AfterAbort, AfterCrash;
  }

  /** A worker takes up a job only while it is queued. */
  lemma {:induction false} NewHolds(c: Config, s: State, step: Step, v: WorkerId, j: JobId)
    requires Enabled(c, s, step) && Next(c, s, step).At(v).Holds(j)
    ensures s.At(v).Holds(j) || Due(s, j)
  {
    hide Enabled, Next, Due;
    if !ByWorker(step, v) {
      OthersStay(c, s, step, v);
    } else {
      WorkerStep(c, s, step);
    }
  }

  lemma {:induction false} StrandedStep(c: Config, s: State, step: Step, j: JobId)
    requires Inv(s) && Enabled(c, s, step) && Stranded(s, j)
    ensures Stranded(Next(c, s, step), j)
  {
    hide Inv, Enabled, Next;
    forall v ensures !Next(c, s, step).At(v).Holds(j) {
      if Next(c, s, step).At(v).Holds(j) {
        NewHolds(c, s, step, v, j);
      }
    }
    if WritesRow(step) {
      assert !s.At(step.w).Holds(j);
      StatusWritten(c, s, step);
    } else {
      StatusKept(c, s, step);
    }
  }

  /** A crash behind the claim leaves the job running. */
  lemma {:induction false} CrashStrands(s: State, w: WorkerId, j: JobId)
    requires Inv(s) && s.At(w).Holds(j) && !s.At(w).Claiming?
    ensures Stranded(AfterCrash(s, w), j)
  {
    hide CountsOk, OneJobEach, RecordsOk, PlacesFit, JobsAgree;
    assert RowFits(s, s.At(w), j);
    var s' := AfterCrash(s, w);
    forall v ensures !s'.At(v).Holds(j) {
      if v != w {
        assert s'.At(v) == s.At(v);
      }
    }
  }

  /** Before the claim is committed a crash only gives the row free. */
  lemma {:induction false} CrashWhileClaiming(s: State, w: WorkerId, j: JobId)
    requires Inv(s) && s.At(w) == Claiming(j)
    ensures !Stranded(AfterCrash(s, w), j)
  {
    hide CountsOk, OneJobEach, RecordsOk, PlacesFit, JobsAgree;
    assert RowFits(s, s.At(w), j);
  }

  lemma {:induction false} HolderStep(c: Config, s: State, step: Step)
    requires Enabled(c, s, step) && !step.Create? && !step.Signals? && !step.Tick? && !AsksForWork(step) && !step.Crash?
    ensures KeepsOrEnds(s, Next(c, s, step), step.w)
  {
    hide CanPoll, LeastDue, Asks, GoesOn, KeepsOrEnds, AfterCreate, AfterPop, AfterClaimSignaled, AfterPoll,
      AfterCommitClaim, AfterDispatch, AfterBegin, AfterIntrospect, AfterRecord, AfterStore, AfterFinish, AfterAbort,
      AfterCrash;
  }

  lemma {:induction false} AskersHoldNothing(c: Config, s: State, step: Step, j: JobId)
    requires Enabled(c, s, step) && AsksForWork(step)
    ensures !s.At(step.w).Holds(j)
  {
    hide LeastDue, Oldest, Due, Locked;
  }

  /** A job that somebody holds stays held, or ends, unless its worker crashes. */
  lemma {:induction false} HeldStep(c: Config, s: State, step: Step, v: WorkerId, j: JobId)
    requires Enabled(c, s, step) && s.At(v).Holds(j) && !(step.Crash? && step.w == v)
    ensures Next(c, s, step).At(v).Holds(j)
      || (j in Next(c, s, step).jobs && Next(c, s, step).jobs[j].status in {Succeeded, Failed})
  {
    hide Enabled, Next;
    if !ByWorker(step, v) {
      OthersStay(c, s, step, v);
    } else if AsksForWork(step) {
      AskersHoldNothing(c, s, step, j);
    } else {
      HolderStep(c, s, step);
    }
  }

  /** A job becomes running only by the claim of the worker that then holds it. */
  lemma {:induction false} RunningBefore(c: Config, s: State, step: Step, j: JobId)
    requires Inv(s) && Enabled(c, s, step) && j in Next(c, s, step).jobs && Next(c, s, step).jobs[j].status == Running
    ensures j in s.jobs && (s.jobs[j].status == Running || (step.CommitClaim? && s.At(step.w).Holds(j)))
  {
    hide Inv, Enabled, Next;
    if j in s.jobs {
      StatusStep(c, s, step, j);
      if s.jobs[j].status == Queued {
        StatusWritten(c, s, step);
      }
    } else {
      NewJobIsQueued(c, s, step, j);
    }
  }

  lemma {:induction false} NewJobIsQueued(c: Config, s: State, step: Step, j: JobId)
    requires Inv(s) && Enabled(c, s, step) && j in Next(c, s, step).jobs && j !in s.jobs
    ensures Next(c, s, step).jobs[j].status == Queued && Next(c, s, step).jobs[j].snapshot !in s.snapshots
    ensures Next(c, s, step).jobs[j].snapshot in Next(c, s, step).snapshots
    ensures Next(c, s, step).snapshots[Next(c, s, step).jobs[j].snapshot].status == Queued
  {
    if WritesRow(step) {
      hide Enabled, Next;
      StatusWritten(c, s, step);
    } else {
      hide Inv, CanPoll, LeastDue, GoesOn, KeepsOrEnds, AfterPop, AfterClaimSignaled, AfterPoll, AfterCommitClaim,
        AfterDispatch, AfterBegin, AfterIntrospect, AfterRecord, AfterStore, AfterFinish, AfterAbort, AfterCrash;
    }
  }

  /** A worker that has the job behind its claim crashes. */
  predicate StrandingCrash(s: State, step: Step, j: JobId) {
    step.Crash? && s.At(step.w).Holds(j) && !s.At(step.w).Claiming?
  }

  /** Exactly these crashes strand a job, and nothing recovers it. */
  lemma {:induction false} StrandedIff(c: Config, s: State, step: Step, j: JobId)
    requires Inv(s) && Enabled(c, s, step)
    ensures Stranded(Next(c, s, step), j) <==> Stranded(s, j) || StrandingCrash(s, step, j)
  {
    hide Inv, Enabled, Next, AfterCrash;
    if Stranded(s, j) {
      StrandedStep(c, s, step, j);
    } else if step.Crash? && s.At(step.w).Holds(j) {
      CrashIsNext(c, s, step);
      if s.At(step.w).Claiming? {
        CrashWhileClaiming(s, step.w, j);
      } else {
        CrashStrands(s, step.w, j);
      }
    } else if Stranded(Next(c, s, step), j) {
      RunningBefore(c, s, step, j);
      var v: WorkerId := if s.jobs[j].status == Running then Holder(s, j) else step.w;
      HeldStep(c, s, step, v, j);
    }
  }

  lemma {:induction false} CrashIsNext(c: Config, s: State, step: Step)
    requires Enabled(c, s, step) && step.Crash?
    ensures Next(c, s, step) == AfterCrash(s, step.w)
  {
    hide CanPoll, LeastDue, AfterCreate, AfterPop, AfterClaimSignaled, AfterPoll, AfterCommitClaim, AfterDispatch,
      AfterBegin, AfterIntrospect, AfterRecord, AfterStore, AfterFinish, AfterAbort, AfterCrash;
  }

  ghost function Holder(s: State, j: JobId): (v: WorkerId)
    requires !NobodyHolds(s, j)
    ensures s.At(v).Holds(j)
  {
    var v :| s.At(v).Holds(j);
    v
  }

  /** In every state of every run, the stranded jobs are those whose worker crashed behind its claim. */
  lemma {:induction false} StrandedInRunIff(c: Config, run: seq<State>, steps: seq<Step>, i: nat, j: JobId)
    requires IsRun(c, run, steps) && i < |run|
    ensures Stranded(run[i], j) <==> exists k :: 0 <= k < i && StrandingCrash(run[k], steps[k], j)
  {
    hide Inv, Enabled, Next, Stranded, StrandingCrash;
    if i == 0 {
      NobodyStranded(run[0], j);
    } else {
      StrandedInRunIff(c, run, steps, i - 1, j);
      RunInv(c, run, steps, i - 1);
      StrandedIff(c, run[i - 1], steps[i - 1], j);
    }
  }

  lemma {:induction false} NobodyStranded(s: State, j: JobId)
    requires Initial(s)
    ensures !Stranded(s, j)
  {
  }

  /** Nothing recovers a job that a crash has left running: no later step of any run touches it. */
  lemma {:induction false} StrandedStays(c: Config, run: seq<State>, steps: seq<Step>, i: nat, k: nat, j: JobId)
    requires IsRun(c, run, steps) && i <= k < |run| && Stranded(run[i], j)
    ensures Stranded(run[k], j)
    decreases k - i
  {
    hide Inv, Enabled, Next, Stranded;
    if i < k {
      StrandedStays(c, run, steps, i, k - 1, j);
      RunInv(c, run, steps, k - 1);
      StrandedStep(c, run[k - 1], steps[k - 1], j);
    }
  }

  // ---------------------------------------------------------------- the snapshots of failed jobs

  /** The handler of the job records that its introspection failed. */
  predicate RecordsFailure(s: State, step: Step, j: JobId) {
    step.Record? && s.At(step.w).Holds(j)
  }

  predicate WritesSnapshot(step: Step) {
    step.Create? || step.Begin? || step.Record? || step.Store?
  }

  lemma {:induction false} SnapshotsKept(c: Config, s: State, step: Step)
    requires Enabled(c, s, step) && !WritesSnapshot(step)
    ensures Next(c, s, step).snapshots == s.snapshots
  {
    hide CanPoll, LeastDue, GoesOn, KeepsOrEnds, AfterCreate, AfterPop, AfterClaimSignaled, AfterPoll, AfterCommitClaim,
      AfterDispatch, AfterBegin, AfterIntrospect, AfterRecord, AfterStore, AfterFinish, AfterAbort, AfterCrash;
  }

  /** The snapshots of two jobs are different ones. */
  lemma {:induction false} OwnSnapshot(s: State, i: JobId, j: JobId)
    requires Inv(s) && i in s.jobs && j in s.jobs
    ensures s.jobs[i].snapshot in s.snapshots && s.jobs[j].snapshot in s.snapshots
    ensures s.jobs[i].snapshot == s.jobs[j].snapshot ==> i == j
  {
    hide OneHolder, RowsFit, CountsOk, RecordsOk, PlacesFit, JobsAgree;
  }

  ghost predicate SnapshotFailed(s: State, j: JobId) {
    j in s.jobs && s.jobs[j].snapshot in s.snapshots && s.snapshots[s.jobs[j].snapshot].status == Failed
  }

  lemma {:induction false} BeginFails(s: State, w: WorkerId, connection: bool, j: JobId)
    requires Inv(s) && Working(s, w) && s.At(w).Handling? && j in s.jobs
    ensures SnapshotFailed(AfterBegin(s, w, connection), j) <==> SnapshotFailed(s, j)
  {
    hide Inv;
    HeldFacts(s, w, s.At(w).job);
    OwnSnapshot(s, s.At(w).job, j);
  }

  lemma {:induction false} StoreFails(s: State, w: WorkerId, j: JobId)
    requires Inv(s) && Working(s, w) && s.At(w).Storing? && j in s.jobs
    ensures SnapshotFailed(AfterStore(s, w), j) <==> SnapshotFailed(s, j)
  {
    hide Inv;
    HeldFacts(s, w, s.At(w).job);
    OwnSnapshot(s, s.At(w).job, j);
  }

  lemma {:induction false} RecordFails(s: State, w: WorkerId, j: JobId)
    requires Inv(s) && Working(s, w) && s.At(w).Recording? && j in s.jobs
    ensures SnapshotFailed(AfterRecord(s, w), j) <==> SnapshotFailed(s, j) || s.At(w).job == j
  {
    hide Inv;
    HeldFacts(s, w, s.At(w).job);
    OwnSnapshot(s, s.At(w).job, j);
  }

  lemma {:induction false} CreateFails(s: State, i: JobId, id: SnapshotId, j: JobId)
    requires Inv(s) && i !in s.jobs && id !in s.snapshots && j in s.jobs
    ensures SnapshotFailed(AfterCreate(s, i, id), j) <==> SnapshotFailed(s, j)
  {
    OwnSnapshot(s, j, j);
    hide Inv;
  }

  /** One step fails the snapshot of a job exactly by recording the failure. */
  lemma {:induction false} SnapshotFailsIff(c: Config, s: State, step: Step, j: JobId)
    requires Inv(s) && Enabled(c, s, step) && j in s.jobs
    ensures SnapshotFailed(Next(c, s, step), j) <==> SnapshotFailed(s, j) || RecordsFailure(s, step, j)
  {
    hide Inv, CanPoll, LeastDue, GoesOn, KeepsOrEnds, SnapshotFailed, AfterCreate, AfterPop, AfterClaimSignaled,
      AfterPoll, AfterCommitClaim, AfterDispatch, AfterBegin, AfterIntrospect, AfterRecord, AfterStore, AfterFinish,
      AfterAbort, AfterCrash;
    match step
    case Create(i, id) => CreateFails(s, i, id, j);
    case Begin(w, connection) => BeginFails(s, w, connection, j);
    case Record(w) => RecordFails(s, w, j);
    case Store(w) => StoreFails(s, w, j);
    case _ => OtherStepFails(c, s, step, j);
  }

  lemma {:induction false} OtherStepFails(c: Config, s: State, step: Step, j: JobId)
    requires Inv(s) && Enabled(c, s, step) && j in s.jobs && !WritesSnapshot(step)
    ensures SnapshotFailed(Next(c, s, step), j) <==> SnapshotFailed(s, j)
  {
    hide Inv, Enabled, Next;
    SnapshotsKept(c, s, step);
    StatusStep(c, s, step, j);
  }

  /**
   In every run, the snapshot of a job is failed exactly when its handler has recorded a failed introspection.
   A job may fail without that.
   */
  lemma {:induction false} FailedSnapshotIff(c: Config, run: seq<State>, steps: seq<Step>, i: nat, j: JobId)
    requires IsRun(c, run, steps) && i < |run|
    ensures SnapshotFailed(run[i], j) <==> exists k :: 0 <= k < i && RecordsFailure(run[k], steps[k], j)
  {
    hide Inv, Enabled, Next, SnapshotFailed, RecordsFailure;
    if i == 0 {
      NoSnapshot(run[0], j);
    } else {
      FailedSnapshotIff(c, run, steps, i - 1, j);
      RunInv(c, run, steps, i - 1);
      var s, step := run[i - 1], steps[i - 1];
      if j in s.jobs {
        SnapshotFailsIff(c, s, step, j);
      } else {
        NotYet(c, s, step, j);
      }
    }
  }

  lemma {:induction false} NoSnapshot(s: State, j: JobId)
    requires Initial(s)
    ensures !SnapshotFailed(s, j)
  {
  }

  lemma {:induction false} NotYet(c: Config, s: State, step: Step, j: JobId)
    requires Inv(s) && Enabled(c, s, step) && j !in s.jobs
    ensures !SnapshotFailed(s, j) && !SnapshotFailed(Next(c, s, step), j) && !RecordsFailure(s, step, j)
  {
    hide Enabled, Next, Inv;
    if j in Next(c, s, step).jobs {
      NewJobIsQueued(c, s, step, j);
    }
    if RecordsFailure(s, step, j) {
      HeldFacts(s, step.w, j);
    }
  }

  // ---------------------------------------------------------------- what is reachable

  ghost predicate Reachable(c: Config, s: State) {
    exists run: seq<State>, steps: seq<Step> | IsRun(c, run, steps) :: run[|steps|] == s
  }

  lemma {:induction false} ReachNext(c: Config, s: State, step: Step)
    requires Reachable(c, s) && Enabled(c, s, step)
    ensures Reachable(c, Next(c, s, step))
  {
    hide Enabled, Next, Initial;
    var run: seq<State>, steps: seq<Step> :| IsRun(c, run, steps) && run[|steps|] == s;
    var run', steps' := run + [Next(c, s, step)], steps + [step];
    assert IsRun(c, run', steps');
    assert run'[|steps'|] == Next(c, s, step);
  }

  const HANDLED := Config({"snapshot"}, false, (m: string) => None)

  const EMPTY := State(0, map[], map[], map[], map[], map[], map[])

  lemma {:induction false} RequestIsReachable() returns (s: State)
    ensures Reachable(HANDLED, s) && s == AfterCreate(EMPTY, 0, 0)
  {
    var none: seq<Step> := [];
    assert IsRun(HANDLED, [EMPTY], none) && [EMPTY][|none|] == EMPTY;
    assert Reachable(HANDLED, EMPTY);
    hide Reachable, IsRun, CanPoll, LeastDue, AfterPop, AfterClaimSignaled, AfterPoll, AfterCommitClaim, AfterDispatch,
      AfterBegin, AfterIntrospect, AfterRecord, AfterStore, AfterFinish, AfterAbort, AfterCrash;
    ReachNext(HANDLED, EMPTY, Create(0, 0));
    s := Next(HANDLED, EMPTY, Create(0, 0));
  }

  lemma {:induction false} LockIsReachable() returns (s: State)
    ensures Reachable(HANDLED, s) && s == Move(AfterCreate(EMPTY, 0, 0), 0, Claiming(0))
  {
    hide Reachable, AfterPop, AfterClaimSignaled, AfterCommitClaim, AfterDispatch, AfterBegin, AfterIntrospect,
      AfterRecord, AfterStore, AfterFinish, AfterAbort, AfterCrash;
    var s1 := RequestIsReachable();
    ReachNext(HANDLED, s1, Poll(0, Some(0)));
    s := Next(HANDLED, s1, Poll(0, Some(0)));
  }

  /** A snapshot was requested and a worker has committed its claim. */
  lemma {:induction false} ClaimIsReachable() returns (s: State)
    ensures Reachable(HANDLED, s) && s.workers == map[0 := Claimed(0)] && s.data == map[] && s.starts == map[]
    ensures s.jobs == map[0 := Job("snapshot", Running, 0, 0, 1, Some(0), None, None)]
    ensures s.snapshots == map[0 := Snapshot(Queued, None, None, None)]
  {
    hide Reachable, CanPoll, LeastDue, AfterPop, AfterClaimSignaled, AfterPoll, AfterDispatch, AfterBegin,
      AfterIntrospect, AfterRecord, AfterStore, AfterFinish, AfterAbort, AfterCrash;
    var s2 := LockIsReachable();
    ReachNext(HANDLED, s2, CommitClaim(0));
    s := Next(HANDLED, s2, CommitClaim(0));
  }

  /** There are such jobs. */
  lemma {:induction false} StrandedIsReachable()
    ensures exists s :: Reachable(HANDLED, s) && Stranded(s, 0)
  {
    hide Reachable, CanPoll, LeastDue, AfterCreate, AfterPop, AfterClaimSignaled, AfterPoll, AfterCommitClaim,
      AfterDispatch, AfterBegin, AfterIntrospect, AfterRecord, AfterStore, AfterFinish, AfterAbort;
    var s := ClaimIsReachable();
    var s' := Next(HANDLED, s, Crash(0));
    ReachNext(HANDLED, s, Crash(0));
    assert forall v :: s'.At(v) == Idle;
    assert Stranded(s', 0);
  }

  lemma {:induction false} IntrospectionIsReachable() returns (s: State)
    ensures Reachable(HANDLED, s) && s.workers == map[0 := Introspecting(0)] && s.data == map[]
    ensures 0 in s.jobs && s.jobs[0].status == Running && s.jobs[0].snapshot == 0
    ensures 0 in s.snapshots && s.snapshots[0].status == Running
  {
    hide Reachable, CanPoll, LeastDue, AfterCreate, AfterPop, AfterClaimSignaled, AfterPoll, AfterCommitClaim,
      AfterIntrospect, AfterRecord, AfterStore, AfterFinish, AfterAbort, AfterCrash;
    var s1 := ClaimIsReachable();
    ReachNext(HANDLED, s1, Dispatch(0));
    var s2 := Next(HANDLED, s1, Dispatch(0));
    ReachNext(HANDLED, s2, Begin(0, true));
    s := Next(HANDLED, s2, Begin(0, true));
  }

  lemma {:induction false} StoredIsReachable(data: string) returns (s: State)
    ensures Reachable(HANDLED, s) && s.workers == map[0 := Returned(0)] && s.data == map[0 := data]
    ensures 0 in s.jobs && s.jobs[0].snapshot == 0 && 0 in s.snapshots && s.snapshots[0].status == Succeeded
  {
    hide Reachable, CanPoll, LeastDue, AfterCreate, AfterPop, AfterClaimSignaled, AfterPoll, AfterCommitClaim,
      AfterDispatch, AfterBegin, AfterRecord, AfterFinish, AfterAbort, AfterCrash;
    var s1 := IntrospectionIsReachable();
    var s2 := Next(HANDLED, s1, Introspect(0, Some(data), ""));
    ReachNext(HANDLED, s1, Introspect(0, Some(data), ""));
    s := Next(HANDLED, s2, Store(0));
    ReachNext(HANDLED, s2, Store(0));
  }

  /** And a worker that is left in peace brings the job and its snapshot to an end. */
  lemma {:induction false} SuccessIsReachable(data: string)
    ensures exists s ::
      && Reachable(HANDLED, s) && 0 in s.jobs && s.jobs[0].status == Succeeded
      && 0 in s.snapshots && s.snapshots[0].status == Succeeded && s.data == map[0 := data]
  {
    hide Reachable, CanPoll, LeastDue, AfterCreate, AfterPop, AfterClaimSignaled, AfterPoll, AfterCommitClaim,
      AfterDispatch, AfterBegin, AfterIntrospect, AfterRecord, AfterStore, AfterAbort, AfterCrash;
    var s3 := StoredIsReachable(data);
    var s4 := Next(HANDLED, s3, Finish(0));
    ReachNext(HANDLED, s3, Finish(0));
    assert s4.jobs[0].status == Succeeded;
  }

  /** A raised handler ends the job as failed, and leaves the snapshot as it is. */
  lemma {:induction false} RaisedFails(s: State, message: string)
    requires Reachable(HANDLED, s) && s.At(0) == Raised(0, message) && 0 in s.jobs && s.jobs[0].snapshot == 0
    requires 0 in s.snapshots
    ensures exists s' :: Reachable(HANDLED, s') && 0 in s'.jobs && s'.jobs[0].status == Failed
              && s'.jobs[0].snapshot == 0 && 0 in s'.snapshots && s'.snapshots[0].status == s.snapshots[0].status
  {
    hide Reachable, CanPoll, LeastDue, AfterCreate, AfterPop, AfterClaimSignaled, AfterPoll, AfterCommitClaim,
      AfterDispatch, AfterBegin, AfterIntrospect, AfterRecord, AfterStore, AfterAbort, AfterCrash;
    var s' := Next(HANDLED, s, Finish(0));
    ReachNext(HANDLED, s, Finish(0));
    assert s'.jobs[0].status == Failed;
  }

  lemma {:induction false} StartIsReachable() returns (s: State)
    ensures Reachable(HANDLED, s) && s.workers == map[0 := Handling(0)]
    ensures 0 in s.jobs && s.jobs[0].snapshot == 0 && s.snapshots == map[0 := Snapshot(Queued, None, None, None)]
  {
    hide Reachable, CanPoll, LeastDue, AfterCreate, AfterPop, AfterClaimSignaled, AfterPoll, AfterCommitClaim,
      AfterBegin, AfterIntrospect, AfterRecord, AfterStore, AfterFinish, AfterAbort, AfterCrash;
    var s1 := ClaimIsReachable();
    ReachNext(HANDLED, s1, Dispatch(0));
    s := Next(HANDLED, s1, Dispatch(0));
  }

  lemma {:induction false} NoConnection() returns (s: State)
    ensures Reachable(HANDLED, s) && s.At(0) == Raised(0, "db connection not found") && 0 in s.jobs
    ensures s.jobs[0].snapshot == 0 && 0 in s.snapshots && s.snapshots[0].status == Queued
  {
    hide Reachable, CanPoll, LeastDue, AfterCreate, AfterPop, AfterClaimSignaled, AfterPoll, AfterCommitClaim,
      AfterDispatch, AfterIntrospect, AfterRecord, AfterStore, AfterFinish, AfterAbort, AfterCrash;
    var s1 := StartIsReachable();
    ReachNext(HANDLED, s1, Begin(0, false));
    s := Next(HANDLED, s1, Begin(0, false));
  }

  lemma {:induction false} Interrupted(s: State) returns (s': State)
    requires Reachable(HANDLED, s) && (s.At(0) == Introspecting(0) || s.At(0) == Returned(0))
    ensures Reachable(HANDLED, s') && s'.At(0) == Raised(0, "") && s'.jobs == s.jobs && s'.snapshots == s.snapshots
  {
    hide Reachable, CanPoll, LeastDue, AfterCreate, AfterPop, AfterClaimSignaled, AfterPoll, AfterCommitClaim,
      AfterDispatch, AfterBegin, AfterIntrospect, AfterRecord, AfterStore, AfterFinish, AfterCrash;
    ReachNext(HANDLED, s, Abort(0, ""));
    s' := Next(HANDLED, s, Abort(0, ""));
  }

  lemma {:induction false} Recorded() returns (s: State)
    ensures Reachable(HANDLED, s) && s.At(0) == Raised(0, "") && 0 in s.jobs
    ensures s.jobs[0].snapshot == 0 && 0 in s.snapshots && s.snapshots[0].status == Failed
  {
    hide Reachable, CanPoll, LeastDue, AfterCreate, AfterPop, AfterClaimSignaled, AfterPoll, AfterCommitClaim,
      AfterDispatch, AfterBegin, AfterStore, AfterFinish, AfterAbort, AfterCrash;
    var s1 := IntrospectionIsReachable();
    ReachNext(HANDLED, s1, Introspect(0, None, ""));
    var s2 := Next(HANDLED, s1, Introspect(0, None, ""));
    ReachNext(HANDLED, s2, Record(0));
    s := Next(HANDLED, s2, Record(0));
  }

  /** A failed job may leave its snapshot in any status: queued, running, failed, and even succeeded. */
  lemma {:induction false} FailedJobLeaves(status: Status)
    ensures exists s :: Reachable(HANDLED, s) && 0 in s.jobs && s.jobs[0].status == Failed
              && s.jobs[0].snapshot == 0 && 0 in s.snapshots && s.snapshots[0].status == status
  {
    hide Reachable;
    match status
    case Queued =>
      var s := NoConnection();
      RaisedFails(s, "db connection not found");
    case Running =>
      var s := IntrospectionIsReachable();
      s := Interrupted(s);
      RaisedFails(s, "");
    case Failed =>
      var s := Recorded();
      RaisedFails(s, "");
    case Succeeded =>
      var s := StoredIsReachable("");
      s := Interrupted(s);
      RaisedFails(s, "");
  }
}
