/**
 What the rows of backend/app/jobs tell about the past of a run: why a job ended, that a failed snapshot and its
 failed job say the same, and that the table hands out jobs in the order in which they were created.
 */
module JobHistory {
  import opened Dicts
  import opened JobOutcomes
  import opened JobQueue

  // ---------------------------------------------------------------- ended jobs

  predicate HasEnded(s: State, j: JobId) {
    j in s.jobs && s.jobs[j].status in {Succeeded, Failed}
  }

  /** The row of an ended job is not written again. */
  lemma {:induction false} EndedIsKept(c: Config, s: State, step: Step, j: JobId)
    requires Inv(s) && Enabled(c, s, step) && HasEnded(s, j)
    ensures j in Next(c, s, step).jobs && Next(c, s, step).jobs[j] == s.jobs[j]
  {
    hide Inv, Enabled, Next;
    if WritesRow(step) {
      StatusWritten(c, s, step);
      HeldHasNotEnded(s, step.w, j);
    } else {
      StatusKept(c, s, step);
    }
  }

  lemma {:induction false} HeldHasNotEnded(s: State, w: WorkerId, j: JobId)
    requires Inv(s) && HasEnded(s, j)
    ensures !s.At(w).Holds(j)
  {
    hide OneHolder, CountsOk, OneJobEach, RecordsOk, PlacesFit, JobsAgree;
  }

  /** The step ends the job with success, or with this message. */
  ghost predicate Ends(c: Config, s: State, step: Step, j: JobId, message: Option<string>) {
    || (step.Finish? && s.At(step.w) == Returned(j) && message == None)
    || (step.Finish? && message.Some? && s.At(step.w) == Raised(j, message.value))
    || (step.Dispatch? && s.At(step.w) == Claimed(j) && j in s.jobs && s.jobs[j].jobType !in c.handlers
        && message == Some("Unknown job_type: " + s.jobs[j].jobType))
  }

  /** A job ends exactly in such a step, and its row then says how and when. */
  lemma {:induction false} EndsNow(c: Config, s: State, step: Step, j: JobId)
    requires Inv(s) && Enabled(c, s, step) && !HasEnded(s, j) && HasEnded(Next(c, s, step), j)
    ensures var row := Next(c, s, step).jobs[j];
      && Ends(c, s, step, j, row.lastError) && row.finishedAt == Some(s.now)
      && (row.status == Failed <==> row.lastError.Some?)
  {
    hide Inv, Enabled, Next;
    if !WritesRow(step) {
      StatusKept(c, s, step);
      assert j !in s.jobs;
      NewRowIsQueued(c, s, step, j);
    } else {
      StatusWritten(c, s, step);
      assert s.At(step.w).Holds(j);
      WrittenEnds(c, s, step, j);
    }
  }

  lemma {:induction false} NewRowIsQueued(c: Config, s: State, step: Step, j: JobId)
    requires Enabled(c, s, step) && !WritesRow(step) && j !in s.jobs
    ensures !HasEnded(Next(c, s, step), j)
  {
    hide CanPoll, LeastDue, GoesOn, KeepsOrEnds, Asks, Due, Locked;
  }

  lemma {:induction false} DispatchEnds(c: Config, s: State, w: WorkerId, j: JobId)
    requires Working(s, w) && s.At(w) == Claimed(j) && !HasEnded(s, j) && HasEnded(AfterDispatch(c, s, w), j)
    ensures var row := AfterDispatch(c, s, w).jobs[j];
      && Ends(c, s, Dispatch(w), j, row.lastError) && row.finishedAt == Some(s.now)
      && row.status == Failed && row.lastError.Some?
  {
    hide GoesOn, KeepsOrEnds;
  }

  lemma {:induction false} FinishEnds(c: Config, s: State, w: WorkerId, j: JobId)
    requires Working(s, w) && (s.At(w).Returned? || s.At(w).Raised?) && s.At(w).job == j
    ensures var row := AfterFinish(s, w).jobs[j];
      && Ends(c, s, Finish(w), j, row.lastError) && row.finishedAt == Some(s.now)
      && (row.status == Failed <==> row.lastError.Some?)
  {
    hide GoesOn, KeepsOrEnds;
  }

  lemma {:induction false} ClaimEndsNothing(s: State, w: WorkerId, j: JobId)
    requires Working(s, w) && s.At(w).job == j
    ensures !HasEnded(AfterCommitClaim(s, w), j)
  {
    hide GoesOn, KeepsOrEnds;
  }

  lemma {:induction false} WrittenEnds(c: Config, s: State, step: Step, j: JobId)
    requires Enabled(c, s, step) && WritesRow(step) && s.At(step.w).Holds(j) && !HasEnded(s, j)
    requires HasEnded(Next(c, s, step), j)
    ensures var row := Next(c, s, step).jobs[j];
      && Ends(c, s, step, j, row.lastError) && row.finishedAt == Some(s.now)
      && (row.status == Failed <==> row.lastError.Some?)
  {
    hide CanPoll, LeastDue, GoesOn, KeepsOrEnds, AfterCommitClaim, AfterDispatch, AfterFinish, HasEnded, Ends;
    match step
    case CommitClaim(w) => ClaimEndsNothing(s, w, j);
    case Dispatch(w) => DispatchEnds(c, s, w, j);
    case Finish(w) => FinishEnds(c, s, w, j);
  }

  /** The step of a run in which the job ended. */
  ghost predicate EndedAt(c: Config, run: seq<State>, steps: seq<Step>, k: nat, row: Job, j: JobId)
    requires |run| == |steps| + 1
  {
    && k < |steps| && Ends(c, run[k], steps[k], j, row.lastError) && row.finishedAt == Some(run[k].now)
    && (row.status == Failed <==> row.lastError.Some?)
  }

  /** In every run the row of an ended job says how it ended, with the message that was raised, and when. */
  lemma {:induction false} RowsTellTheEnd(c: Config, run: seq<State>, steps: seq<Step>, i: nat, j: JobId)
    requires IsRun(c, run, steps) && i < |run| && HasEnded(run[i], j)
    ensures exists k: nat :: k < i && EndedAt(c, run, steps, k, run[i].jobs[j], j)
  {
    hide Inv, Next, Ends;
    if i > 0 {
      RunInv(c, run, steps, i - 1);
      if HasEnded(run[i - 1], j) {
        EndedIsKept(c, run[i - 1], steps[i - 1], j);
        RowsTellTheEnd(c, run, steps, i - 1, j);
      } else {
        EndsNow(c, run[i - 1], steps[i - 1], j);
        assert EndedAt(c, run, steps, i - 1, run[i].jobs[j], j);
      }
    }
  }

  // ---------------------------------------------------------------- failed snapshots and failed jobs

  function MessageOf(s: State, j: JobId): Option<string>
    requires j in s.jobs && s.jobs[j].snapshot in s.snapshots
  {
    s.snapshots[s.jobs[j].snapshot].errorMessage
  }

  /** What a failed snapshot says is what the worker of its job has raised, or what the row of its failed job says. */
  ghost predicate Matches(s: State, j: JobId) {
    SnapshotFailed(s, j) ==>
      && MessageOf(s, j).Some?
      && (forall w :: s.At(w).Holds(j) ==> s.At(w) == Raised(j, MessageOf(s, j).value))
      && (s.jobs[j].status == Failed ==> s.jobs[j].lastError == MessageOf(s, j))
  }

  lemma {:induction false} WriterOf(s: State, w: WorkerId, j: JobId)
    requires Inv(s) && Working(s, w) && SnapshotFailed(s, j)
    requires s.At(w).Handling? || s.At(w).Recording? || s.At(w).Storing?
    ensures s.jobs[s.At(w).job].snapshot != s.jobs[j].snapshot
  {
    hide Inv;
    HeldFacts(s, w, s.At(w).job);
  }

  /** A failed snapshot is not written again. */
  lemma {:induction false} FailedIsKept(c: Config, s: State, step: Step, j: JobId)
    requires Inv(s) && Enabled(c, s, step) && SnapshotFailed(s, j)
    ensures j in Next(c, s, step).jobs && SnapshotFailed(Next(c, s, step), j)
    ensures MessageOf(Next(c, s, step), j) == MessageOf(s, j)
  {
    hide Inv, Enabled, Next;
    SnapshotFailsIff(c, s, step, j);
    StatusStep(c, s, step, j);
    if WritesSnapshot(step) {
      WritesOther(c, s, step, j);
    } else {
      SnapshotsKept(c, s, step);
    }
  }

  lemma {:induction false} BeginWritesOwn(s: State, w: WorkerId, connection: bool, x: SnapshotId)
    requires Working(s, w) && x in s.snapshots && x != s.jobs[s.At(w).job].snapshot
    ensures var t := AfterBegin(s, w, connection); x in t.snapshots && t.snapshots[x] == s.snapshots[x]
  {
    hide GoesOn, KeepsOrEnds, SnapshotMissing, ConnectionMissing;
  }

  lemma {:induction false} RecordWritesOwn(s: State, w: WorkerId, x: SnapshotId)
    requires Working(s, w) && s.At(w).Recording? && x in s.snapshots && x != s.jobs[s.At(w).job].snapshot
    ensures var t := AfterRecord(s, w); x in t.snapshots && t.snapshots[x] == s.snapshots[x]
  {
    hide GoesOn, KeepsOrEnds, SnapshotMissing, ConnectionMissing;
  }

  lemma {:induction false} StoreWritesOwn(s: State, w: WorkerId, x: SnapshotId)
    requires Working(s, w) && s.At(w).Storing? && x in s.snapshots && x != s.jobs[s.At(w).job].snapshot
    ensures var t := AfterStore(s, w); x in t.snapshots && t.snapshots[x] == s.snapshots[x]
  {
    hide GoesOn, KeepsOrEnds, SnapshotMissing, ConnectionMissing;
  }

  lemma {:induction false} WritesOther(c: Config, s: State, step: Step, j: JobId)
    requires Inv(s) && Enabled(c, s, step) && SnapshotFailed(s, j) && WritesSnapshot(step)
    ensures s.jobs[j].snapshot in Next(c, s, step).snapshots
    ensures Next(c, s, step).snapshots[s.jobs[j].snapshot] == s.snapshots[s.jobs[j].snapshot]
  {
    hide Inv, CanPoll, LeastDue, GoesOn, KeepsOrEnds, Asks, Due, Locked, AfterBegin, AfterRecord, AfterStore;
    if !step.Create? {
      WriterOf(s, step.w, j);
      if step.Begin? {
        BeginWritesOwn(s, step.w, step.connection, s.jobs[j].snapshot);
      } else if step.Record? {
        RecordWritesOwn(s, step.w, s.jobs[j].snapshot);
      } else {
        StoreWritesOwn(s, step.w, s.jobs[j].snapshot);
      }
    }
  }

  /** Who holds the job of a failed snapshot has raised, and stays so until the job ends or it crashes. */
  lemma {:induction false} RaisedStays(c: Config, s: State, step: Step, w: WorkerId, j: JobId)
    requires Inv(s) && Enabled(c, s, step) && SnapshotFailed(s, j) && Matches(s, j)
    requires Next(c, s, step).At(w).Holds(j)
    ensures Next(c, s, step).At(w) == s.At(w) && s.At(w).Holds(j)
  {
    hide Inv, Next, Due;
    NewHolds(c, s, step, w, j);
    assert !Due(s, j) by { NotDue(s, j); }
    if ByWorker(step, w) {
      RaisedMoves(c, s, step, w);
    } else {
      OthersStay(c, s, step, w);
    }
  }

  lemma {:induction false} NotDue(s: State, j: JobId)
    requires Inv(s) && SnapshotFailed(s, j)
    ensures !Due(s, j)
  {
    assert JobAgrees(s, j) by { hide OneHolder, RowsFit, CountsOk, OneJobEach, RecordsOk, PlacesFit; }
    hide Inv;
  }

  lemma {:induction false} RaisedMoves(c: Config, s: State, step: Step, w: WorkerId)
    requires Enabled(c, s, step) && ByWorker(step, w) && s.At(w).Raised?
    ensures Next(c, s, step).At(w) == Idle
  {
    hide Oldest, LeastDue;
  }

  lemma {:induction false} RaisedEnds(c: Config, s: State, step: Step, j: JobId)
    requires Inv(s) && Enabled(c, s, step) && SnapshotFailed(s, j) && Matches(s, j)
    requires j in s.jobs && j in Next(c, s, step).jobs && Next(c, s, step).jobs[j].status == Failed
    ensures Next(c, s, step).jobs[j].lastError == MessageOf(s, j)
  {
    hide Inv, Next, SnapshotFailed, Enabled;
    var s' := Next(c, s, step);
    if s.jobs[j].status == Failed {
      EndedIsKept(c, s, step, j);
    } else if WritesRow(step) {
      StatusWritten(c, s, step);
      assert s.At(step.w).Holds(j);
      FinishSays(c, s, step, j);
    } else {
      StatusKept(c, s, step);
    }
  }

  lemma {:induction false} FinishSays(c: Config, s: State, step: Step, j: JobId)
    requires Enabled(c, s, step) && WritesRow(step) && s.At(step.w).Holds(j) && s.At(step.w).Raised?
    ensures j in Next(c, s, step).jobs && Next(c, s, step).jobs[j].lastError == Some(s.At(step.w).message)
  {
    hide Oldest, LeastDue;
  }

  lemma {:induction false} RecordWrites(s: State, w: WorkerId, j: JobId)
    requires Inv(s) && Working(s, w) && s.At(w).Recording? && s.At(w).job == j
    ensures var s', m := AfterRecord(s, w), s.At(w).message;
      && SnapshotFailed(s', j) && MessageOf(s', j) == Some(m) && s'.At(w) == Raised(j, m)
      && s'.jobs == s.jobs && s.jobs[j].status == Running
      && forall v :: v != w ==> s'.At(v) == s.At(v)
  {
    hide Inv;
    HeldFacts(s, w, j);
  }

  lemma {:induction false} RecordMatches(c: Config, s: State, step: Step, j: JobId)
    requires Inv(s) && Enabled(c, s, step) && RecordsFailure(s, step, j) && j in s.jobs
    ensures Matches(Next(c, s, step), j)
  {
    hide Inv, AfterRecord, SnapshotFailed;
    RecordWrites(s, step.w, j);
    forall v | s.At(v).Holds(j) ensures v == step.w {
      SameHolder(s, v, step.w, j);
    }
  }

  lemma {:induction false} SameHolder(s: State, v: WorkerId, w: WorkerId, j: JobId)
    requires Inv(s) && s.At(v).Holds(j) && s.At(w).Holds(j)
    ensures v == w
  {
    hide RowsFit, CountsOk, OneJobEach, RecordsOk, PlacesFit, JobsAgree;
  }

  lemma {:induction false} MatchesStep(c: Config, s: State, step: Step, j: JobId)
    requires Inv(s) && Enabled(c, s, step) && Matches(s, j)
    ensures Matches(Next(c, s, step), j)
  {
    hide Inv, Enabled, Next;
    var s' := Next(c, s, step);
    if j !in s.jobs {
      NewJobsSnapshot(c, s, step, j);
    } else {
      SnapshotFailsIff(c, s, step, j);
      if SnapshotFailed(s, j) {
        FailedIsKept(c, s, step, j);
        forall w | s'.At(w).Holds(j) ensures s'.At(w) == s.At(w) && s.At(w).Holds(j) {
          RaisedStays(c, s, step, w, j);
        }
        if s'.jobs[j].status == Failed {
          RaisedEnds(c, s, step, j);
        }
      } else if SnapshotFailed(s', j) {
        RecordMatches(c, s, step, j);
      }
    }
  }

  lemma {:induction false} NewJobsSnapshot(c: Config, s: State, step: Step, j: JobId)
    requires Inv(s) && Enabled(c, s, step) && j !in s.jobs
    ensures !SnapshotFailed(Next(c, s, step), j)
  {
    hide Inv, Oldest, LeastDue;
  }

  /** In every run a failed job and its failed snapshot carry the same message. */
  lemma {:induction false} SameMessage(c: Config, run: seq<State>, steps: seq<Step>, i: nat, j: JobId)
    requires IsRun(c, run, steps) && i < |run|
    ensures Matches(run[i], j)
  {
    hide Inv, Next, Matches;
    if i > 0 {
      RunInv(c, run, steps, i - 1);
      SameMessage(c, run, steps, i - 1, j);
      MatchesStep(c, run[i - 1], steps[i - 1], j);
    } else {
      NoJobs(run[0], j);
    }
  }

  lemma {:induction false} NoJobs(s: State, j: JobId)
    requires Initial(s)
    ensures Matches(s, j)
  {
  }

  // ---------------------------------------------------------------- the order of claims

  lemma {:induction false} WritersKeepDueTime(c: Config, s: State, w: WorkerId, j: JobId)
    requires Working(s, w) && j in s.jobs
    ensures var t := AfterCommitClaim(s, w); j in t.jobs && t.jobs[j].runAfter == s.jobs[j].runAfter
    ensures var t := AfterDispatch(c, s, w); j in t.jobs && t.jobs[j].runAfter == s.jobs[j].runAfter
    ensures s.At(w).Returned? || s.At(w).Raised? ==>
      var t := AfterFinish(s, w); j in t.jobs && t.jobs[j].runAfter == s.jobs[j].runAfter
  {
    hide GoesOn, KeepsOrEnds, UnknownType;
  }

  lemma {:induction false} DueTimeKept(c: Config, s: State, step: Step, j: JobId)
    requires Enabled(c, s, step) && j in s.jobs
    ensures j in Next(c, s, step).jobs && Next(c, s, step).jobs[j].runAfter == s.jobs[j].runAfter
  {
    hide CanPoll, LeastDue, GoesOn, KeepsOrEnds, Asks, AfterCreate, AfterPop, AfterClaimSignaled, AfterPoll,
      AfterCommitClaim, AfterDispatch, AfterBegin, AfterIntrospect, AfterRecord, AfterStore, AfterFinish, AfterAbort,
      AfterCrash;
    if WritesRow(step) {
      WritersKeepDueTime(c, s, step.w, j);
    } else {
      StatusKept(c, s, step);
    }
  }

  /** From its creation on a job is due from the time of its creation. */
  lemma {:induction false} DueFromCreation(c: Config, run: seq<State>, steps: seq<Step>, a: nat, i: nat, j: JobId)
    requires IsRun(c, run, steps) && a < i < |run| && steps[a].Create? && steps[a].j == j
    ensures j in run[i].jobs && run[i].jobs[j].runAfter == run[a].now
  {
    hide Next, Enabled;
    if i == a + 1 {
      Created(c, run[a], steps[a]);
    } else {
      DueFromCreation(c, run, steps, a, i - 1, j);
      DueTimeKept(c, run[i - 1], steps[i - 1], j);
    }
  }

  lemma {:induction false} Created(c: Config, s: State, step: Step)
    requires Enabled(c, s, step) && step.Create?
    ensures step.j in Next(c, s, step).jobs && Next(c, s, step).jobs[step.j].runAfter == s.now
  {
  }

  lemma {:induction false} TimeOfClaim(c: Config, s: State, w: WorkerId, m: Option<string>, j: Option<JobId>)
    ensures AfterPop(c, s, w, m).now == s.now && AfterCrash(s, w).now == s.now
    ensures s.At(w).Popped? && s.At(w).signal.Some? ==> AfterClaimSignaled(s, w).now == s.now
    ensures (j.Some? ==> Due(s, j.value)) ==> AfterPoll(s, w, j).now == s.now
  {
    hide Due, Asks, GoesOn, KeepsOrEnds;
  }

  lemma {:induction false} TimeOfRows(c: Config, s: State, w: WorkerId)
    requires Working(s, w)
    ensures AfterCommitClaim(s, w).now == s.now && AfterDispatch(c, s, w).now == s.now
    ensures s.At(w).Returned? || s.At(w).Raised? ==> AfterFinish(s, w).now == s.now
  {
    hide UnknownType, Due, Asks, GoesOn, KeepsOrEnds;
  }

  lemma {:induction false} TimeOfHandler(s: State, w: WorkerId, connection: bool, r: Option<string>, message: string)
    ensures Working(s, w) ==> AfterBegin(s, w, connection).now == s.now
    ensures s.At(w).Introspecting? ==> AfterIntrospect(s, w, r, message).now == s.now
    ensures Working(s, w) && s.At(w).Recording? ==> AfterRecord(s, w).now == s.now
    ensures Working(s, w) && s.At(w).Storing? ==> AfterStore(s, w).now == s.now
    ensures !s.At(w).Idle? && !s.At(w).Popped? ==> AfterAbort(s, w, message).now == s.now
  {
    hide SnapshotMissing, ConnectionMissing, Due, Asks, GoesOn, KeepsOrEnds;
  }

  lemma {:induction false} PollsDue(c: Config, s: State, w: WorkerId, j: Option<JobId>)
    requires CanPoll(c, s, w, j)
    ensures j.Some? ==> Due(s, j.value)
  {
  }

  lemma {:induction false} ClockForward(c: Config, s: State, step: Step)
    requires Enabled(c, s, step)
    ensures s.now <= Next(c, s, step).now
  {
    hide CanPoll, LeastDue, GoesOn, KeepsOrEnds, Asks, AfterPop, AfterClaimSignaled, AfterPoll, AfterCommitClaim,
      AfterDispatch, AfterBegin, AfterIntrospect, AfterRecord, AfterStore, AfterFinish, AfterAbort, AfterCrash;
    match step
    case Create(j, id) =>
    case Signals(signals) =>
    case Tick(now) =>
    case Pop(w, m) => TimeOfClaim(c, s, w, m, None);
    case ClaimSignaled(w) => TimeOfClaim(c, s, w, None, None);
    case Poll(w, j) =>
      PollsDue(c, s, w, j);
      TimeOfClaim(c, s, w, None, j);
    case CommitClaim(w) => TimeOfRows(c, s, w);
    case Dispatch(w) => TimeOfRows(c, s, w);
    case Begin(w, connection) => TimeOfHandler(s, w, connection, None, "");
    case Introspect(w, result, message) => TimeOfHandler(s, w, true, result, message);
    case Record(w) => TimeOfHandler(s, w, true, None, "");
    case Store(w) => TimeOfHandler(s, w, true, None, "");
    case Finish(w) => TimeOfRows(c, s, w);
    case Abort(w, message) => TimeOfHandler(s, w, true, None, message);
    case Crash(w) => TimeOfClaim(c, s, w, None, None);
  }

  lemma {:induction false} KeysOfRows(c: Config, s: State, w: WorkerId)
    requires Working(s, w)
    ensures AfterCommitClaim(s, w).jobs.Keys == s.jobs.Keys && AfterDispatch(c, s, w).jobs.Keys == s.jobs.Keys
    ensures s.At(w).Returned? || s.At(w).Raised? ==> AfterFinish(s, w).jobs.Keys == s.jobs.Keys
  {
    hide UnknownType, Due, Asks, GoesOn, KeepsOrEnds;
  }

  lemma {:induction false} OnlyCreateAdds(c: Config, s: State, step: Step)
    requires Enabled(c, s, step)
    ensures Next(c, s, step).jobs.Keys == s.jobs.Keys + if step.Create? then {step.j} else {}
  {
    hide CanPoll, LeastDue, GoesOn, KeepsOrEnds, AfterPop, AfterClaimSignaled, AfterPoll, AfterCommitClaim,
      AfterDispatch, AfterBegin, AfterIntrospect, AfterRecord, AfterStore, AfterFinish, AfterAbort, AfterCrash;
    if step.Poll? {
      PollsDue(c, s, step.w, step.job);
    }
    if step.CommitClaim? || step.Dispatch? || step.Finish? {
      KeysOfRows(c, s, step.w);
    }
  }

  /** In every run, no job has to wait: every queued one is due. */
  lemma {:induction false} QueuedIsDue(c: Config, run: seq<State>, steps: seq<Step>, i: nat, j: JobId)
    requires IsRun(c, run, steps) && i < |run| && j in run[i].jobs
    ensures run[i].jobs[j].runAfter <= run[i].now
    ensures run[i].jobs[j].status == Queued ==> Due(run[i], j)
  {
    hide Next, Enabled;
    assert i > 0;
    ClockForward(c, run[i - 1], steps[i - 1]);
    if j in run[i - 1].jobs {
      QueuedIsDue(c, run, steps, i - 1, j);
      DueTimeKept(c, run[i - 1], steps[i - 1], j);
    } else {
      OnlyCreateAdds(c, run[i - 1], steps[i - 1]);
      Created(c, run[i - 1], steps[i - 1]);
    }
  }

  /** A worker that asks the table is not given a job while an older one waits that no other worker is claiming. */
  lemma {:induction false} OldestFirst(c: Config, run: seq<State>, steps: seq<Step>, i: nat, a: nat, b: nat)
    requires IsRun(c, run, steps) && i < |steps| && steps[i].Poll? && steps[i].job.Some?
    requires a < i && steps[a].Create? && steps[a].j == steps[i].job.value
    requires b < i && steps[b].Create? && Due(run[i], steps[b].j)
    requires forall w :: run[i].At(w) != Claiming(steps[b].j)
    ensures run[a].now <= run[b].now
  {
    DueFromCreation(c, run, steps, a, i, steps[a].j);
    DueFromCreation(c, run, steps, b, i, steps[b].j);
    hide Next;
    assert Enabled(c, run[i], steps[i]);
  }

  /** It goes away without one only if all that are due are being claimed. */
  lemma {:induction false} NoneOnlyIfClaimed(c: Config, s: State, step: Step, j: JobId)
    requires Enabled(c, s, step) && step.Poll? && step.job.None? && Due(s, j)
    ensures exists w :: s.At(w) == Claiming(j)
  {
    assert Locked(s, j);
  }
}
