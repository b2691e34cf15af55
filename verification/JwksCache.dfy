/**
 The cache of signing keys of backend/app/auth.py: any number of concurrent callers, one lock, a clock that
 does not run backwards, and fetches that may fail, be cancelled or return the JSON document `null`.
 */
module JwksCache {
  import opened Dicts

  type Task = nat

  /** A fetched document; `null` is the option without a value. */
  datatype Document = Document(text: string)

  const TTL := 300.0

  const MIN_REFRESH_INTERVAL := 60.0

  /** How old the cached keys may be for a caller. */
  function Limit(force: bool): real {
    if force then MIN_REFRESH_INTERVAL else TTL
  }

  // ---------------------------------------------------------------- the module globals

  datatype Globals = Globals(jwks: Option<Document>, expiresAt: real, refreshedAt: real)

  /** The test made before and after taking the lock. */
  predicate Usable(g: Globals, force: bool, now: real) {
    && g.jwks.Some?
    && if force then now < g.refreshedAt + MIN_REFRESH_INTERVAL else now < g.expiresAt
  }

  function Refreshed(document: Option<Document>, now: real): Globals {
    Globals(document, now + TTL, now)
  }

  /** The stretches of the function between two suspensions. */
  class Cache {
    var jwks: Option<Document>
    var expiresAt: real
    var refreshedAt: real
    var locked: bool

    constructor ()
      ensures Value() == Globals(None, 0.0, 0.0) && !locked
    {
      jwks, expiresAt, refreshedAt, locked := None, 0.0, 0.0, false;
    }

    function Value(): Globals
      reads this
    {
      Globals(jwks, expiresAt, refreshedAt)
    }

    /** Before the lock: answers from the cache, or asks for the lock. */
    method Look(force: bool, now: real) returns (served: Option<Document>)
      ensures served == if Usable(Value(), force, now) then jwks else None
    {
      if jwks.Some? {
        if !force && now < expiresAt {
          return jwks;
        }
        if force && now < refreshedAt + MIN_REFRESH_INTERVAL {
          return jwks;
        }
      }
      return None;
    }

    /** With the lock just taken: answers from the cache and lets go, or goes on to fetch. */
    method Enter(force: bool, now: real) returns (served: Option<Document>)
      requires !locked
      modifies this`locked
      ensures served == if Usable(Value(), force, now) then jwks else None
      ensures locked <==> served.None?
    {
      locked := true;
      served := Look(force, now);
      if served.Some? {
        locked := false;
      }
    }

    /** The response is in: stores it and lets go. A failed fetch only lets go. */
    method Finish(response: Option<Option<Document>>, now: real)
      requires locked
      modifies this
      ensures !locked
      ensures Value() == if response.Some? then Refreshed(response.value, now) else old(Value())
    {
      if response.Some? {
        jwks := response.value;
        expiresAt := now + TTL;
        refreshedAt := now;
      }
      locked := false;
    }
  }

  // ---------------------------------------------------------------- callers taking turns

  datatype Phase = Idle | Waiting(force: bool) | Fetching(force: bool)

  /** What has happened so far, for the statements below. */
  datatype Event =
    | Started(at: real, force: bool)
    | Succeeded(at: real, document: Option<Document>)
    | GaveUp(at: real)
    | Served(at: real, force: bool, answer: Document)

  datatype State = State(
    now: real, globals: Globals, holder: Option<Task>, phases: map<Task, Phase>, log: seq<Event>)
  {
    function PhaseOf(t: Task): Phase {
      if t in phases then phases[t] else Idle
    }

    function Put(t: Task, p: Phase): State {
      this.(phases := phases[t := p])
    }

    function Logged(e: Event): State {
      this.(log := log + [e])
    }
  }

  datatype Step =
    | Tick(to: real)
    | Call(task: Task, force: bool)
    | Enter(task: Task)
    | Response(task: Task, document: Option<Document>)
    | Failure(task: Task)
    | Cancel(task: Task)

  predicate Enabled(s: State, step: Step) {
    match step
    case Tick(to) => s.now <= to
    case Call(t, _) => s.PhaseOf(t).Idle?
    case Enter(t) => s.PhaseOf(t).Waiting? && s.holder.None?
    case Response(t, _) => s.PhaseOf(t).Fetching?
    case Failure(t) => s.PhaseOf(t).Fetching?
    case Cancel(t) => s.PhaseOf(t).Waiting?
  }

  function Next(s: State, step: Step): State
    requires Enabled(s, step)
  {
    match step
    case Tick(to) => s.(now := to)
    case Call(t, force) =>
      if Usable(s.globals, force, s.now) then s.Logged(Served(s.now, force, s.globals.jwks.value))
      else s.Put(t, Waiting(force))
    case Enter(t) =>
      var force := s.PhaseOf(t).force;
      if Usable(s.globals, force, s.now) then
        s.Put(t, Idle).Logged(Served(s.now, force, s.globals.jwks.value))
      else s.(holder := Some(t)).Put(t, Fetching(force)).Logged(Started(s.now, force))
    case Response(t, document) =>
      s.(globals := Refreshed(document, s.now), holder := None).Put(t, Idle).Logged(Succeeded(s.now, document))
    case Failure(t) =>
      s.(holder := None).Put(t, Idle).Logged(GaveUp(s.now))
    case Cancel(t) => s.Put(t, Idle)
  }

  predicate Initial(s: State) {
    s.globals == Globals(None, 0.0, 0.0) && s.holder == None && s.phases == map[] && s.log == []
  }

  ghost predicate IsRun(run: seq<State>, steps: seq<Step>) {
    && |run| == |steps| + 1 && Initial(run[0])
    && forall i :: 0 <= i < |steps| ==> Enabled(run[i], steps[i]) && run[i + 1] == Next(run[i], steps[i])
  }

  // ---------------------------------------------------------------- what the log must look like

  /** The last successful fetch. */
  function LastSuccess(log: seq<Event>): (r: Option<Event>)
    ensures r.Some? ==> r.value.Succeeded?
  {
    if log == [] then None
    else if log[|log| - 1].Succeeded? then Some(log[|log| - 1])
    else LastSuccess(log[..|log| - 1])
  }

  /** How many fetches are in flight. */
  function InFlight(log: seq<Event>): int {
    if log == [] then 0
    else
      InFlight(log[..|log| - 1])
      + match log[|log| - 1]
        case Started(_, _) => 1
        case Succeeded(_, _) => -1
        case GaveUp(_) => -1
        case Served(_, _, _) => 0
  }

  /** A fetch starts alone, and only when the keys of the last success are too old for its caller, or `null`. */
  predicate StartOk(before: seq<Event>, e: Event)
    requires e.Started?
  {
    && InFlight(before) == 0
    && match LastSuccess(before)
       case None => true
       case Some(success) => success.document.None? || e.at >= success.at + Limit(e.force)
  }

  /** Keys are served only as they came with the last success, and only while they are young enough for the caller. */
  predicate ServedOk(before: seq<Event>, e: Event)
    requires e.Served?
  {
    match LastSuccess(before)
    case None => false
    case Some(success) => success.document == Some(e.answer) && success.at <= e.at < success.at + Limit(e.force)
  }

  predicate EventOk(before: seq<Event>, e: Event) {
    match e
    case Started(_, _) => StartOk(before, e)
    case Served(_, _, _) => ServedOk(before, e)
    case Succeeded(_, _) => InFlight(before) == 1
    case GaveUp(_) => InFlight(before) == 1
  }

  ghost predicate LogOk(log: seq<Event>) {
    forall i :: 0 <= i < |log| ==> EventOk(log[..i], log[i])
  }

  ghost predicate LogOrdered(log: seq<Event>) {
    forall i, j :: 0 <= i < j < |log| ==> log[i].at <= log[j].at
  }

  // ---------------------------------------------------------------- what every step keeps

  predicate GlobalsMatch(g: Globals, last: Option<Event>)
    requires last.Some? ==> last.value.Succeeded?
  {
    match last
    case None => g.jwks.None?
    case Some(success) => g == Refreshed(success.document, success.at)
  }

  ghost predicate Inv(s: State) {
    && (forall t: Task :: s.PhaseOf(t).Fetching? <==> s.holder == Some(t))
    && GlobalsMatch(s.globals, LastSuccess(s.log))
    && InFlight(s.log) == (if s.holder.Some? then 1 else 0)
    && LogOk(s.log) && LogOrdered(s.log)
    && forall i :: 0 <= i < |s.log| ==> s.log[i].at <= s.now
  }

  lemma {:induction false} LastSuccessIsPast(log: seq<Event>, now: real)
    requires forall i :: 0 <= i < |log| ==> log[i].at <= now
    ensures LastSuccess(log).Some? ==> LastSuccess(log).value.at <= now
  {
    if log != [] {
      LastSuccessIsPast(log[..|log| - 1], now);
    }
  }

  lemma {:induction false} AppendOk(log: seq<Event>, e: Event)
    requires LogOk(log) && EventOk(log, e)
    ensures LogOk(log + [e])
  {
    var all := log + [e];
    hide EventOk;
    forall i | 0 <= i < |all| ensures EventOk(all[..i], all[i]) {
      assert all[..i] == log[..i];
      assert log[..|log|] == log;
    }
  }

  lemma {:induction false} AppendStep(log: seq<Event>, e: Event)
    ensures LastSuccess(log + [e]) == if e.Succeeded? then Some(e) else LastSuccess(log)
    ensures InFlight(log + [e]) == InFlight(log) +
      (if e.Started? then 1 else if e.Served? then 0 else -1)
  {
    assert (log + [e])[..|log|] == log;
  }

  lemma {:induction false} EventKeeps(s: State, s': State, e: Event)
    requires Inv(s) && s'.log == s.log + [e] && e.at == s.now == s'.now && EventOk(s.log, e)
    requires forall t: Task :: s'.PhaseOf(t).Fetching? <==> s'.holder == Some(t)
    requires GlobalsMatch(s'.globals, if e.Succeeded? then Some(e) else LastSuccess(s.log))
    requires InFlight(s.log) + (if e.Started? then 1 else if e.Served? then 0 else -1) ==
      if s'.holder.Some? then 1 else 0
    ensures Inv(s')
  {
    AppendStep(s.log, e);
    AppendOk(s.log, e);
    hide LogOk, LastSuccess, InFlight, EventOk, GlobalsMatch;
  }

  lemma {:induction false} ServeKeeps(s: State, s': State, force: bool)
    requires Inv(s) && Usable(s.globals, force, s.now)
    requires s'.globals == s.globals && s'.holder == s.holder && s'.now == s.now
    requires forall t: Task :: s'.PhaseOf(t).Fetching? <==> s'.holder == Some(t)
    requires s'.log == s.log + [Served(s.now, force, s.globals.jwks.value)]
    ensures Inv(s')
  {
    LastSuccessIsPast(s.log, s.now);
    hide LogOk, LastSuccess, InFlight;
    EventKeeps(s, s', Served(s.now, force, s.globals.jwks.value));
  }

  lemma {:induction false} StepKeeps(s: State, step: Step)
    requires Inv(s) && Enabled(s, step)
    ensures Inv(Next(s, step))
  {
    var s' := Next(s, step);
    hide LogOk, LastSuccess, InFlight;
    match step
    case Tick(_) =>
    case Call(_, force) =>
      if Usable(s.globals, force, s.now) {
        ServeKeeps(s, s', force);
      }
    case Enter(t) =>
      var force := s.PhaseOf(t).force;
      if Usable(s.globals, force, s.now) {
        ServeKeeps(s, s', force);
      } else {
        EventKeeps(s, s', Started(s.now, force));
      }
    case Response(_, document) =>
      EventKeeps(s, s', Succeeded(s.now, document));
    case Failure(_) =>
      EventKeeps(s, s', GaveUp(s.now));
    case Cancel(_) =>
  }

  lemma {:induction false} RunInv(run: seq<State>, steps: seq<Step>, i: nat)
    requires IsRun(run, steps) && i <= |steps|
    ensures Inv(run[i])
  {
    if i > 0 {
      RunInv(run, steps, i - 1);
      StepKeeps(run[i - 1], steps[i - 1]);
      hide Inv, Next, Enabled;
    }
  }

  // ---------------------------------------------------------------- what holds in every run

  /** Two callers never fetch at the same time. */
  lemma {:induction false} OneFetchAtATime(run: seq<State>, steps: seq<Step>, i: nat, a: Task, b: Task)
    requires IsRun(run, steps) && i <= |steps|
    requires run[i].PhaseOf(a).Fetching? && run[i].PhaseOf(b).Fetching?
    ensures a == b
  {
    RunInv(run, steps, i);
  }

  /** Every fetch that was ever started, and every answer that was ever given from the cache, came at the right time. */
  lemma {:induction false} HistoryOk(run: seq<State>, steps: seq<Step>, i: nat, k: nat)
    requires IsRun(run, steps) && i <= |steps| && k < |run[i].log|
    ensures run[i].log[k].Started? ==> StartOk(run[i].log[..k], run[i].log[k])
    ensures run[i].log[k].Served? ==> ServedOk(run[i].log[..k], run[i].log[k])
  {
    RunInv(run, steps, i);
    assert EventOk(run[i].log[..k], run[i].log[k]);
  }

  ghost predicate NeverNull(log: seq<Event>) {
    forall e :: e in log && e.Succeeded? ==> e.document.Some?
  }

  lemma {:induction false} LastSuccessIsLast(log: seq<Event>, a: nat)
    requires a < |log| && log[a].Succeeded?
    ensures exists k :: a <= k < |log| && LastSuccess(log) == Some(log[k])
  {
    if !log[|log| - 1].Succeeded? {
      LastSuccessIsLast(log[..|log| - 1], a);
    }
  }

  /** The event before a moment with one fetch in flight: it started that fetch, or the fetch was there before. */
  lemma {:induction false} FlightBefore(log: seq<Event>, b: nat)
    requires LogOk(log) && 0 < b <= |log| && InFlight(log[..b]) == 1
    ensures log[b - 1].Started? || (!log[b - 1].Succeeded? && InFlight(log[..b - 1]) == 1)
  {
    hide LastSuccess;
    var e := log[b - 1];
    AppendStep(log[..b - 1], e);
    assert log[..b] == log[..b - 1] + [e];
    assert EventOk(log[..b - 1], e);
    hide InFlight;
  }

  /** A fetch that ends in a success was started after the success before it. */
  lemma {:induction false} StartBefore(log: seq<Event>, a: nat, b: nat)
    requires LogOk(log) && a < b <= |log| && log[a].Succeeded? && InFlight(log[..b]) == 1
    ensures exists k :: a < k < b && log[k].Started?
    decreases b
  {
    hide LogOk, InFlight;
    FlightBefore(log, b);
    if !log[b - 1].Started? {
      StartBefore(log, a, b - 1);
    }
  }

  /** In a log that is in order, whatever lies between two successes keeps them apart. */
  lemma {:induction false} StartAfterSuccess(log: seq<Event>, a: nat, k: nat)
    requires LogOk(log) && LogOrdered(log) && a < k < |log| && log[a].Succeeded? && log[k].Started? && NeverNull(log)
    ensures log[k].at >= log[a].at + MIN_REFRESH_INTERVAL
  {
    hide InFlight, LastSuccess;
    assert EventOk(log[..k], log[k]);
    LastSuccessIsLast(log[..k], a);
    var m :| a <= m < k && LastSuccess(log[..k]) == Some(log[..k][m]);
    assert log[..k][m] == log[m] && log[m] in log;
  }

  lemma {:induction false} OneInFlight(log: seq<Event>, b: nat)
    requires LogOk(log) && b < |log| && log[b].Succeeded?
    ensures InFlight(log[..b]) == 1
  {
    assert EventOk(log[..b], log[b]);
  }

  /** Successes are a minute apart at least, as long as no document was `null`. */
  lemma {:induction false} SuccessesApart(run: seq<State>, steps: seq<Step>, i: nat, a: nat, b: nat)
    requires IsRun(run, steps) && i <= |steps| && a < b < |run[i].log|
    requires run[i].log[a].Succeeded? && run[i].log[b].Succeeded? && NeverNull(run[i].log)
    ensures run[i].log[b].at >= run[i].log[a].at + MIN_REFRESH_INTERVAL
  {
    hide LogOk, InFlight, LastSuccess, NeverNull, GlobalsMatch;
    var log := run[i].log;
    RunInv(run, steps, i);
    OneInFlight(log, b);
    StartBefore(log, a, b);
    var k :| a < k < b && log[k].Started?;
    StartAfterSuccess(log, a, k);
  }

  /** The guard is exact: with the lock, a caller fetches exactly if the last success is absent, null, or too old. */
  lemma {:induction false} FetchesIff(s: State, t: Task)
    requires Inv(s) && Enabled(s, Enter(t))
    ensures Next(s, Enter(t)).PhaseOf(t).Fetching? <==>
      match LastSuccess(s.log)
      case None => true
      case Some(success) => success.document.None? || s.now >= success.at + Limit(s.PhaseOf(t).force)
  {
    hide LogOk, LastSuccess, InFlight;
  }

  /** Nobody waits for ever on a lock that cannot come free: some caller can always go on. */
  lemma {:induction false} NoDeadlock(run: seq<State>, steps: seq<Step>, i: nat, t: Task)
    requires IsRun(run, steps) && i <= |steps| && run[i].PhaseOf(t).Waiting?
    ensures Enabled(run[i], Enter(t)) || (run[i].holder.Some? && Enabled(run[i], Failure(run[i].holder.value)))
  {
    RunInv(run, steps, i);
  }

  /** One more step at the end of a run. */
  lemma {:induction false} OneMoreStep(run: seq<State>, steps: seq<Step>, step: Step)
    requires IsRun(run, steps) && Enabled(run[|steps|], step)
    ensures IsRun(run + [Next(run[|steps|], step)], steps + [step])
  {
    hide Enabled, Next;
  }

  /** A run that ends with a `null` document. */
  lemma {:induction false} NullIsFetched() returns (run: seq<State>, steps: seq<Step>)
    ensures IsRun(run, steps) && var s := run[|steps|];
      s.now == 0.0 && s.globals.jwks == None && s.holder == None && s.PhaseOf(0) == Idle
      && s.log == [Started(0.0, false), Succeeded(0.0, None)]
  {
    var s0 := State(0.0, Globals(None, 0.0, 0.0), None, map[], []);
    steps := [Call(0, false), Enter(0), Response(0, None)];
    var s1 := Next(s0, steps[0]);
    var s2 := Next(s1, steps[1]);
    run := [s0, s1, s2, Next(s2, steps[2])];
  }

  /** A `null` document is not cached: the next caller fetches again at once. */
  lemma {:induction false} NullIsRefetched()
    ensures exists run: seq<State>, steps: seq<Step> | IsRun(run, steps) ::
      run[|steps|].log == [Started(0.0, false), Succeeded(0.0, None), Started(0.0, false)]
  {
    var run, steps := NullIsFetched();
    OneMoreStep(run, steps, Call(0, false));
    var s4 := Next(run[|steps|], Call(0, false));
    OneMoreStep(run + [s4], steps + [Call(0, false)], Enter(0));
    assert Next(s4, Enter(0)).log == [Started(0.0, false), Succeeded(0.0, None), Started(0.0, false)];
    hide IsRun, Enabled, Next;
    var run', steps' := run + [s4] + [Next(s4, Enter(0))], steps + [Call(0, false)] + [Enter(0)];
    assert run'[|steps'|] == Next(s4, Enter(0));
  }
}
