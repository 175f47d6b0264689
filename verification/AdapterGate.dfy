/**
From an uploaded LoRA to a served one (adapta/services/adapters.py, adapta/api/v1/adapters.py,
adapta/api/v1/endpoints.py, adapta/services/maintenance.py).

One event is one committed database transaction, or the read a handler makes before its own
commit: between a handler's reads and its commit any other event may happen. Postgres rejects a
commit that binds a deleted adapter, deletes a bound one or adds a second endpoint to a project.
*/
module AdapterGate {
  import opened Prelude
  import EvalGate

  type Id = nat
  type Project = nat

  datatype Status = Uploaded | Processing | Passed | Failed

  datatype Format = Gguf | Peft

  datatype Metrics = Metrics(task: EvalGate.Task, adapterScore: real, baseScore: real, passed: bool)

  datatype Adapter = Adapter(
    project: Project,
    format: Format,
    gguf: Option<nat>,
    created: nat,
    status: Status,
    metrics: Option<Metrics>)

  datatype Action = Promote | Rollback

  /** `adapter` goes `None` when the adapter is deleted later. */
  datatype AuditEvent = AuditEvent(adapter: Option<Id>, action: Action)

  datatype Endpoint = Endpoint(adapter: Option<Id>, log: seq<AuditEvent>)

  /** The one adapter job the worker runs, and how far it is. */
  datatype Work =
    | Nothing
    | Begun(id: Id)
    | Checked(id: Id, task: EvalGate.Task)
    | Converted(id: Id, task: EvalGate.Task)

  /** A create or promote handler between its reads and its commit; `seen` is the log's length at the read. */
  datatype Request =
    | Create(project: Project, adapter: Id)
    | Switch(project: Project, adapter: Id, action: Action, seen: nat)

  datatype System = System(
    adapters: map<Id, Adapter>,
    endpoints: map<Project, Endpoint>,
    queued: set<Id>,
    work: Work,
    requests: seq<Request>,
    sweeping: set<Id>,
    clock: nat)

  datatype Event =
    | Upload(id: Id, project: Project, format: Format, enqueued: bool)
    | MarkUnqueued(id: Id)
    | Begin(id: Id)
    | Check(task: Option<EvalGate.Task>)
    | Convert(path: nat)
    | Score(adapterScore: real, baseScore: real)
    | Fail
    | Interrupt
    | SweepReads
    | SweepCommits
    | CreateReads(project: Project, id: Id)
    | PromoteReads(project: Project, id: Id)
    | Commits(request: nat)
    | Delete(id: Id)

  const EMPTY := System(map[], map[], {}, Nothing, [], {}, 0)

  function SetStatus(s: System, id: Id, st: Status): System
    requires id in s.adapters
  {
    s.(adapters := s.adapters[id := s.adapters[id].(status := st)])
  }

  // ---- the handlers and the job ---------------------------------------------------------------

  /** A GGUF upload is servable as stored; a PEFT upload has no GGUF until the job converts it. */
  function UploadStep(s: System, id: Id, p: Project, format: Format, enqueued: bool): System {
    if id in s.adapters || id in s.queued || (s.work != Nothing && s.work.id == id) || Mentioned(s, id) then s else
    var a := Adapter(p, format, if format.Gguf? then Some(id) else None, s.clock, Uploaded, None);
    s.(adapters := s.adapters[id := a], clock := s.clock + 1,
       queued := if enqueued then s.queued + {id} else s.queued)
  }

  /** Upload ids are fresh: no handler or sweep still holds one. */
  predicate Mentioned(s: System, id: Id) {
    id in s.sweeping || exists i :: 0 <= i < |s.requests| && s.requests[i].adapter == id
  }

  function MarkUnqueuedStep(s: System, id: Id): System {
    if id in s.adapters && id !in s.queued && s.adapters[id].status.Uploaded? then SetStatus(s, id, Failed) else s
  }

  function BeginStep(s: System, id: Id): System {
    if s.work != Nothing || id !in s.queued || id !in s.adapters then s
    else if s.adapters[id].status.Passed? || s.adapters[id].status.Failed? then s
    else SetStatus(s, id, Processing).(work := Begun(id))
  }

  function FailStep(s: System): System {
    if s.work == Nothing then s
    else if s.work.id !in s.adapters then s.(work := Nothing)
    else SetStatus(s, s.work.id, Failed).(work := Nothing)
  }

  /** The eval dataset may be gone or carry no task; a freeform one cannot gate. */
  function CheckStep(s: System, task: Option<EvalGate.Task>): System {
    if !s.work.Begun? then s
    else if task.None? || task.value.Freeform? then FailStep(s)
    else s.(work := Checked(s.work.id, task.value))
  }

  function ConvertStep(s: System, path: nat): System {
    if !s.work.Checked? then s
    else if s.work.id !in s.adapters then s.(work := Nothing)
    else
      var a := s.adapters[s.work.id];
      var a' := if a.format.Peft? then a.(gguf := Some(path)) else a;
      s.(adapters := s.adapters[s.work.id := a'], work := Converted(s.work.id, s.work.task))
  }

  function ScoreStep(s: System, x: real, y: real, cfg: EvalGate.GateConfig): System {
    if !s.work.Converted? then s
    else if s.work.id !in s.adapters then s.(work := Nothing)
    else
      var m := Metrics(s.work.task, x, y, EvalGate.Passes(x, y, cfg));
      var a := s.adapters[s.work.id].(metrics := Some(m), status := if m.passed then Passed else Failed);
      s.(adapters := s.adapters[s.work.id := a], work := Nothing)
  }

  function Stuck(s: System): set<Id> {
    set id | id in s.adapters && s.adapters[id].status.Processing?
  }

  /** Writes `failed` over every row that was read; a row deleted since makes the commit raise. */
  function SweepCommitsStep(s: System): System {
    if s.sweeping <= s.adapters.Keys
    then s.(sweeping := {},
            adapters := map id | id in s.adapters ::
              if id in s.sweeping then s.adapters[id].(status := Failed) else s.adapters[id])
    else s.(sweeping := {})
  }

  /** The latest passed adapter of the project. */
  ghost predicate IsLatestPassed(s: System, p: Project, id: Id) {
    && id in s.adapters && s.adapters[id].project == p && s.adapters[id].status.Passed?
    && forall o :: o in s.adapters && s.adapters[o].project == p && s.adapters[o].status.Passed? ==>
         s.adapters[o].created <= s.adapters[id].created
  }

  ghost function CreateReadsStep(s: System, p: Project, id: Id): System {
    if p !in s.endpoints && IsLatestPassed(s, p, id) then s.(requests := s.requests + [Create(p, id)]) else s
  }

  predicate Served(log: seq<AuditEvent>, id: Id) {
    exists i :: 0 <= i < |log| && log[i].adapter == Some(id)
  }

  predicate CanPromote(s: System, p: Project, id: Id) {
    && p in s.endpoints && id in s.adapters && s.adapters[id].project == p
    && s.adapters[id].status.Passed? && s.adapters[id].gguf.Some?
    && s.endpoints[p].adapter != Some(id)
  }

  function PromoteRequest(s: System, p: Project, id: Id): Request
    requires p in s.endpoints
  {
    var log := s.endpoints[p].log;
    Switch(p, id, if Served(log, id) then Rollback else Promote, |log|)
  }

  function PromoteReadsStep(s: System, p: Project, id: Id): System {
    if !CanPromote(s, p, id) then s else
    s.(requests := s.requests + [PromoteRequest(s, p, id)])
  }

  function Bind(s: System, p: Project, id: Id, action: Action, log: seq<AuditEvent>): System {
    s.(endpoints := s.endpoints[p := Endpoint(Some(id), log + [AuditEvent(Some(id), action)])])
  }

  function CommitsStep(s: System, i: nat): System {
    if i >= |s.requests| then s else
    var r := s.requests[i];
    var s' := s.(requests := s.requests[..i] + s.requests[i + 1..]);
    if r.adapter !in s.adapters then s' else
    match r
    case Create(p, id) => if p in s.endpoints then s' else Bind(s', p, id, Promote, [])
    case Switch(p, id, action, _) =>
      if p in s.endpoints then Bind(s', p, id, action, s.endpoints[p].log) else s'
  }

  predicate BoundAnywhere(s: System, id: Id) {
    exists p :: p in s.endpoints && s.endpoints[p].adapter == Some(id)
  }

  function Forget(log: seq<AuditEvent>, id: Id): seq<AuditEvent> {
    seq(|log|, i requires 0 <= i < |log| => if log[i].adapter == Some(id) then log[i].(adapter := None) else log[i])
  }

  function DeleteStep(s: System, id: Id): System {
    if id !in s.adapters || BoundAnywhere(s, id) then s
    else s.(adapters := s.adapters - {id},
            endpoints := map p | p in s.endpoints :: s.endpoints[p].(log := Forget(s.endpoints[p].log, id)))
  }

  ghost function Step(s: System, e: Event, cfg: EvalGate.GateConfig): System {
    match e
    case Upload(id, p, format, enqueued) => UploadStep(s, id, p, format, enqueued)
    case MarkUnqueued(id) => MarkUnqueuedStep(s, id)
    case Begin(id) => BeginStep(s, id)
    case Check(task) => CheckStep(s, task)
    case Convert(path) => ConvertStep(s, path)
    case Score(x, y) => ScoreStep(s, x, y, cfg)
    case Fail => FailStep(s)
    case Interrupt => s.(work := Nothing)
    case SweepReads => s.(sweeping := Stuck(s))
    case SweepCommits => SweepCommitsStep(s)
    case CreateReads(p, id) => CreateReadsStep(s, p, id)
    case PromoteReads(p, id) => PromoteReadsStep(s, p, id)
    case Commits(i) => CommitsStep(s, i)
    case Delete(id) => DeleteStep(s, id)
  }

  // ---- what serving relies on --------------------------------------------------------------------

  /** A passed adapter has a GGUF and metrics that pass the gate on a task that can gate. */
  ghost predicate EarnedPass(a: Adapter, cfg: EvalGate.GateConfig) {
    && a.gguf.Some? && a.metrics.Some?
    && a.metrics.value.passed && !a.metrics.value.task.Freeform?
    && EvalGate.Passes(a.metrics.value.adapterScore, a.metrics.value.baseScore, cfg)
  }

  ghost predicate GoodAdapters(s: System, cfg: EvalGate.GateConfig) {
    forall id :: id in s.adapters ==>
      && (s.adapters[id].status.Passed? ==> EarnedPass(s.adapters[id], cfg))
      && (s.adapters[id].format.Gguf? ==> s.adapters[id].gguf.Some?)
  }

  /** The job in hand works on a row that has not passed, and converted it before scoring. */
  ghost predicate GoodWork(s: System) {
    s.work != Nothing && s.work.id in s.adapters ==>
      && !s.adapters[s.work.id].status.Passed?
      && (s.work.Converted? ==> s.adapters[s.work.id].gguf.Some?)
      && (s.work.Checked? || s.work.Converted? ==> !s.work.task.Freeform?)
  }

  /** `id` is a passed adapter of project `p`. */
  ghost predicate Servable(s: System, p: Project, id: Id) {
    id in s.adapters && s.adapters[id].project == p && s.adapters[id].status.Passed?
  }

  /** Requests name adapters of their own project. */
  ghost predicate OwnRequests(s: System) {
    forall i :: 0 <= i < |s.requests| && s.requests[i].adapter in s.adapters ==>
      s.adapters[s.requests[i].adapter].project == s.requests[i].project
  }

  /** The newest audit event names the bound adapter, a passed one of the project. */
  ghost predicate GoodEndpoint(s: System, p: Project, e: Endpoint) {
    e.adapter.Some? ==>
      && Servable(s, p, e.adapter.value)
      && |e.log| > 0 && e.log[|e.log| - 1].adapter == e.adapter
  }

  ghost predicate GoodEndpoints(s: System) {
    forall p :: p in s.endpoints ==> GoodEndpoint(s, p, s.endpoints[p])
  }

  /** What every event keeps, sweeps included. */
  ghost predicate Basic(s: System, cfg: EvalGate.GateConfig) {
    GoodAdapters(s, cfg) && GoodWork(s) && OwnRequests(s)
  }

  /** The startup sweep writes `failed` over an adapter an endpoint serves. */
  ghost predicate SweepsBound(s: System, e: Event) {
    e.SweepCommits? && s.sweeping <= s.adapters.Keys && exists id :: id in s.sweeping && BoundAnywhere(s, id)
  }

  /** The commit of request `i` goes through. */
  predicate TakesEffect(s: System, i: nat) {
    && i < |s.requests| && s.requests[i].adapter in s.adapters
    && (s.requests[i].Create? <==> s.requests[i].project !in s.endpoints)
  }

  /** The commit binds an adapter that is no longer passed. */
  predicate BindsUnpassed(s: System, e: Event) {
    e.Commits? && TakesEffect(s, e.request) && !s.adapters[s.requests[e.request].adapter].status.Passed?
  }

  // ---- what every event keeps --------------------------------------------------------------------

  /** Rewriting the row of an adapter that has not passed leaves requests and endpoints alone. */
  lemma RewriteUnpassed(s: System, s': System, id: Id)
    requires OwnRequests(s) && id in s.adapters && !s.adapters[id].status.Passed?
    requires id in s'.adapters && s'.adapters == s.adapters[id := s'.adapters[id]]
    requires s'.adapters[id].project == s.adapters[id].project
    requires s'.endpoints == s.endpoints && s'.requests == s.requests
    ensures OwnRequests(s') && (GoodEndpoints(s) ==> GoodEndpoints(s'))
  {
  }

  lemma UploadKeeps(s: System, id: Id, p: Project, format: Format, enqueued: bool, cfg: EvalGate.GateConfig)
    requires Basic(s, cfg)
    ensures var t := UploadStep(s, id, p, format, enqueued);
      Basic(t, cfg) && (GoodEndpoints(s) ==> GoodEndpoints(t))
  {
  }

  lemma FailKeeps(s: System, cfg: EvalGate.GateConfig)
    requires Basic(s, cfg)
    ensures Basic(FailStep(s), cfg) && (GoodEndpoints(s) ==> GoodEndpoints(FailStep(s)))
  {
    if s.work != Nothing && s.work.id in s.adapters {
      RewriteUnpassed(s, FailStep(s), s.work.id);
    }
  }

  lemma ConvertKeeps(s: System, path: nat, cfg: EvalGate.GateConfig)
    requires Basic(s, cfg)
    ensures Basic(ConvertStep(s, path), cfg) && (GoodEndpoints(s) ==> GoodEndpoints(ConvertStep(s, path)))
  {
    if s.work.Checked? && s.work.id in s.adapters {
      RewriteUnpassed(s, ConvertStep(s, path), s.work.id);
    }
  }

  lemma ScoreKeeps(s: System, x: real, y: real, cfg: EvalGate.GateConfig)
    requires Basic(s, cfg)
    ensures Basic(ScoreStep(s, x, y, cfg), cfg) && (GoodEndpoints(s) ==> GoodEndpoints(ScoreStep(s, x, y, cfg)))
  {
    if s.work.Converted? && s.work.id in s.adapters {
      var s' := ScoreStep(s, x, y, cfg);
      RewriteUnpassed(s, s', s.work.id);
      forall id | id in s'.adapters
        ensures s'.adapters[id].status.Passed? ==> EarnedPass(s'.adapters[id], cfg)
      {
        if id != s.work.id {
          assert s'.adapters[id] == s.adapters[id];
        }
      }
    }
  }

  lemma BeginKeeps(s: System, id: Id, cfg: EvalGate.GateConfig)
    requires Basic(s, cfg)
    ensures Basic(BeginStep(s, id), cfg) && (GoodEndpoints(s) ==> GoodEndpoints(BeginStep(s, id)))
  {
    if BeginStep(s, id) != s {
      RewriteUnpassed(s, BeginStep(s, id), id);
    }
  }

  lemma MarkUnqueuedKeeps(s: System, id: Id, cfg: EvalGate.GateConfig)
    requires Basic(s, cfg)
    ensures Basic(MarkUnqueuedStep(s, id), cfg) && (GoodEndpoints(s) ==> GoodEndpoints(MarkUnqueuedStep(s, id)))
  {
    if MarkUnqueuedStep(s, id) != s {
      RewriteUnpassed(s, MarkUnqueuedStep(s, id), id);
    }
  }

  lemma SweepCommitsKeeps(s: System, cfg: EvalGate.GateConfig)
    requires Basic(s, cfg)
    ensures Basic(SweepCommitsStep(s), cfg)
    ensures GoodEndpoints(s) ==> (GoodEndpoints(SweepCommitsStep(s)) <==> !SweepsBound(s, SweepCommits))
  {
    var s' := SweepCommitsStep(s);
    if GoodEndpoints(s) && SweepsBound(s, SweepCommits) {
      var id :| id in s.sweeping && BoundAnywhere(s, id);
      var p :| p in s.endpoints && s.endpoints[p].adapter == Some(id);
      assert !GoodEndpoint(s', p, s'.endpoints[p]);
    } else if GoodEndpoints(s) && s.sweeping <= s.adapters.Keys {
      forall p | p in s'.endpoints
        ensures GoodEndpoint(s', p, s'.endpoints[p])
      {
        assert GoodEndpoint(s, p, s.endpoints[p]);
        if s.endpoints[p].adapter.Some? {
          assert BoundAnywhere(s, s.endpoints[p].adapter.value);
        }
      }
    }
  }

  lemma ReadsKeep(s: System, r: Request, cfg: EvalGate.GateConfig)
    requires Basic(s, cfg) && Servable(s, r.project, r.adapter)
    ensures var t := s.(requests := s.requests + [r]); Basic(t, cfg) && (GoodEndpoints(s) ==> GoodEndpoints(t))
  {
  }

  lemma CommitsKeeps(s: System, i: nat, cfg: EvalGate.GateConfig)
    requires Basic(s, cfg)
    ensures Basic(CommitsStep(s, i), cfg)
    ensures GoodEndpoints(s) ==> (GoodEndpoints(CommitsStep(s, i)) <==> !BindsUnpassed(s, Commits(i)))
  {
    var s' := CommitsStep(s, i);
    if i < |s.requests| {
      assert forall j :: 0 <= j < |s'.requests| ==>
        s'.requests[j] == s.requests[if j < i then j else j + 1];
      var r := s.requests[i];
      if GoodEndpoints(s) && BindsUnpassed(s, Commits(i)) {
        assert !GoodEndpoint(s', r.project, s'.endpoints[r.project]);
      } else if GoodEndpoints(s) {
        forall p | p in s'.endpoints
          ensures GoodEndpoint(s', p, s'.endpoints[p])
        {
          assert p in s.endpoints ==> GoodEndpoint(s, p, s.endpoints[p]);
        }
      }
    }
  }

  lemma DeleteKeeps(s: System, id: Id, cfg: EvalGate.GateConfig)
    requires Basic(s, cfg)
    ensures Basic(DeleteStep(s, id), cfg) && (GoodEndpoints(s) ==> GoodEndpoints(DeleteStep(s, id)))
  {
    var s' := DeleteStep(s, id);
    if s' != s && GoodEndpoints(s) {
      forall p | p in s'.endpoints
        ensures GoodEndpoint(s', p, s'.endpoints[p])
      {
        assert GoodEndpoint(s, p, s.endpoints[p]);
        assert s.endpoints[p].adapter != Some(id);
      }
    }
  }

  lemma StepKeeps(s: System, e: Event, cfg: EvalGate.GateConfig)
    requires Basic(s, cfg)
    ensures Basic(Step(s, e, cfg), cfg)
    ensures GoodEndpoints(s) ==>
      (GoodEndpoints(Step(s, e, cfg)) <==> !SweepsBound(s, e) && !BindsUnpassed(s, e))
  {
    match e
    case Upload(id, p, format, enqueued) => UploadKeeps(s, id, p, format, enqueued, cfg);
    case MarkUnqueued(id) => MarkUnqueuedKeeps(s, id, cfg);
    case Begin(id) => BeginKeeps(s, id, cfg);
    case Check(task) => FailKeeps(s, cfg);
    case Convert(path) => ConvertKeeps(s, path, cfg);
    case Score(x, y) => ScoreKeeps(s, x, y, cfg);
    case Fail => FailKeeps(s, cfg);
    case SweepCommits => SweepCommitsKeeps(s, cfg);
    case CreateReads(p, id) =>
      if Step(s, e, cfg) != s {
        ReadsKeep(s, Create(p, id), cfg);
      }
    case PromoteReads(p, id) =>
      if CanPromote(s, p, id) {
        ReadsKeep(s, PromoteRequest(s, p, id), cfg);
      }
    case Commits(i) => CommitsKeeps(s, i, cfg);
    case Delete(id) => DeleteKeeps(s, id, cfg);
    case Interrupt =>
    case SweepReads =>
  }

  // ---- what endpoints serve ----------------------------------------------------------------------

  /** What an endpoint serves belongs to its project, earned its pass, and is what the log says. */
  ghost predicate ServesEarnedAdapters(s: System, cfg: EvalGate.GateConfig) {
    forall p :: p in s.endpoints && s.endpoints[p].adapter.Some? ==>
      && s.endpoints[p].adapter.value in s.adapters
      && var a := s.adapters[s.endpoints[p].adapter.value];
         && a.project == p && a.status.Passed? && EarnedPass(a, cfg)
         && |s.endpoints[p].log| > 0
         && s.endpoints[p].log[|s.endpoints[p].log| - 1].adapter == s.endpoints[p].adapter
  }

  lemma ServingIsGood(s: System, cfg: EvalGate.GateConfig)
    requires GoodAdapters(s, cfg)
    ensures ServesEarnedAdapters(s, cfg) <==> GoodEndpoints(s)
  {
    if GoodEndpoints(s) {
      assert forall p :: p in s.endpoints ==> GoodEndpoint(s, p, s.endpoints[p]);
    }
  }

  /** An event keeps it exactly unless it sweeps a bound adapter or binds one that is no longer passed. */
  lemma StepServes(s: System, e: Event, cfg: EvalGate.GateConfig)
    requires Basic(s, cfg) && ServesEarnedAdapters(s, cfg)
    ensures Basic(Step(s, e, cfg), cfg)
    ensures ServesEarnedAdapters(Step(s, e, cfg), cfg) <==> !SweepsBound(s, e) && !BindsUnpassed(s, e)
  {
    StepKeeps(s, e, cfg);
    ServingIsGood(s, cfg);
    ServingIsGood(Step(s, e, cfg), cfg);
  }

  ghost function Run(s: System, es: seq<Event>, cfg: EvalGate.GateConfig): System
    decreases es
  {
    if es == [] then s else Run(Step(s, es[0], cfg), es[1..], cfg)
  }

  ghost predicate AlwaysServes(s: System, es: seq<Event>, cfg: EvalGate.GateConfig)
    decreases es
  {
    ServesEarnedAdapters(s, cfg) && (es == [] || AlwaysServes(Step(s, es[0], cfg), es[1..], cfg))
  }

  ghost predicate NeverUnserves(s: System, es: seq<Event>, cfg: EvalGate.GateConfig)
    decreases es
  {
    es == [] ||
    (!SweepsBound(s, es[0]) && !BindsUnpassed(s, es[0]) && NeverUnserves(Step(s, es[0], cfg), es[1..], cfg))
  }

  /**
  Over every run of uploads, jobs, sweeps, creates, promotes and deletes, endpoints serve only
  adapters of their project that earned their pass, in every state, exactly when no sweep writes
  over a bound adapter and no commit binds one that is no longer passed.
  */
  lemma {:induction false} EndpointsServeEarnedAdapters(s: System, es: seq<Event>, cfg: EvalGate.GateConfig)
    requires Basic(s, cfg) && ServesEarnedAdapters(s, cfg)
    ensures AlwaysServes(s, es, cfg) <==> NeverUnserves(s, es, cfg)
    decreases es
  {
    if es != [] {
      StepServes(s, es[0], cfg);
      if !SweepsBound(s, es[0]) && !BindsUnpassed(s, es[0]) {
        EndpointsServeEarnedAdapters(Step(s, es[0], cfg), es[1..], cfg);
      }
    }
  }

  // ---- the root cause is the sweep ---------------------------------------------------------------

  ghost predicate PassedRequests(s: System) {
    forall i :: 0 <= i < |s.requests| && s.requests[i].adapter in s.adapters ==>
      s.adapters[s.requests[i].adapter].status.Passed?
  }

  /** The sweep writes over a pass it had not seen. */
  ghost predicate SweepsAwayAPass(s: System, e: Event) {
    && e.SweepCommits? && s.sweeping <= s.adapters.Keys
    && exists id :: id in s.sweeping && s.adapters[id].status.Passed?
  }

  lemma PassStays(s: System, e: Event, cfg: EvalGate.GateConfig, id: Id)
    requires GoodWork(s) && !SweepsAwayAPass(s, e)
    requires id in s.adapters && s.adapters[id].status.Passed? && id in Step(s, e, cfg).adapters
    ensures Step(s, e, cfg).adapters[id].status.Passed?
  {
    match e
    case SweepCommits =>
    case Delete(_) =>
    case Commits(i) =>
    case _ =>
  }

  lemma StepPassedRequests(s: System, e: Event, cfg: EvalGate.GateConfig)
    requires Basic(s, cfg) && PassedRequests(s) && !SweepsAwayAPass(s, e)
    ensures PassedRequests(Step(s, e, cfg))
  {
    var t := Step(s, e, cfg);
    forall j | 0 <= j < |t.requests| && t.requests[j].adapter in t.adapters
      ensures t.adapters[t.requests[j].adapter].status.Passed?
    {
      var i := if e.Commits? && e.request <= j && e.request < |s.requests| then j + 1 else j;
      if i < |s.requests| {
        assert t.requests[j] == s.requests[i];
        NewcomersAreUnnamed(s, e, cfg, i);
        PassStays(s, e, cfg, s.requests[i].adapter);
      }
    }
  }

  ghost predicate NoPassSweptAway(s: System, es: seq<Event>, cfg: EvalGate.GateConfig)
    decreases es
  {
    es == [] || (!SweepsAwayAPass(s, es[0]) && NoPassSweptAway(Step(s, es[0], cfg), es[1..], cfg))
  }

  /** Where no sweep writes over a pass, endpoints serve earned adapters all along. */
  lemma {:induction false} OnlySweepsUnserve(s: System, es: seq<Event>, cfg: EvalGate.GateConfig)
    requires Basic(s, cfg) && ServesEarnedAdapters(s, cfg) && PassedRequests(s)
    requires NoPassSweptAway(s, es, cfg)
    ensures AlwaysServes(s, es, cfg)
    decreases es
  {
    if es != [] {
      var e := es[0];
      StepServes(s, e, cfg);
      StepPassedRequests(s, e, cfg);
      ServingIsGood(s, cfg);
      if SweepsBound(s, e) {
        BoundIsPassed(s, e);
      }
      OnlySweepsUnserve(Step(s, e, cfg), es[1..], cfg);
    }
  }

  lemma BoundIsPassed(s: System, e: Event)
    requires GoodEndpoints(s) && SweepsBound(s, e)
    ensures SweepsAwayAPass(s, e)
  {
    var id :| id in s.sweeping && BoundAnywhere(s, id);
    var p :| p in s.endpoints && s.endpoints[p].adapter == Some(id);
    assert GoodEndpoint(s, p, s.endpoints[p]);
  }

  lemma EmptyIsGood(cfg: EvalGate.GateConfig)
    ensures Basic(EMPTY, cfg) && ServesEarnedAdapters(EMPTY, cfg) && PassedRequests(EMPTY)
    ensures GoodTags(EMPTY) && ReadsExact(EMPTY) && NoneOvertaken(EMPTY) && InUploadOrder(EMPTY)
  {
  }

  predicate IsJobEvent(e: Event, id: Id) {
    (e.Begin? && e.id == id) || e.Check? || e.Convert? || e.Score? || e.Fail? || e.Interrupt?
  }

  /** Running the job of an adapter that already passed or failed changes nothing, however it goes. */
  lemma {:induction false} TerminalAdapterJobIsNoOp(s: System, id: Id, es: seq<Event>, cfg: EvalGate.GateConfig)
    requires s.work == Nothing && id in s.adapters
    requires s.adapters[id].status.Passed? || s.adapters[id].status.Failed?
    requires forall i :: 0 <= i < |es| ==> IsJobEvent(es[i], id)
    ensures Run(s, es, cfg) == s
    decreases es
  {
    if es != [] {
      assert Step(s, es[0], cfg) == s;
      TerminalAdapterJobIsNoOp(s, id, es[1..], cfg);
    }
  }

  // ---- what a job, an upload, a create and a delete do ---------------------------------------------

  /**
  A job that runs through decides: the adapter passes exactly when its scores pass the gate, and
  otherwise fails; scores and task are recorded, a PEFT upload has the converted file, and nothing
  else changes.
  */
  lemma JobDecides(s: System, id: Id, task: EvalGate.Task, path: nat, x: real, y: real, cfg: EvalGate.GateConfig)
    requires s.work == Nothing && id in s.queued && id in s.adapters && !task.Freeform?
    requires s.adapters[id].status.Uploaded? || s.adapters[id].status.Processing?
    ensures var checked := Step(Step(s, Begin(id), cfg), Check(Some(task)), cfg);
      var t := Step(Step(checked, Convert(path), cfg), Score(x, y), cfg);
      var a, passed := s.adapters[id], EvalGate.Passes(x, y, cfg);
      && checked.adapters[id].status.Processing?
      && t.adapters[id] == Adapter(a.project, a.format, if a.format.Peft? then Some(path) else a.gguf, a.created,
           if passed then Passed else Failed, Some(Metrics(task, x, y, passed)))
      && t == s.(adapters := s.adapters[id := t.adapters[id]])
  {
  }

  /** A job whose eval set is gone, has no task, or cannot gate fails before anything is converted or scored. */
  lemma UngateableJobFails(s: System, id: Id, task: Option<EvalGate.Task>, cfg: EvalGate.GateConfig)
    requires s.work == Nothing && id in s.queued && id in s.adapters && (task.None? || task.value.Freeform?)
    requires s.adapters[id].status.Uploaded? || s.adapters[id].status.Processing?
    ensures Step(Step(s, Begin(id), cfg), Check(task), cfg) == SetStatus(s, id, Failed)
  {
  }

  /** An upload whose job could not be queued is failed; a job that is cut off leaves its row for another to take up. */
  lemma UnfinishedJobs(s: System, id: Id, cfg: EvalGate.GateConfig)
    requires id in s.adapters
    ensures id !in s.queued && s.adapters[id].status.Uploaded? ==>
      Step(s, MarkUnqueued(id), cfg) == SetStatus(s, id, Failed)
    ensures id in s.queued && s.adapters[id].status.Processing? ==>
      var t := Step(s, Interrupt, cfg);
      t.adapters == s.adapters && Step(t, Begin(id), cfg).work == Begun(id)
  {
  }

  /** A sweep that nothing interrupts fails exactly the adapters whose jobs look cut off. */
  lemma UninterruptedSweep(s: System, id: Id, cfg: EvalGate.GateConfig)
    requires id in s.adapters
    ensures var t := Step(Step(s, SweepReads, cfg), SweepCommits, cfg);
      && t.adapters.Keys == s.adapters.Keys && t.endpoints == s.endpoints && t.sweeping == {}
      && t.adapters[id] ==
           if s.adapters[id].status.Processing? then s.adapters[id].(status := Failed) else s.adapters[id]
  {
  }

  /** Creation times are those of the uploads: all before now, and no two the same. */
  ghost predicate InUploadOrder(s: System) {
    && (forall id :: id in s.adapters ==> s.adapters[id].created < s.clock)
    && (forall a, b :: a in s.adapters && b in s.adapters && s.adapters[a].created == s.adapters[b].created ==> a == b)
  }

  /** Rows keep their creation times; only an upload adds one, with the time of its commit. */
  lemma CreatedFrame(s: System, e: Event, cfg: EvalGate.GateConfig, id: Id)
    requires id in Step(s, e, cfg).adapters && id in s.adapters
    ensures Step(s, e, cfg).adapters[id].created == s.adapters[id].created
  {
  }

  lemma NewcomerIsUploaded(s: System, e: Event, cfg: EvalGate.GateConfig, id: Id)
    requires id in Step(s, e, cfg).adapters && id !in s.adapters
    ensures e.Upload? && e.id == id
    ensures Step(s, e, cfg).adapters[id]
         == Adapter(e.project, e.format, if e.format.Gguf? then Some(id) else None, s.clock, Uploaded, None)
    ensures Step(s, e, cfg).clock == s.clock + 1
  {
  }

  lemma ClockRuns(s: System, e: Event, cfg: EvalGate.GateConfig)
    ensures s.clock <= Step(s, e, cfg).clock
  {
  }

  lemma StepUploadOrder(s: System, e: Event, cfg: EvalGate.GateConfig)
    requires InUploadOrder(s)
    ensures InUploadOrder(Step(s, e, cfg))
  {
    var t := Step(s, e, cfg);
    ClockRuns(s, e, cfg);
    forall id | id in t.adapters
      ensures if id in s.adapters then t.adapters[id].created == s.adapters[id].created
        else t.adapters[id].created == s.clock < t.clock && e.Upload? && e.id == id
    {
      if id in s.adapters {
        CreatedFrame(s, e, cfg, id);
      } else {
        NewcomerIsUploaded(s, e, cfg, id);
      }
    }
  }

  /** `id` is a passed adapter of the project, and every other one was uploaded before it. */
  ghost predicate LastUploadedPass(s: System, p: Project, id: Id) {
    && id in s.adapters && s.adapters[id].project == p && s.adapters[id].status.Passed?
    && forall o :: o in s.adapters && o != id && s.adapters[o].project == p && s.adapters[o].status.Passed? ==>
         s.adapters[o].created < s.adapters[id].created
  }

  /** A set of adapters has one uploaded last. */
  lemma {:induction false} LastOf(s: System, ids: set<Id>) returns (last: Id)
    requires ids != {} && ids <= s.adapters.Keys
    ensures last in ids && forall o :: o in ids ==> s.adapters[o].created <= s.adapters[last].created
    decreases ids
  {
    var x :| x in ids;
    last := x;
    if ids != {x} {
      assert ids - {x} != {} by {
        assert ids == (ids - {x}) + {x};
      }
      var y := LastOf(s, ids - {x});
      last := if s.adapters[x].created >= s.adapters[y].created then x else y;
      forall o | o in ids
        ensures s.adapters[o].created <= s.adapters[last].created
      {
        assert o == x || o in ids - {x};
      }
    }
  }

  /** A project with a passed adapter gets an endpoint that serves the one uploaded last, logged as a promotion. */
  lemma CreateServesLastUpload(s: System, p: Project, some: Id, cfg: EvalGate.GateConfig) returns (id: Id)
    requires InUploadOrder(s) && s.requests == [] && p !in s.endpoints && Servable(s, p, some)
    ensures LastUploadedPass(s, p, id)
    ensures var t := Step(Step(s, CreateReads(p, id), cfg), Commits(0), cfg);
      t == s.(endpoints := s.endpoints[p := Endpoint(Some(id), [AuditEvent(Some(id), Promote)])])
  {
    var passed := set o | o in s.adapters && Servable(s, p, o);
    assert some in passed;
    id := LastOf(s, passed);
    assert forall o :: o in s.adapters && Servable(s, p, o) ==> o in passed;
    assert IsLatestPassed(s, p, id);
    var r := Step(s, CreateReads(p, id), cfg);
    assert r.requests == [Create(p, id)];
    assert [] + [AuditEvent(Some(id), Promote)] == [AuditEvent(Some(id), Promote)];
  }

  /** Without one, no create gets past its reads. */
  lemma NothingToServe(s: System, p: Project, id: Id, cfg: EvalGate.GateConfig)
    requires forall o :: o in s.adapters ==> !Servable(s, p, o)
    ensures Step(s, CreateReads(p, id), cfg) == s
  {
  }

  /** An adapter an endpoint serves cannot be deleted; any other goes, and its audit events lose its name only. */
  lemma DeleteExactly(s: System, id: Id, cfg: EvalGate.GateConfig)
    requires id in s.adapters
    ensures var t := Step(s, Delete(id), cfg);
      if BoundAnywhere(s, id) then t == s
      else
        && t.adapters == s.adapters - {id} && t.endpoints.Keys == s.endpoints.Keys
        && (forall p :: p in s.endpoints ==>
              && t.endpoints[p].adapter == s.endpoints[p].adapter && |t.endpoints[p].log| == |s.endpoints[p].log|
              && (forall i :: 0 <= i < |s.endpoints[p].log| ==>
                    && t.endpoints[p].log[i].action == s.endpoints[p].log[i].action
                    && t.endpoints[p].log[i].adapter ==
                         if s.endpoints[p].log[i].adapter == Some(id) then None else s.endpoints[p].log[i].adapter))
  {
  }

  /** A promote gets past its checks exactly for a passed adapter of the project with a file, not yet served. */
  lemma PromoteChecks(s: System, p: Project, id: Id, cfg: EvalGate.GateConfig)
    ensures Step(s, PromoteReads(p, id), cfg) != s <==>
      (&& p in s.endpoints && id in s.adapters && s.adapters[id].project == p && s.adapters[id].status == Passed
       && s.adapters[id].gguf != None && s.endpoints[p].adapter != Some(id))
  {
    if CanPromote(s, p, id) {
      assert |Step(s, PromoteReads(p, id), cfg).requests| == |s.requests| + 1;
    }
  }

  // ---- the audit log -----------------------------------------------------------------------------

  /** An event is a rollback exactly when its adapter occurs earlier in the log. */
  ghost predicate TagsExact(log: seq<AuditEvent>) {
    forall i :: 0 <= i < |log| && log[i].adapter.Some? ==>
      (log[i].action.Rollback? <==> Served(log[..i], log[i].adapter.value))
  }

  ghost predicate GoodTags(s: System) {
    forall p :: p in s.endpoints ==> TagsExact(s.endpoints[p].log)
  }

  /** `id` has been bound to the endpoint since the log was `seen` events long. */
  predicate BoundSince(log: seq<AuditEvent>, seen: nat, id: Id) {
    seen <= |log| && Served(log[seen..], id)
  }

  /** Another promotion of the same adapter committed between the request's read and now. */
  predicate Overtaken(s: System, r: Request) {
    && r.Switch? && r.action.Promote?
    && r.project in s.endpoints && BoundSince(s.endpoints[r.project].log, r.seen, r.adapter)
  }

  /** The commit of a promotion that has been overtaken. */
  predicate CommitsOvertaken(s: System, e: Event) {
    e.Commits? && TakesEffect(s, e.request) && Overtaken(s, s.requests[e.request])
  }

  /** A pending promotion carries the tag that was right for the log it read. */
  ghost predicate ReadExactly(s: System, r: Request) {
    r.Switch? ==>
      && r.project in s.endpoints && r.seen <= |s.endpoints[r.project].log|
      && (r.adapter in s.adapters ==>
            (r.action.Rollback? <==> Served(s.endpoints[r.project].log[..r.seen], r.adapter)))
  }

  ghost predicate ReadsExact(s: System) {
    forall i :: 0 <= i < |s.requests| ==> ReadExactly(s, s.requests[i])
  }

  lemma AppendTag(log: seq<AuditEvent>, id: Id, action: Action)
    requires TagsExact(log)
    ensures TagsExact(log + [AuditEvent(Some(id), action)]) <==> (action.Rollback? <==> Served(log, id))
  {
    var log' := log + [AuditEvent(Some(id), action)];
    forall i | 0 <= i <= |log|
      ensures log'[..i] == log[..i]
    {
    }
    assert log[..|log|] == log;
    assert log'[|log|] == AuditEvent(Some(id), action);
  }

  lemma ForgetTags(log: seq<AuditEvent>, id: Id)
    requires TagsExact(log)
    ensures TagsExact(Forget(log, id))
  {
    var log' := Forget(log, id);
    forall i | 0 <= i < |log'| && log'[i].adapter.Some?
      ensures log'[i].action.Rollback? <==> Served(log'[..i], log'[i].adapter.value)
    {
      var x := log'[i].adapter.value;
      assert log[i] == log'[i] && x != id;
      if Served(log[..i], x) {
        var j :| 0 <= j < i && log[..i][j].adapter == Some(x);
        assert log'[..i][j].adapter == Some(x);
      }
      if Served(log'[..i], x) {
        var j :| 0 <= j < i && log'[..i][j].adapter == Some(x);
        assert log[..i][j].adapter == Some(x);
      }
    }
  }

  lemma ServedSplit(log: seq<AuditEvent>, seen: nat, id: Id)
    requires seen <= |log|
    ensures Served(log, id) <==> Served(log[..seen], id) || Served(log[seen..], id)
  {
    if Served(log, id) {
      var i :| 0 <= i < |log| && log[i].adapter == Some(id);
      if i < seen {
        assert log[..seen][i].adapter == Some(id);
      } else {
        assert log[seen..][i - seen].adapter == Some(id);
      }
    }
    if Served(log[..seen], id) {
      var i :| 0 <= i < seen && log[..seen][i].adapter == Some(id);
      assert log[i].adapter == Some(id);
    }
    if Served(log[seen..], id) {
      var i :| 0 <= i < |log| - seen && log[seen..][i].adapter == Some(id);
      assert log[seen + i].adapter == Some(id);
    }
  }

  /** A tag is right at the commit exactly when the promotion has not been overtaken. */
  lemma TagIsRight(s: System, r: Request)
    requires r.Switch? && ReadExactly(s, r) && r.adapter in s.adapters
    ensures (r.action.Rollback? <==> Served(s.endpoints[r.project].log, r.adapter)) <==> !Overtaken(s, r)
  {
    ServedSplit(s.endpoints[r.project].log, r.seen, r.adapter);
  }

  lemma CommitsTags(s: System, i: nat)
    requires GoodTags(s) && ReadsExact(s)
    ensures GoodTags(CommitsStep(s, i)) <==> !CommitsOvertaken(s, Commits(i))
  {
    var s' := CommitsStep(s, i);
    if TakesEffect(s, i) {
      var r := s.requests[i];
      assert forall p :: p in s'.endpoints && p != r.project ==> s'.endpoints[p] == s.endpoints[p];
      if r.Switch? {
        var log := s.endpoints[r.project].log;
        AppendTag(log, r.adapter, r.action);
        TagIsRight(s, r);
        assert s'.endpoints[r.project].log == log + [AuditEvent(Some(r.adapter), r.action)];
      } else {
        AppendTag([], r.adapter, Promote);
        assert s'.endpoints[r.project].log == [] + [AuditEvent(Some(r.adapter), Promote)];
      }
    } else {
      assert s'.endpoints == s.endpoints;
    }
  }

  /** The log only grows at its end. */
  ghost predicate LogsGrow(s: System, t: System) {
    forall p :: p in s.endpoints ==> p in t.endpoints && s.endpoints[p].log <= t.endpoints[p].log
  }

  lemma GrowthKeepsReads(s: System, t: System, r: Request)
    requires ReadExactly(s, r) && LogsGrow(s, t) && (r.adapter in t.adapters ==> r.adapter in s.adapters)
    ensures ReadExactly(t, r)
  {
    if r.Switch? {
      assert t.endpoints[r.project].log[..r.seen] == s.endpoints[r.project].log[..r.seen];
    }
  }

  lemma ForgetServed(log: seq<AuditEvent>, id: Id, x: Id)
    requires x != id
    ensures Served(Forget(log, id), x) <==> Served(log, x)
  {
    var log' := Forget(log, id);
    assert forall i :: 0 <= i < |log| ==> (log'[i].adapter == Some(x) <==> log[i].adapter == Some(x));
  }

  lemma ForgetKeepsReads(s: System, id: Id, r: Request)
    requires ReadExactly(s, r)
    ensures ReadExactly(DeleteStep(s, id), r)
  {
    var t := DeleteStep(s, id);
    if t != s && r.Switch? && r.adapter in t.adapters {
      var log := s.endpoints[r.project].log;
      assert Forget(log, id)[..r.seen] == Forget(log[..r.seen], id);
      ForgetServed(log[..r.seen], id, r.adapter);
    }
  }

  lemma CommitsReads(s: System, i: nat)
    requires ReadsExact(s)
    ensures ReadsExact(CommitsStep(s, i))
  {
    var t := CommitsStep(s, i);
    if i < |s.requests| {
      forall j | 0 <= j < |t.requests|
        ensures ReadExactly(t, t.requests[j])
      {
        assert t.requests[j] == s.requests[if j < i then j else j + 1];
        GrowthKeepsReads(s, t, t.requests[j]);
      }
    }
  }

  /** Uploads use fresh ids, so what a pending request names was there before or is not there. */
  lemma NewcomersAreUnnamed(s: System, e: Event, cfg: EvalGate.GateConfig, i: nat)
    requires i < |s.requests| && s.requests[i].adapter in Step(s, e, cfg).adapters
    ensures s.requests[i].adapter in s.adapters
  {
    if e.Upload? && s.requests[i].adapter == e.id {
      assert Mentioned(s, e.id);
    }
  }

  /** Every event keeps the tags of pending requests right for what they read. */
  lemma StepReads(s: System, e: Event, cfg: EvalGate.GateConfig)
    requires ReadsExact(s)
    ensures ReadsExact(Step(s, e, cfg))
  {
    var t := Step(s, e, cfg);
    if e.Commits? {
      CommitsReads(s, e.request);
    } else {
      assert s.requests <= t.requests && |t.requests| <= |s.requests| + 1;
      forall i | 0 <= i < |s.requests|
        ensures ReadExactly(t, s.requests[i])
      {
        if e.Delete? {
          ForgetKeepsReads(s, e.id, s.requests[i]);
        } else {
          if s.requests[i].adapter in t.adapters {
            NewcomersAreUnnamed(s, e, cfg, i);
          }
          GrowthKeepsReads(s, t, s.requests[i]);
        }
      }
      if e.PromoteReads? && CanPromote(s, e.project, e.id) {
        var log := s.endpoints[e.project].log;
        assert log[..|log|] == log;
      }
    }
  }

  /** The log's tags stay exact under every event, except exactly the commit of an overtaken promotion. */
  lemma StepTags(s: System, e: Event, cfg: EvalGate.GateConfig)
    requires GoodTags(s) && ReadsExact(s)
    ensures GoodTags(Step(s, e, cfg)) <==> !CommitsOvertaken(s, e)
  {
    match e
    case Commits(i) => CommitsTags(s, i);
    case Delete(id) =>
      forall p | p in s.endpoints
        ensures TagsExact(Forget(s.endpoints[p].log, id))
      {
        ForgetTags(s.endpoints[p].log, id);
      }
    case _ =>
      assert Step(s, e, cfg).endpoints == s.endpoints;
  }

  ghost predicate AlwaysTagged(s: System, es: seq<Event>, cfg: EvalGate.GateConfig)
    decreases es
  {
    GoodTags(s) && (es == [] || AlwaysTagged(Step(s, es[0], cfg), es[1..], cfg))
  }

  ghost predicate NeverCommitsOvertaken(s: System, es: seq<Event>, cfg: EvalGate.GateConfig)
    decreases es
  {
    es == [] || (!CommitsOvertaken(s, es[0]) && NeverCommitsOvertaken(Step(s, es[0], cfg), es[1..], cfg))
  }

  /** Over every run the log tells promotions from rollbacks, in every state, exactly when none commits overtaken. */
  lemma {:induction false} LogTellsRollbacks(s: System, es: seq<Event>, cfg: EvalGate.GateConfig)
    requires GoodTags(s) && ReadsExact(s)
    ensures AlwaysTagged(s, es, cfg) <==> NeverCommitsOvertaken(s, es, cfg)
    decreases es
  {
    if es != [] {
      StepTags(s, es[0], cfg);
      StepReads(s, es[0], cfg);
      if !CommitsOvertaken(s, es[0]) {
        LogTellsRollbacks(Step(s, es[0], cfg), es[1..], cfg);
      }
    }
  }

  // ---- a rule for callers --------------------------------------------------------------------------

  /** Requests `i` and `j` both promote the same adapter to the same endpoint. */
  predicate Rivals(s: System, i: nat, j: nat)
    requires i < |s.requests| && j < |s.requests|
  {
    && i != j && s.requests[i].Switch? && s.requests[j].Switch?
    && s.requests[i].project == s.requests[j].project && s.requests[i].adapter == s.requests[j].adapter
  }

  /** A promotion commits while another of the same adapter is pending. */
  ghost predicate CommitsBesideRival(s: System, e: Event) {
    && e.Commits? && TakesEffect(s, e.request)
    && exists j :: 0 <= j < |s.requests| && Rivals(s, e.request, j)
  }

  ghost predicate NoneOvertaken(s: System) {
    forall i :: 0 <= i < |s.requests| && s.requests[i].adapter in s.adapters ==> !Overtaken(s, s.requests[i])
  }

  lemma CommitsOvertakeNone(s: System, i: nat)
    requires NoneOvertaken(s) && ReadsExact(s) && !CommitsBesideRival(s, Commits(i))
    ensures NoneOvertaken(CommitsStep(s, i))
  {
    var t := CommitsStep(s, i);
    if i < |s.requests| {
      forall j | 0 <= j < |t.requests| && t.requests[j].adapter in t.adapters
        ensures !Overtaken(t, t.requests[j])
      {
        var k := if j < i then j else j + 1;
        var q := s.requests[k];
        assert t.requests[j] == q && ReadExactly(s, q) && !Overtaken(s, q);
        if q.Switch? && TakesEffect(s, i) && s.requests[i].Switch? && s.requests[i].project == q.project {
          assert !Rivals(s, i, k);
          var log := s.endpoints[q.project].log;
          var x := AuditEvent(Some(s.requests[i].adapter), s.requests[i].action);
          assert t.endpoints[q.project].log[q.seen..] == log[q.seen..] + [x];
        }
      }
    }
  }

  lemma StepOvertakesNone(s: System, e: Event, cfg: EvalGate.GateConfig)
    requires NoneOvertaken(s) && ReadsExact(s) && !CommitsBesideRival(s, e)
    ensures NoneOvertaken(Step(s, e, cfg))
  {
    var t := Step(s, e, cfg);
    if e.Commits? {
      CommitsOvertakeNone(s, e.request);
    } else {
      assert s.requests <= t.requests && |t.requests| <= |s.requests| + 1;
      forall i | 0 <= i < |t.requests| && t.requests[i].adapter in t.adapters
        ensures !Overtaken(t, t.requests[i])
      {
        if i < |s.requests| {
          NewcomersAreUnnamed(s, e, cfg, i);
          assert ReadExactly(s, s.requests[i]) && !Overtaken(s, s.requests[i]);
          if e.Delete? && t != s && s.requests[i].Switch? {
            var log, seen := s.endpoints[s.requests[i].project].log, s.requests[i].seen;
            assert Forget(log, e.id)[seen..] == Forget(log[seen..], e.id);
            ForgetServed(log[seen..], e.id, s.requests[i].adapter);
          }
        }
      }
    }
  }

  ghost predicate NeverBesideRival(s: System, es: seq<Event>, cfg: EvalGate.GateConfig)
    decreases es
  {
    es == [] || (!CommitsBesideRival(s, es[0]) && NeverBesideRival(Step(s, es[0], cfg), es[1..], cfg))
  }

  /** Promotions of one adapter taken one at a time are always tagged rightly. */
  lemma {:induction false} OneAtATimeIsTagged(s: System, es: seq<Event>, cfg: EvalGate.GateConfig)
    requires GoodTags(s) && ReadsExact(s) && NoneOvertaken(s) && NeverBesideRival(s, es, cfg)
    ensures AlwaysTagged(s, es, cfg)
    decreases es
  {
    if es != [] {
      StepTags(s, es[0], cfg);
      StepReads(s, es[0], cfg);
      StepOvertakesNone(s, es[0], cfg);
      OneAtATimeIsTagged(Step(s, es[0], cfg), es[1..], cfg);
    }
  }

  /** A promote that nothing interrupts is never overtaken. */
  lemma UninterruptedPromoteIsTagged(s: System, p: Project, id: Id, cfg: EvalGate.GateConfig)
    requires GoodTags(s) && s.requests == [] && CanPromote(s, p, id)
    ensures var t := Step(Step(s, PromoteReads(p, id), cfg), Commits(0), cfg);
      && GoodTags(t) && t.endpoints[p].adapter == Some(id) && t.requests == []
      && t.endpoints[p].log[|t.endpoints[p].log| - 1].action.Rollback? == Served(s.endpoints[p].log, id)
  {
    var r := Step(s, PromoteReads(p, id), cfg);
    StepTags(s, PromoteReads(p, id), cfg);
    StepReads(s, PromoteReads(p, id), cfg);
    assert r.requests == [PromoteRequest(s, p, id)] && r.endpoints == s.endpoints;
    assert !Overtaken(r, r.requests[0]);
    StepTags(r, Commits(0), cfg);
  }

  // ---- the exceptions are real -------------------------------------------------------------------

  /** From every state with two pending promotions of the same adapter, committing both mistags the second. */
  lemma CommittingBothMistags(s: System, i: nat, j: nat, cfg: EvalGate.GateConfig)
    requires i < j < |s.requests| && Rivals(s, i, j) && TakesEffect(s, i)
    requires s.requests[i].action.Promote? && s.requests[j].action.Promote?
    ensures !GoodTags(Step(Step(s, Commits(j), cfg), Commits(i), cfg))
  {
    var p, id := s.requests[i].project, s.requests[i].adapter;
    var x := AuditEvent(Some(id), Promote);
    var t := Step(s, Commits(j), cfg);
    assert t.requests[i] == s.requests[i];
    var u := Step(t, Commits(i), cfg);
    var log := s.endpoints[p].log;
    assert u.endpoints[p].log == log + [x] + [x];
    MistaggedPair(log, x);
  }

  lemma MistaggedPair(log: seq<AuditEvent>, x: AuditEvent)
    requires x.adapter.Some? && x.action.Promote?
    ensures !TagsExact(log + [x] + [x])
  {
    var l, n := log + [x] + [x], |log|;
    assert l[n + 1] == x && l[..n + 1][n] == x;
    assert Served(l[..n + 1], x.adapter.value);
  }

  /** Two requests for a new adapter whose reads overlap bring such a state about. */
  lemma ConcurrentPromotesMistag(s: System, p: Project, id: Id, cfg: EvalGate.GateConfig)
    requires CanPromote(s, p, id) && !Served(s.endpoints[p].log, id)
    ensures var t := Step(Step(s, PromoteReads(p, id), cfg), PromoteReads(p, id), cfg);
      !GoodTags(Step(Step(t, Commits(|s.requests| + 1), cfg), Commits(|s.requests|), cfg))
  {
    var n, r := |s.requests|, PromoteRequest(s, p, id);
    var t := Step(Step(s, PromoteReads(p, id), cfg), PromoteReads(p, id), cfg);
    assert t.requests == s.requests + [r] + [r];
    assert t.requests[n] == r && t.requests[n + 1] == r;
    CommittingBothMistags(t, n, n + 1, cfg);
  }

  /** The sweep reads a running job's row, the job passes and is bound, the sweep writes `failed`. */
  lemma SweepFailsBoundAdapter(s: System, p: Project, cfg: EvalGate.GateConfig, x: real, y: real)
    requires s.requests == [] && p !in s.endpoints && EvalGate.Passes(x, y, cfg)
    requires s.work.Converted? && s.work.id in s.adapters && s.adapters[s.work.id].project == p
    requires s.adapters[s.work.id].status.Processing?
    requires forall id :: id in s.adapters && s.adapters[id].project == p ==>
      s.adapters[id].created <= s.adapters[s.work.id].created
    ensures var id := s.work.id;
      var scored := Step(Step(s, SweepReads, cfg), Score(x, y), cfg);
      var bound := Step(Step(scored, CreateReads(p, id), cfg), Commits(0), cfg);
      var t := Step(bound, SweepCommits, cfg);
      && SweepsBound(bound, SweepCommits)
      && p in t.endpoints && t.endpoints[p].adapter == Some(id)
      && id in t.adapters && t.adapters[id].status.Failed?
  {
    var id := s.work.id;
    var t1 := Step(s, SweepReads, cfg);
    assert id in t1.sweeping;
    var t2 := Step(t1, Score(x, y), cfg);
    assert IsLatestPassed(t2, p, id);
    var t3 := Step(t2, CreateReads(p, id), cfg);
    assert t3.requests == [Create(p, id)];
    var t4 := Step(t3, Commits(0), cfg);
    assert t4.endpoints[p].adapter == Some(id);
  }

  /** Such a state is reachable: one upload whose job has converted it and is about to score it. */
  lemma JobAboutToScoreIsReachable(p: Project, cfg: EvalGate.GateConfig)
    ensures var begun := Step(Step(EMPTY, Upload(0, p, Gguf, true), cfg), Begin(0), cfg);
      var s := Step(Step(begun, Check(Some(EvalGate.Classify)), cfg), Convert(0), cfg);
      && s.requests == [] && p !in s.endpoints && s.work == Converted(0, EvalGate.Classify)
      && s.adapters == map[0 := Adapter(p, Gguf, Some(0), 0, Processing, None)]
  {
    var s1 := Step(EMPTY, Upload(0, p, Gguf, true), cfg);
    assert s1.adapters == map[0 := Adapter(p, Gguf, Some(0), 0, Uploaded, None)];
    var s2 := Step(s1, Begin(0), cfg);
    assert s2.adapters == map[0 := Adapter(p, Gguf, Some(0), 0, Processing, None)];
  }
}
