/**
The Redis job queue, the worker around it and the startup sweep (adapta/services/jobs.py,
adapta/worker/main.py, adapta/services/maintenance.py).

`Redis` is the queue list and the metadata records; `JobQueue` is the object whose methods change
them, and `WorkerLoop` drives it. `Step` interleaves producers, the single worker, graceful
shutdowns and sweeps, whose look at a record and write to it are two events.
*/
module Jobs {
  import opened Prelude
  import Indexing

  type Id = nat

  datatype JobStatus = Queued | Started | Succeeded | Failed | Cancelled

  predicate Terminal(s: JobStatus) {
    s.Succeeded? || s.Failed? || s.Cancelled?
  }

  datatype Redis = Redis(queue: seq<Id>, records: map<Id, JobStatus>)

  function Updated(r: Redis, id: Id, status: JobStatus): Redis {
    r.(records := r.records[id := status])
  }

  /** What the next `dequeue` hands out: the head, unless its record is gone. */
  function Next(r: Redis): Option<Id> {
    if r.queue != [] && r.queue[0] in r.records then Some(r.queue[0]) else None
  }

  /** The two agree on every job but `id`. */
  ghost predicate SameBut(m: map<Id, JobStatus>, m': map<Id, JobStatus>, id: Id) {
    forall k :: k != id ==> (k in m <==> k in m') && (k in m ==> m[k] == m'[k])
  }

  class JobQueue {
    var queue: seq<Id>
    var records: map<Id, JobStatus>

    ghost function View(): Redis
      reads this
    {
      Redis(queue, records)
    }

    constructor ()
      ensures View() == Redis([], map[])
    {
      queue, records := [], map[];
    }

    /** The job waits behind all that wait already, as queued; no other job notices. */
    method Enqueue(id: Id)
      modifies this
      ensures old(queue) <= queue && |queue| == |old(queue)| + 1 && queue[|queue| - 1] == id
      ensures id in records && records[id] == Queued && SameBut(old(records), records, id)
      ensures old(queue) == [] ==> Next(View()) == Some(id)
      ensures old(Next(View())).Some? ==> Next(View()) == old(Next(View()))
    {
      records := records[id := Queued];
      queue := queue + [id];
    }

    /** Pops the head; a job whose record is gone is dropped and reported like an empty queue. */
    method Dequeue() returns (r: Option<Id>)
      modifies this`queue
      ensures r == old(Next(View()))
      ensures old(queue) == [] ==> queue == []
      ensures old(queue) != [] ==> old(queue) == [old(queue)[0]] + queue
    {
      if queue == [] {
        return None;
      }
      var id := queue[0];
      queue := queue[1..];
      r := if id in records then Some(id) else None;
    }

    /** The job reads as told; nobody's place in the line and no other record changes. */
    method UpdateStatus(id: Id, status: JobStatus)
      modifies this`records
      ensures id in records && records[id] == status && SameBut(old(records), records, id)
    {
      records := records[id := status];
    }

    /** For graceful shutdown: the job is the one the next `dequeue` hands out, and the line behind it is as it was. */
    method Requeue(id: Id)
      modifies this
      ensures Next(View()) == Some(id) && queue[1..] == old(queue)
      ensures records[id] == Queued && SameBut(old(records), records, id)
    {
      UpdateStatus(id, Queued);
      queue := [id] + queue;
    }
  }

  // ---- the worker and everything around it -------------------------------------------------

  /**
  `done` once the handler has recorded success. `Returning`: shutdown cancelled the job; its record
  says queued, the push is still to come.
  */
  datatype Worker = Waiting | Busy(id: Id, done: bool) | Returning(id: Id) | Stopped

  /** `sweeping`: jobs a sweep has looked at and found orphaned, and whose records it is about to fail. */
  datatype System = System(redis: Redis, worker: Worker, submitted: set<Id>, expired: set<Id>, sweeping: set<Id>)

  datatype Event =
    | Submit(id: Id)
    | Take
    | Mark(status: JobStatus)
    | Finish
    | HandlerRaises
    | Shutdown
    | PushBack
    | Restart
    | SweepReads(id: Id)
    | SweepWrites(id: Id)
    | Expire(id: Id)

  const EMPTY := System(Redis([], map[]), Waiting, {}, {}, {})

  function SubmitStep(s: System, id: Id): System {
    if id in s.submitted then s
    else s.(redis := Redis(s.redis.queue + [id], s.redis.records[id := Queued]), submitted := s.submitted + {id})
  }

  function TakeStep(s: System): System {
    if !s.worker.Waiting? || s.redis.queue == [] then s else
    var next := Next(s.redis);
    s.(redis := s.redis.(queue := s.redis.queue[1..]),
       worker := if next.Some? then Busy(next.value, false) else Waiting)
  }

  /** A handler's own status updates: `running`, then `succeeded` as its last word. */
  function MarkStep(s: System, status: JobStatus): System {
    if s.worker.Busy? && !s.worker.done && (status.Started? || status.Succeeded?)
    then s.(redis := Updated(s.redis, s.worker.id, status), worker := s.worker.(done := status.Succeeded?))
    else s
  }

  function ShutdownStep(s: System): System {
    match s.worker
    case Busy(id, _) => s.(redis := Updated(s.redis, id, Queued), worker := Returning(id))
    case Waiting => s.(worker := Stopped)
    case _ => s
  }

  function PushBackStep(s: System): System {
    if s.worker.Returning?
    then s.(redis := s.redis.(queue := [s.worker.id] + s.redis.queue), worker := Stopped)
    else s
  }

  predicate ReadsQueued(r: Redis, id: Id) {
    id in r.records && r.records[id] == Queued
  }

  /** A sweep passes over a queued job; any other may look orphaned to it. */
  function SweepReadsStep(s: System, id: Id): System {
    if ReadsQueued(s.redis, id) then s else s.(sweeping := s.sweeping + {id})
  }

  function SweepWritesStep(s: System, id: Id): System {
    if id in s.sweeping then s.(redis := Updated(s.redis, id, Failed), sweeping := s.sweeping - {id}) else s
  }

  /** The seven-day TTL of a terminal record. */
  function ExpireStep(s: System, id: Id): System {
    if id in s.redis.records && Terminal(s.redis.records[id])
    then s.(redis := s.redis.(records := s.redis.records - {id}), expired := s.expired + {id})
    else s
  }

  function Step(s: System, e: Event): System {
    match e
    case Submit(id) => SubmitStep(s, id)
    case Take => TakeStep(s)
    case Mark(status) => MarkStep(s, status)
    case Finish => if s.worker.Busy? && s.worker.done then s.(worker := Waiting) else s
    case HandlerRaises =>
      if s.worker.Busy? then s.(redis := Updated(s.redis, s.worker.id, Failed), worker := Waiting) else s
    case Shutdown => ShutdownStep(s)
    case PushBack => PushBackStep(s)
    case Restart => if s.worker.Stopped? then s.(worker := Waiting) else s
    case SweepReads(id) => SweepReadsStep(s, id)
    case SweepWrites(id) => SweepWritesStep(s, id)
    case Expire(id) => ExpireStep(s, id)
  }

  function Run(s: System, es: seq<Event>): System
    decreases es
  {
    if es == [] then s else Run(Step(s, es[0]), es[1..])
  }

  // ---- no job is lost ----------------------------------------------------------------------

  predicate Holding(w: Worker, id: Id) {
    (w.Busy? || w.Returning?) && w.id == id
  }

  /** The job reached a terminal record, which may have expired since. */
  ghost predicate Settled(s: System, id: Id) {
    if id in s.redis.records then Terminal(s.redis.records[id]) else id in s.expired
  }

  /** A submitted job is in exactly one place: the queue, the worker's hands, or settled. */
  ghost predicate Accounted(s: System, id: Id) {
    || (id in s.redis.queue && !Holding(s.worker, id))
    || (id !in s.redis.queue && Holding(s.worker, id))
    || (id !in s.redis.queue && !Holding(s.worker, id) && Settled(s, id))
  }

  ghost predicate Consistent(s: System) {
    && Distinct(s.redis.queue)
    && (forall id :: id in s.redis.queue ==> id in s.submitted)
    && (s.worker.Busy? || s.worker.Returning? ==> s.worker.id in s.submitted)
    && (s.worker.Busy? && s.worker.done ==> Settled(s, s.worker.id))
    && (forall id :: id in s.submitted ==> Accounted(s, id) && (id in s.redis.records || id in s.expired))
  }

  lemma EmptyIsConsistent()
    ensures Consistent(EMPTY) && QueuedRecords(EMPTY)
  {
  }

  lemma TakeKeeps(s: System)
    requires Consistent(s)
    ensures Consistent(TakeStep(s))
  {
    if s.worker.Waiting? && s.redis.queue != [] {
      var q := s.redis.queue;
      assert q == [q[0]] + q[1..];
      assert forall id :: id in q[1..] ==> id in q;
      assert forall id :: id in q && id != q[0] ==> id in q[1..];
    }
  }

  lemma SubmitKeeps(s: System, id: Id)
    requires Consistent(s)
    ensures Consistent(SubmitStep(s, id))
  {
    ElementsAppend(s.redis.queue, id);
    assert forall i :: i in s.redis.queue + [id] <==> i in s.redis.queue || i == id;
  }

  lemma PushBackKeeps(s: System)
    requires Consistent(s)
    ensures Consistent(PushBackStep(s))
  {
    if s.worker.Returning? {
      var q := [s.worker.id] + s.redis.queue;
      assert Accounted(s, s.worker.id);
      assert q[1..] == s.redis.queue;
      assert forall i :: i in q <==> i in s.redis.queue || i == s.worker.id;
    }
  }

  /** Every event keeps the books, a sweep that writes over a requeued job included. */
  lemma StepKeeps(s: System, e: Event)
    requires Consistent(s)
    ensures Consistent(Step(s, e))
  {
    match e
    case Submit(id) => SubmitKeeps(s, id);
    case Take => TakeKeeps(s);
    case PushBack => PushBackKeeps(s);
    case _ =>
  }

  /**
  Without hard crashes and Redis failures, after any run every submitted job is in exactly one
  place: queued once, in flight, or recorded terminal.
  */
  lemma {:induction false} NoJobIsLost(s: System, es: seq<Event>)
    requires Consistent(s)
    ensures Consistent(Run(s, es))
    ensures s.submitted <= Run(s, es).submitted
    ensures forall id :: id in Run(s, es).submitted ==> Accounted(Run(s, es), id)
    decreases es
  {
    if es != [] {
      StepKeeps(s, es[0]);
      NoJobIsLost(Step(s, es[0]), es[1..]);
    }
  }

  /** A graceful shutdown returns the job in flight to the head, and the next worker takes it first. */
  lemma ShutdownReturnsJobToHead(s: System)
    requires s.worker.Busy?
    ensures var id := s.worker.id; var stopped := Step(Step(s, Shutdown), PushBack);
      && stopped.worker.Stopped? && stopped.redis.queue == [id] + s.redis.queue
      && Step(Step(stopped, Restart), Take) == s.(redis := Updated(s.redis, id, Queued), worker := Busy(id, false))
  {
    var stopped := Step(Step(s, Shutdown), PushBack);
    assert stopped.redis.queue[1..] == s.redis.queue;
  }

  /** An idle worker stops without touching Redis, and a restarted one waits for jobs. */
  lemma IdleShutdown(s: System)
    requires s.worker.Waiting?
    ensures Step(s, Shutdown) == s.(worker := Stopped) && Step(Step(s, Shutdown), Restart) == s
  {
  }

  // ---- waiting jobs read as queued ---------------------------------------------------------

  ghost predicate QueuedRecords(s: System) {
    forall id :: id in s.redis.queue ==> ReadsQueued(s.redis, id)
  }

  /** A sweep fails the record of a job that has joined the queue since its look, or such a job is pushed back. */
  predicate Misrecords(s: System, e: Event) {
    || (e.SweepWrites? && e.id in s.sweeping && e.id in s.redis.queue)
    || (e.PushBack? && s.worker.Returning? && !ReadsQueued(s.redis, s.worker.id))
  }

  lemma StepQueuedRecords(s: System, e: Event)
    requires Consistent(s) && QueuedRecords(s)
    ensures QueuedRecords(Step(s, e)) <==> !Misrecords(s, e)
  {
    var t := Step(s, e);
    if s.worker.Busy? || s.worker.Returning? {
      assert Accounted(s, s.worker.id);
    }
    match e
    case Take =>
      if s.redis.queue != [] {
        assert forall id :: id in s.redis.queue[1..] ==> id in s.redis.queue;
      }
    case PushBack =>
      if s.worker.Returning? {
        assert s.worker.id in t.redis.queue;
        assert forall id :: id in t.redis.queue <==> id in s.redis.queue || id == s.worker.id;
      }
    case SweepWrites(id) =>
      if Misrecords(s, e) {
        assert id in t.redis.queue;
      }
    case Submit(id) =>
      assert forall i :: i in s.redis.queue + [id] <==> i in s.redis.queue || i == id;
    case _ =>
  }

  ghost predicate AlwaysQueuedRecords(s: System, es: seq<Event>)
    decreases es
  {
    QueuedRecords(s) && (es == [] || AlwaysQueuedRecords(Step(s, es[0]), es[1..]))
  }

  ghost predicate NeverMisrecords(s: System, es: seq<Event>)
    decreases es
  {
    es == [] || (!Misrecords(s, es[0]) && NeverMisrecords(Step(s, es[0]), es[1..]))
  }

  /** Over every run waiting jobs read as queued, in every state, exactly when no event misrecords one. */
  lemma {:induction false} QueuedRecordsExactly(s: System, es: seq<Event>)
    requires Consistent(s) && QueuedRecords(s)
    ensures AlwaysQueuedRecords(s, es) <==> NeverMisrecords(s, es)
    decreases es
  {
    if es != [] {
      StepQueuedRecords(s, es[0]);
      StepKeeps(s, es[0]);
      if !Misrecords(s, es[0]) {
        QueuedRecordsExactly(Step(s, es[0]), es[1..]);
      }
    }
  }

  /** The same, with a job on its way back to the queue counted as waiting. */
  ghost predicate ReadyRecords(s: System) {
    QueuedRecords(s) && (s.worker.Returning? ==> ReadsQueued(s.redis, s.worker.id))
  }

  /** The root cause: a sweep fails the record of a job that waits, or is on its way back, since its look. */
  predicate SweepsWaiting(s: System, e: Event) {
    && e.SweepWrites? && e.id in s.sweeping
    && (e.id in s.redis.queue || s.worker == Returning(e.id))
  }

  lemma StepReadyRecords(s: System, e: Event)
    requires Consistent(s) && ReadyRecords(s)
    ensures ReadyRecords(Step(s, e)) <==> !SweepsWaiting(s, e)
  {
    StepQueuedRecords(s, e);
  }

  ghost predicate AlwaysReady(s: System, es: seq<Event>)
    decreases es
  {
    ReadyRecords(s) && (es == [] || AlwaysReady(Step(s, es[0]), es[1..]))
  }

  ghost predicate NeverSweepsWaiting(s: System, es: seq<Event>)
    decreases es
  {
    es == [] || (!SweepsWaiting(s, es[0]) && NeverSweepsWaiting(Step(s, es[0]), es[1..]))
  }

  /** Over every run waiting and returning jobs read as queued throughout exactly when no sweep fails one. */
  lemma {:induction false} OnlySweepsMisrecord(s: System, es: seq<Event>)
    requires Consistent(s) && ReadyRecords(s)
    ensures AlwaysReady(s, es) <==> NeverSweepsWaiting(s, es)
    ensures NeverSweepsWaiting(s, es) ==> AlwaysQueuedRecords(s, es)
    decreases es
  {
    if es != [] {
      StepReadyRecords(s, es[0]);
      StepKeeps(s, es[0]);
      if !SweepsWaiting(s, es[0]) {
        OnlySweepsMisrecord(Step(s, es[0]), es[1..]);
      }
    }
  }

  /** The head of such a queue is handed out and never dropped for want of a record. */
  lemma TakenJobHasRecord(s: System)
    requires QueuedRecords(s) && s.worker.Waiting? && s.redis.queue != []
    ensures Step(s, Take).worker == Busy(s.redis.queue[0], false)
  {
    assert s.redis.queue[0] in s.redis.queue;
  }

  /**
  The exception is real wherever a sweep has looked at a running job: a shutdown requeues the job,
  the sweep fails its record, and once that has expired the job is dropped unseen.
  */
  lemma SweptJobIsDropped(s: System)
    requires Consistent(s) && s.worker.Busy? && s.worker.id in s.sweeping
    ensures var id := s.worker.id;
      var swept := Step(Step(Step(s, Shutdown), PushBack), SweepWrites(id));
      var taken := Step(Step(Step(swept, Expire(id)), Restart), Take);
      && !QueuedRecords(swept) && id in swept.redis.queue && swept.redis.records[id] == Failed
      && taken.worker.Waiting? && id !in taken.redis.queue
  {
    var id := s.worker.id;
    var back := Step(Step(s, Shutdown), PushBack);
    assert Accounted(s, id) && id !in s.redis.queue;
    assert back.redis.queue == [id] + s.redis.queue && back.redis.queue[0] == id && id in back.sweeping;
    var swept := Step(back, SweepWrites(id));
    assert swept.redis.queue[0] == id && swept.redis.records[id] == Failed && swept.worker.Stopped?;
    assert id in swept.redis.queue && !ReadsQueued(swept.redis, id);
    var ready := Step(Step(swept, Expire(id)), Restart);
    assert ready.redis.queue == back.redis.queue && id !in ready.redis.records && ready.worker.Waiting?;
    assert Step(ready, Take).redis.queue == s.redis.queue;
  }

  /** A sweep that nothing interrupts passes over a queued job and fails the record of any other, and only that. */
  lemma UninterruptedSweep(s: System, id: Id)
    requires id !in s.sweeping
    ensures var t := Step(Step(s, SweepReads(id)), SweepWrites(id));
      if ReadsQueued(s.redis, id) then t == s
      else t == s.(redis := Redis(s.redis.queue, s.redis.records[id := Failed]))
  {
  }

  /** Such a state is four events from the start: a sweep that cannot see the worker looks at its first job. */
  lemma SweptRunningJobIsReachable(id: Id)
    ensures var s := Step(Step(Step(Step(EMPTY, Submit(id)), Take), Mark(Started)), SweepReads(id));
      Consistent(s) && s.worker == Busy(id, false) && id in s.sweeping
  {
    var a := Step(EMPTY, Submit(id));
    assert a.redis.queue == [id];
    EmptyIsConsistent();
    StepKeeps(EMPTY, Submit(id));
    StepKeeps(a, Take);
    var b := Step(a, Take);
    StepKeeps(b, Mark(Started));
    StepKeeps(Step(b, Mark(Started)), SweepReads(id));
  }

  lemma {:induction false} RunSnoc(s: System, es: seq<Event>, e: Event)
    ensures Run(s, es + [e]) == Step(Run(s, es), e)
    decreases es
  {
    if es == [] {
      assert (es + [e])[1..] == [];
    } else {
      assert (es + [e])[1..] == es[1..] + [e];
      RunSnoc(Step(s, es[0]), es[1..], e);
    }
  }

  // ---- the worker loop -----------------------------------------------------------------------

  /** How a job's handler ends. */
  datatype Fate = Succeeds | Raises | Interrupted

  /** The events of one turn of the loop on a job that ends so. */
  function Turn(fate: Fate): seq<Event> {
    match fate
    case Succeeds => [Take, Mark(Started), Mark(Succeeded), Finish]
    case Raises => [Take, Mark(Started), HandlerRaises]
    case Interrupted => [Take, Mark(Started), Shutdown, PushBack]
  }

  /** Where such a turn leaves the system. */
  function AfterTurn(s: System, fate: Fate): System
    requires s.redis.queue != []
  {
    var id, rest := s.redis.queue[0], s.redis.(queue := s.redis.queue[1..]);
    match fate
    case Succeeds => s.(redis := Updated(rest, id, Succeeded), worker := Waiting)
    case Raises => s.(redis := Updated(rest, id, Failed), worker := Waiting)
    case Interrupted => s.(redis := Updated(s.redis, id, Queued), worker := Stopped)
  }

  lemma TurnRuns(s: System, fate: Fate)
    requires s.worker.Waiting? && Next(s.redis).Some?
    ensures Run(s, Turn(fate)) == AfterTurn(s, fate)
  {
    var q := s.redis.queue;
    assert [q[0]] + q[1..] == q;
    var s2 := Step(Step(s, Take), Mark(Started));
    RunSnoc(s, [], Take);
    RunSnoc(s, [Take], Mark(Started));
    var es := [Take, Mark(Started)];
    assert [] + [Take] == [Take] && [Take] + [Mark(Started)] == es;
    match fate
    case Succeeds =>
      RunSnoc(s, es, Mark(Succeeded));
      RunSnoc(s, es + [Mark(Succeeded)], Finish);
      assert es + [Mark(Succeeded)] + [Finish] == Turn(fate);
    case Raises =>
      RunSnoc(s, es, HandlerRaises);
      assert es + [HandlerRaises] == Turn(fate);
    case Interrupted =>
      RunSnoc(s, es, Shutdown);
      RunSnoc(s, es + [Shutdown], PushBack);
      assert es + [Shutdown] + [PushBack] == Turn(fate);
  }

  lemma SameButIsUpdate(m: map<Id, JobStatus>, m': map<Id, JobStatus>, id: Id, status: JobStatus)
    requires SameBut(m, m', id) && id in m' && m'[id] == status
    ensures m' == m[id := status]
  {
  }

  /** One turn of the worker's loop on a waiting job: what the queue object does is what the events say. */
  method ServeOne(q: JobQueue, fate: Fate, ghost s: System) returns (id: Id)
    requires s.redis == q.View() && s.worker.Waiting? && Next(s.redis).Some?
    modifies q
    ensures id == old(q.queue)[0]
    ensures q.View() == Run(s, Turn(fate)).redis
  {
    TurnRuns(s, fate);
    ghost var m := q.records;
    var r := q.Dequeue();
    id := r.value;
    q.UpdateStatus(id, Started);
    SameButIsUpdate(m, q.records, id, Started);
    ghost var m' := q.records;
    match fate {
      case Succeeds =>
        q.UpdateStatus(id, Succeeded);
        SameButIsUpdate(m', q.records, id, Succeeded);
      case Raises =>
        q.UpdateStatus(id, Failed);
        SameButIsUpdate(m', q.records, id, Failed);
      case Interrupted =>
        q.Requeue(id);
        SameButIsUpdate(m', q.records, id, Queued);
        assert q.queue == [id] + q.queue[1..];
    }
  }

  /** A job the loop has dealt with, and how its handler ended. */
  datatype Handled = Handled(id: Id, fate: Fate)

  function Ids(handled: seq<Handled>): (r: seq<Id>)
    ensures |r| == |handled| && forall i :: 0 <= i < |handled| ==> r[i] == handled[i].id
  {
    seq(|handled|, i requires 0 <= i < |handled| => handled[i].id)
  }

  /** Every job dealt with ran to its end, and its record says how. */
  ghost predicate Recorded(records: map<Id, JobStatus>, handled: seq<Handled>) {
    forall h :: h in handled ==>
      && !h.fate.Interrupted? && h.id in records
      && (h.fate.Succeeds? ==> records[h.id] == Succeeded) && (h.fate.Raises? ==> records[h.id] == Failed)
  }

  /** One turn of the loop: jobs that arrived before it, and how the job it takes will end. */
  datatype Poll = Poll(arrivals: seq<Id>, fate: Fate)

  function Submits(ids: seq<Id>): (es: seq<Event>)
    ensures |es| == |ids|
  {
    seq(|ids|, i requires 0 <= i < |ids| => Submit(ids[i]))
  }

  /** The events of one turn; an empty queue means another poll. */
  function PollEvents(s: System, p: Poll): seq<Event> {
    Submits(p.arrivals) + (if Run(s, Submits(p.arrivals)).redis.queue == [] then [] else Turn(p.fate))
  }

  /** The system after the polls, up to the one that is interrupted. */
  function AfterPolls(s: System, polls: seq<Poll>): System
    decreases polls
  {
    if polls == [] || s.worker.Stopped? then s else AfterPolls(Run(s, PollEvents(s, polls[0])), polls[1..])
  }

  /** Job ids are never used twice. */
  ghost predicate FreshIds(submitted: set<Id>, ids: seq<Id>) {
    Distinct(ids) && forall id :: id in ids ==> id !in submitted
  }

  function Arrivals(polls: seq<Poll>): seq<Id> {
    if polls == [] then [] else polls[0].arrivals + Arrivals(polls[1..])
  }

  lemma ArrivalKeeps(s: System, id: Id, rest: seq<Id>, handled: seq<Handled>)
    requires Consistent(s) && QueuedRecords(s) && FreshIds(s.submitted, [id] + rest) && HandledBy(s, handled)
    ensures var t := Step(s, Submit(id));
      && Consistent(t) && QueuedRecords(t) && FreshIds(t.submitted, rest) && HandledBy(t, handled)
      && t.worker == s.worker && t.redis.queue == s.redis.queue + [id]
  {
    var ids := [id] + rest;
    assert ids[0] == id && ids[1..] == rest && id in ids;
    assert forall x :: x in rest ==> x in ids;
    StepKeeps(s, Submit(id));
    StepQueuedRecords(s, Submit(id));
  }

  /** The jobs dealt with were submitted, and their records say how they ended. */
  ghost predicate HandledBy(s: System, handled: seq<Handled>) {
    Recorded(s.redis.records, handled) && forall h :: h in handled ==> h.id in s.submitted
  }

  lemma SubmitsSnoc(ids: seq<Id>, i: nat)
    requires i < |ids|
    ensures Submits(ids[..i + 1]) == Submits(ids[..i]) + [Submit(ids[i])]
  {
  }

  /** The books are in order, the jobs dealt with recorded, and `later` may still be submitted. */
  ghost predicate InOrder(t: System, r: Redis, handled: seq<Handled>, later: seq<Id>) {
    t.redis == r && Consistent(t) && QueuedRecords(t) && HandledBy(t, handled) && FreshIds(t.submitted, later)
  }

  /** A producer enqueues one job: what `enqueue` does to Redis is what `Submit` says. */
  method ArriveOne(q: JobQueue, id: Id, ghost later: seq<Id>, ghost t: System, ghost handled: seq<Handled>)
    requires InOrder(t, q.View(), handled, [id] + later)
    modifies q
    ensures InOrder(Step(t, Submit(id)), q.View(), handled, later)
    ensures Step(t, Submit(id)).worker == t.worker && q.queue == old(q.queue) + [id]
  {
    ArrivalKeeps(t, id, later, handled);
    assert ([id] + later)[0] == id;
    ghost var was := q.View();
    q.Enqueue(id);
    EnqueueIsSubmit(t, was, q.View(), id);
  }

  method Arrive(q: JobQueue, ids: seq<Id>, ghost later: seq<Id>, ghost s: System, ghost handled: seq<Handled>)
    requires InOrder(s, q.View(), handled, ids + later)
    modifies q
    ensures InOrder(Run(s, Submits(ids)), q.View(), handled, later)
    ensures Run(s, Submits(ids)).worker == s.worker && q.queue == old(q.queue) + ids
  {
    assert ids[0..] == ids && ids[..0] == [] && Submits(ids[..0]) == [];
    for i := 0 to |ids|
      invariant InOrder(Run(s, Submits(ids[..i])), q.View(), handled, ids[i..] + later)
      invariant Run(s, Submits(ids[..i])).worker == s.worker && q.queue == old(q.queue) + ids[..i]
    {
      assert ids[i..] + later == [ids[i]] + (ids[i + 1..] + later);
      SubmitsSnoc(ids, i);
      RunSnoc(s, Submits(ids[..i]), Submit(ids[i]));
      ArriveOne(q, ids[i], ids[i + 1..] + later, Run(s, Submits(ids[..i])), handled);
      assert ids[..i + 1] == ids[..i] + [ids[i]];
    }
    assert ids[..|ids|] == ids && ids[|ids|..] + later == later;
  }

  /** What `Enqueue` promises its caller determines the queue and the records. */
  lemma EnqueueIsSubmit(s: System, was: Redis, now: Redis, id: Id)
    requires s.redis == was && id !in s.submitted
    requires was.queue <= now.queue && |now.queue| == |was.queue| + 1 && now.queue[|now.queue| - 1] == id
    requires id in now.records && now.records[id] == Queued && SameBut(was.records, now.records, id)
    ensures Step(s, Submit(id)).redis == now
  {
    assert now.queue == was.queue + [id];
    SameButIsUpdate(was.records, now.records, id, Queued);
  }

  /** What a turn leaves: the books in order, the rest of the queue waiting, the jobs dealt with recorded. */
  lemma TurnKeeps(s: System, fate: Fate, handled: seq<Handled>)
    requires Consistent(s) && QueuedRecords(s) && s.worker.Waiting? && s.redis.queue != [] && HandledBy(s, handled)
    ensures Next(s.redis) == Some(s.redis.queue[0])
    ensures Run(s, Turn(fate)) == AfterTurn(s, fate)
    ensures Consistent(AfterTurn(s, fate)) && QueuedRecords(AfterTurn(s, fate))
    ensures HandledBy(AfterTurn(s, fate), handled)
    ensures !fate.Interrupted? ==> HandledBy(AfterTurn(s, fate), handled + [Handled(s.redis.queue[0], fate)])
  {
    var q := s.redis.queue;
    assert q[0] in q && q[0] !in q[1..];
    assert ReadsQueued(s.redis, q[0]);
    assert forall h :: h in handled ==> h.id != q[0];
    assert forall id :: id in q[1..] ==> id in q;
    TurnRuns(s, fate);
    NoJobIsLost(s, Turn(fate));
  }

  lemma OneMoreHandled(handled: seq<Handled>, h: Handled, rest: seq<Id>)
    ensures Ids(handled + [h]) + rest == Ids(handled) + ([h.id] + rest)
  {
    assert Ids(handled + [h]) == Ids(handled) + [h.id];
  }

  /** Where the loop stands: `all` are the jobs it found and those that arrived. */
  ghost predicate InLoop(t: System, r: Redis, handled: seq<Handled>, all: seq<Id>, stopped: bool) {
    && t.redis == r && t.worker == (if stopped then Stopped else Waiting) && Consistent(t) && QueuedRecords(t)
    && Ids(handled) + r.queue == all && HandledBy(t, handled)
  }

  /** One turn of the loop on a job that waits, with what it has handled so far. */
  method TakeTurn(q: JobQueue, fate: Fate, handled: seq<Handled>, ghost all: seq<Id>, ghost t: System)
    returns (handled': seq<Handled>)
    requires InLoop(t, q.View(), handled, all, false) && q.queue != []
    modifies q
    ensures InLoop(Run(t, Turn(fate)), q.View(), handled', all, fate.Interrupted?)
    ensures Run(t, Turn(fate)).submitted == t.submitted
    ensures handled' == if fate.Interrupted? then handled else handled + [Handled(old(q.queue)[0], fate)]
    ensures fate.Interrupted? ==> q.queue == old(q.queue)
  {
    TurnKeeps(t, fate, handled);
    ghost var was := q.queue;
    var id := ServeOne(q, fate, t);
    handled' := handled;
    if !fate.Interrupted? {
      OneMoreHandled(handled, Handled(id, fate), q.queue);
      assert was == [id] + q.queue;
      handled' := handled + [Handled(id, fate)];
    }
  }

  /** One poll: the arrivals join the line, and the head, if there is one, has its turn. */
  method ServePoll(q: JobQueue, p: Poll, handled: seq<Handled>, ghost all: seq<Id>, ghost later: seq<Id>,
      ghost t: System)
    returns (handled': seq<Handled>, stopped: bool)
    requires InLoop(t, q.View(), handled, all, false) && FreshIds(t.submitted, p.arrivals + later)
    modifies q
    ensures InLoop(Run(t, PollEvents(t, p)), q.View(), handled', all + p.arrivals, stopped)
    ensures FreshIds(Run(t, PollEvents(t, p)).submitted, later)
    ensures handled <= handled' && |handled'| <= |handled| + 1
    ensures stopped <==> p.fate.Interrupted? && old(q.queue) + p.arrivals != []
    ensures stopped ==> handled' == handled
  {
    Arrive(q, p.arrivals, later, t, handled);
    ghost var u := Run(t, Submits(p.arrivals));
    assert Ids(handled) + (old(q.queue) + p.arrivals) == all + p.arrivals;
    handled', stopped := handled, false;
    if q.queue != [] {
      RunConcat(t, Submits(p.arrivals), Turn(p.fate));
      handled' := TakeTurn(q, p.fate, handled, all + p.arrivals, u);
      stopped := p.fate.Interrupted?;
    } else {
      assert PollEvents(t, p) == Submits(p.arrivals);
    }
  }

  lemma {:induction false} RunConcat(s: System, a: seq<Event>, b: seq<Event>)
    ensures Run(s, a + b) == Run(Run(s, a), b)
    decreases a
  {
    if a == [] {
      assert a + b == b;
    } else {
      assert (a + b)[1..] == a[1..] + b;
      RunConcat(Step(s, a[0]), a[1..], b);
    }
  }

  lemma {:induction false} ArrivalsSnoc(polls: seq<Poll>, i: nat)
    requires i < |polls|
    ensures Arrivals(polls[..i + 1]) == Arrivals(polls[..i]) + polls[i].arrivals
    decreases i
  {
    if i > 0 {
      ArrivalsSnoc(polls[1..], i - 1);
      assert polls[..i + 1][1..] == polls[1..][..i] && polls[..i][1..] == polls[1..][..i - 1];
    } else {
      assert polls[..1] == [polls[0]] && polls[..1][1..] == [] && polls[..0] == [];
    }
  }

  /** The loop after `n` polls from `s`: `t` is the system, `first` the queue it found. */
  ghost predicate LoopAt(s: System, t: System, r: Redis, polls: seq<Poll>, n: nat, handled: seq<Handled>,
      first: seq<Id>, stopped: bool)
  {
    && n <= |polls| && AfterPolls(t, polls[n..]) == AfterPolls(s, polls)
    && InLoop(t, r, handled, first + Arrivals(polls[..n]), stopped)
    && FreshIds(t.submitted, Arrivals(polls[n..]))
    && (stopped ==> n > 0 && polls[n - 1].fate.Interrupted? && r.queue != [])
  }

  method LoopTurn(q: JobQueue, polls: seq<Poll>, n: nat, handled: seq<Handled>,
      ghost s: System, ghost t: System, ghost first: seq<Id>)
    returns (handled': seq<Handled>, stopped: bool)
    requires n < |polls| && LoopAt(s, t, q.View(), polls, n, handled, first, false)
    modifies q
    ensures LoopAt(s, Run(t, PollEvents(t, polls[n])), q.View(), polls, n + 1, handled', first, stopped)
  {
    ghost var all := first + Arrivals(polls[..n]);
    assert polls[n..][0] == polls[n] && polls[n..][1..] == polls[n + 1..];
    ArrivalsSnoc(polls, n);
    handled', stopped := ServePoll(q, polls[n], handled, all, Arrivals(polls[n + 1..]), t);
    assert all + polls[n].arrivals == first + Arrivals(polls[..n + 1]);
  }

  lemma LoopStarts(s: System, polls: seq<Poll>)
    requires s.worker.Waiting? && Consistent(s) && QueuedRecords(s) && FreshIds(s.submitted, Arrivals(polls))
    ensures LoopAt(s, s, s.redis, polls, 0, [], s.redis.queue, false)
  {
    assert polls[0..] == polls && Arrivals(polls[..0]) == [];
    assert Ids([]) + s.redis.queue == s.redis.queue + Arrivals(polls[..0]);
  }

  lemma LoopEnds(s: System, t: System, r: Redis, polls: seq<Poll>, n: nat, handled: seq<Handled>,
      first: seq<Id>, stopped: bool)
    requires LoopAt(s, t, r, polls, n, handled, first, stopped) && (n == |polls| || stopped)
    ensures t == AfterPolls(s, polls)
  {
  }

  /**
  The worker's loop: `n` polls, jobs arriving between them, until one is interrupted or `polls` end.
  Redis ends as the events of the polls say. Jobs are handled in the order in which they were
  queued or arrived, and each record says how its handler ended; the others wait in order, an
  interrupted one at the head.
  */
  method WorkerLoop(q: JobQueue, polls: seq<Poll>, ghost s: System)
    returns (handled: seq<Handled>, stopped: bool, n: nat)
    requires s.redis == q.View() && s.worker.Waiting? && Consistent(s) && QueuedRecords(s)
    requires FreshIds(s.submitted, Arrivals(polls))
    modifies q
    ensures n <= |polls| && (!stopped ==> n == |polls|)
    ensures q.View() == AfterPolls(s, polls).redis
    ensures AfterPolls(s, polls).worker == if stopped then Stopped else Waiting
    ensures Consistent(AfterPolls(s, polls)) && QueuedRecords(AfterPolls(s, polls))
    ensures Ids(handled) + q.queue == old(q.queue) + Arrivals(polls[..n]) && Recorded(q.records, handled)
    ensures stopped ==> n > 0 && polls[n - 1].fate.Interrupted? && q.queue != []
  {
    handled, stopped, n := [], false, 0;
    ghost var t := s;
    LoopStarts(s, polls);
    while n < |polls| && !stopped
      invariant LoopAt(s, t, q.View(), polls, n, handled, old(q.queue), stopped)
      decreases |polls| - n
    {
      ghost var u := Run(t, PollEvents(t, polls[n]));
      handled, stopped := LoopTurn(q, polls, n, handled, s, t, old(q.queue));
      t, n := u, n + 1;
    }
    LoopEnds(s, t, q.View(), polls, n, handled, old(q.queue), stopped);
  }

  // ---- the startup sweep ---------------------------------------------------------------------

  /** What one check sees of Redis: the records, whether they can be read, and the worker's heartbeat. */
  datatype Look = Look(records: map<Id, JobStatus>, readable: bool, workerAlive: bool)

  /** `_job_is_live`: an unreadable record means nothing is live. */
  predicate Live(look: Look, id: Id, startup: bool) {
    && look.readable
    && id in look.records
    && (look.records[id] == Queued || (look.records[id] == Started && !startup && look.workerAlive))
  }

  ghost predicate Listing(files: map<Id, Indexing.FileStatus>, stuck: seq<Id>) {
    forall id :: id in stuck <==> id in files && Indexing.Open(files[id])
  }

  /** One of the first `n` checks found `id` without a live job. */
  ghost predicate FoundDead(stuck: seq<Id>, looks: seq<Look>, startup: bool, n: nat, id: Id)
    requires n <= |stuck| && n <= |looks|
  {
    exists k :: 0 <= k < n && stuck[k] == id && !Live(looks[k], id, startup)
  }

  /** The records of the swept jobs say failed, and the others are as they were. */
  ghost predicate FailedOnly(was: map<Id, JobStatus>, now: map<Id, JobStatus>, swept: seq<Id>) {
    && (forall id :: id in now <==> id in was || id in swept)
    && (forall id :: id in now ==> now[id] == if id in swept then Failed else was[id])
  }

  /**
  When Redis answers and stands still, the sweep spares exactly the open files whose job is queued,
  or is running while the worker is alive and this is not the worker's own startup; when Redis
  does not answer it spares none.
  */
  lemma SweepSpares(stuck: seq<Id>, looks: seq<Look>, startup: bool, records: map<Id, JobStatus>, alive: bool, id: Id)
    requires |looks| == |stuck| && id in stuck
    ensures (forall k :: 0 <= k < |looks| ==> looks[k] == Look(records, true, alive)) ==>
      (!FoundDead(stuck, looks, startup, |stuck|, id) <==>
        (id in records && (records[id] == Queued || (records[id] == Started && alive && !startup))))
    ensures (forall k :: 0 <= k < |looks| ==> !looks[k].readable) ==> FoundDead(stuck, looks, startup, |stuck|, id)
  {
    var k :| 0 <= k < |stuck| && stuck[k] == id;
    assert !Live(looks[k], id, startup) ==> FoundDead(stuck, looks, startup, |stuck|, id);
  }

  datatype SweepError = RowGone

  lemma FoundOneMore(stuck: seq<Id>, looks: seq<Look>, startup: bool, n: nat, id: Id)
    requires n < |stuck| && n < |looks|
    ensures FoundDead(stuck, looks, startup, n + 1, id) <==>
      FoundDead(stuck, looks, startup, n, id) || (stuck[n] == id && !Live(looks[n], id, startup))
  {
    if FoundDead(stuck, looks, startup, n, id) {
      var k :| 0 <= k < n && stuck[k] == id && !Live(looks[k], id, startup);
      assert stuck[k] == id;
    }
  }

  /**
  Fails every open file without a live job, then makes the records of those jobs say so. `stuck` is
  the rows the query returned; check `k` sees `looks[k]`; the commit finds the rows as `atCommit`
  and raises if one it changes is gone; the record writes find the queue as it is by then.

  Exactly the files found dead are failed, whatever became of them since. If nothing moved during
  a worker-startup sweep, every file it leaves open has a queued record.
  */
  method SweepStuckFiles(q: JobQueue, files: map<Id, Indexing.FileStatus>, stuck: seq<Id>, looks: seq<Look>,
      atCommit: map<Id, Indexing.FileStatus>, startup: bool)
    returns (r: Result<map<Id, Indexing.FileStatus>, SweepError>, swept: seq<Id>)
    requires Listing(files, stuck) && |looks| == |stuck|
    modifies q`records
    ensures forall id :: id in swept <==> FoundDead(stuck, looks, startup, |stuck|, id)
    ensures r.Err? <==> exists id :: id in swept && id !in atCommit
    ensures r.Err? ==> q.records == old(q.records)
    ensures r.Ok? ==> r.value.Keys == atCommit.Keys
    ensures r.Ok? ==> forall id :: id in atCommit ==>
      r.value[id] == if id in swept then Indexing.Failed else atCommit[id]
    ensures r.Ok? ==> FailedOnly(old(q.records), q.records, swept)
    ensures startup && atCommit == files && (forall k :: 0 <= k < |looks| ==> looks[k].records == old(q.records)) ==>
      r.Ok? && forall id :: id in r.value && Indexing.Open(r.value[id]) ==> id in q.records && q.records[id] == Queued
  {
    swept := [];
    for i := 0 to |stuck|
      invariant forall id :: id in swept <==> FoundDead(stuck, looks, startup, i, id)
      invariant forall id :: id in swept ==> id in stuck
      invariant forall k :: 0 <= k < i && stuck[k] !in swept ==> Live(looks[k], stuck[k], startup)
    {
      forall id
        ensures FoundDead(stuck, looks, startup, i + 1, id) <==>
          FoundDead(stuck, looks, startup, i, id) || (stuck[i] == id && !Live(looks[i], id, startup))
      {
        FoundOneMore(stuck, looks, startup, i, id);
      }
      if !Live(looks[i], stuck[i], startup) {
        swept := swept + [stuck[i]];
      }
    }
    if exists id :: id in swept && id !in atCommit {
      return Err(RowGone), swept;
    }
    r := Ok(map id | id in atCommit :: if id in swept then Indexing.Failed else atCommit[id]);
    FailRecords(q, swept);
  }

  method FailRecords(q: JobQueue, swept: seq<Id>)
    modifies q`records
    ensures FailedOnly(old(q.records), q.records, swept)
  {
    for i := 0 to |swept|
      invariant FailedOnly(old(q.records), q.records, swept[..i])
    {
      assert swept[..i + 1] == swept[..i] + [swept[i]];
      q.UpdateStatus(swept[i], Failed);
    }
    assert swept[..|swept|] == swept;
  }
}
