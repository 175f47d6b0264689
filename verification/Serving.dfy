/**
Loads, evictions and inference calls interleaved (adapta/core/inference.py,
adapta/core/backends/llamacpp.py, adapta/core/model_manager.py).

One event is what the event loop runs between two awaits, or a thread returning. `Step` gives the
state after an event; an event that cannot happen changes nothing, so every sequence of events is
a run. A load holds `_load_lock` from `BeginLoad` to `FinishLoad` or `FailLoad`; everything else
may happen in between.
*/
module Serving {
  import opened Prelude
  import opened ModelCache

  /** What `prepare` hands out: an instance and the lock that serializes it. */
  datatype Handle = Handle(model: Instance, lock: Lock)

  datatype Loading = Idle | Loading(key: Key, forced: bool)

  /**
  `Blocking` is `_run_locked`; `abandoned` after the client timed out. `Creating`, `Between` and
  `InToken` are `generate_stream`. `Orphan` is a stream thread still running after a cancel
  reached the `finally` that releases the lock.
  */
  datatype Phase = Waiting(stream: bool) | Blocking(abandoned: bool) | Creating | Between | InToken | Orphan | Done

  datatype Call = Call(handle: Handle, phase: Phase)

  datatype System = System(
    cache: Cache,
    loading: Loading,
    nextInstance: Instance,
    nextLock: Lock,
    handles: set<Handle>,
    calls: seq<Call>,
    owner: map<Lock, nat>)

  datatype Event =
    | Prepare(key: Key)
    | BeginLoad(key: Key, forced: bool)
    | FinishLoad(prepare: bool)
    | FailLoad
    | Evict(key: Key)
    | Open(handle: Handle, stream: bool)
    | Acquire(call: nat)
    | GiveUp(call: nat)
    | ClientTimeout(call: nat)
    | Return(call: nat, more: bool)
    | Pull(call: nat)
    | Close(call: nat)
    | CancelMidCall(call: nat)

  const INITIAL := System(Cache([], map[], map[]), Idle, 0, 0, {}, [], map[])

  /** A thread is inside the instance. */
  predicate InFlight(p: Phase) {
    p.Blocking? || p.Creating? || p.InToken? || p.Orphan?
  }

  predicate Holds(p: Phase) {
    p.Blocking? || p.Creating? || p.Between? || p.InToken?
  }

  // ---- the steps ----------------------------------------------------------------------------

  /** `prepare` after the key is cached: no await separates the instance from its lock. */
  function HandOut(s: System, key: Key): System
    requires key in s.cache.inst
  {
    var c := WithLock(s.cache, key, s.nextLock);
    var next := if key in s.cache.locks then s.nextLock else s.nextLock + 1;
    s.(cache := c, nextLock := next, handles := s.handles + {Handle(c.inst[key], c.locks[key])})
  }

  function PrepareStep(s: System, key: Key): System {
    if key in s.cache.inst then HandOut(s.(cache := Touch(s.cache, key)), key) else s
  }

  function BeginLoadStep(s: System, key: Key, forced: bool, lim: Limits): System {
    if s.loading.Idle? && (forced || key !in s.cache.order) && !TooLarge(key, lim)
    then s.(cache := Room(s.cache, key, lim), loading := Loading(key, forced))
    else s
  }

  function FinishLoadStep(s: System, prepare: bool, lim: Limits): System {
    if s.loading.Loading? then
      var k := s.loading.key;
      var s' := s.(cache := Install(s.cache, k, s.nextInstance, lim.cap), loading := Idle,
                   nextInstance := s.nextInstance + 1);
      if prepare then HandOut(s', k) else s'
    else s
  }

  function SetPhase(s: System, c: nat, p: Phase): System
    requires c < |s.calls|
  {
    s.(calls := s.calls[c := s.calls[c].(phase := p)])
  }

  function Release(s: System, c: nat, p: Phase): System
    requires c < |s.calls|
  {
    SetPhase(s, c, p).(owner := s.owner - {s.calls[c].handle.lock})
  }

  function AcquireStep(s: System, c: nat): System
    requires c < |s.calls|
  {
    var call := s.calls[c];
    if call.phase.Waiting? && call.handle.lock !in s.owner
    then SetPhase(s, c, if call.phase.stream then Creating else Blocking(false))
         .(owner := s.owner[call.handle.lock := c])
    else s
  }

  /** A thread returns; `more` when a stream goes on with another token. */
  function ReturnStep(s: System, c: nat, more: bool): System
    requires c < |s.calls|
  {
    match s.calls[c].phase
    case Blocking(_) => Release(s, c, Done)
    case Creating => if more then SetPhase(s, c, Between) else Release(s, c, Done)
    case InToken => if more then SetPhase(s, c, Between) else Release(s, c, Done)
    case Orphan => SetPhase(s, c, Done)
    case _ => s
  }

  function CallStep(s: System, e: Event): System
    requires IsCallEvent(e)
  {
    if e.call >= |s.calls| then s else
    var c := e.call;
    var p := s.calls[c].phase;
    match e
    case Acquire(_) => AcquireStep(s, c)
    case GiveUp(_) => if p.Waiting? then SetPhase(s, c, Done) else s
    case ClientTimeout(_) => if p == Blocking(false) then SetPhase(s, c, Blocking(true)) else s
    case Return(_, more) => ReturnStep(s, c, more)
    case Pull(_) => if p.Between? then SetPhase(s, c, InToken) else s
    case Close(_) => if p.Between? then Release(s, c, Done) else s
    case CancelMidCall(_) => if p.Creating? || p.InToken? then Release(s, c, Orphan) else s
  }

  function Step(s: System, e: Event, lim: Limits): System {
    match e
    case Prepare(k) => PrepareStep(s, k)
    case BeginLoad(k, forced) => BeginLoadStep(s, k, forced, lim)
    case FinishLoad(prepare) => FinishLoadStep(s, prepare, lim)
    case FailLoad => s.(loading := Idle)
    case Evict(k) => s.(cache := Unload(s.cache, k))
    case Open(h, stream) => if h in s.handles then s.(calls := s.calls + [Call(h, Waiting(stream))]) else s
    case _ => CallStep(s, e)
  }

  function Run(s: System, es: seq<Event>, lim: Limits): System
    decreases es
  {
    if es == [] then s else Run(Step(s, es[0], lim), es[1..], lim)
  }

  // ---- the invariants -------------------------------------------------------------------------

  /** Bookkeeping of names: every instance in use was allocated, and no two keys share one. */
  ghost predicate Named(s: System) {
    && WellFormed(s.cache)
    && (forall k :: k in s.cache.inst ==> s.cache.inst[k] < s.nextInstance)
    && (forall h :: h in s.handles ==> h.model < s.nextInstance)
    && (forall k, k' :: k in s.cache.inst && k' in s.cache.inst && s.cache.inst[k] == s.cache.inst[k'] ==> k == k')
  }

  /** While an instance is cached, every handle on it carries the lock its key still has. */
  ghost predicate CurrentLock(s: System) {
    forall k, h :: k in s.cache.inst && h in s.handles && h.model == s.cache.inst[k] ==>
      k in s.cache.locks && s.cache.locks[k] == h.lock
  }

  /** An instance is only ever handed out with one lock, cached or not. */
  ghost predicate OneLockPerInstance(s: System) {
    forall h, h' :: h in s.handles && h' in s.handles && h.model == h'.model ==> h.lock == h'.lock
  }

  ghost predicate CallsHandled(s: System) {
    forall c :: 0 <= c < |s.calls| ==> s.calls[c].handle in s.handles
  }

  /** The lock discipline: a call that holds its lock is the lock's owner. */
  ghost predicate Owned(s: System) {
    forall c :: 0 <= c < |s.calls| && Holds(s.calls[c].phase) ==>
      s.calls[c].handle.lock in s.owner && s.owner[s.calls[c].handle.lock] == c
  }

  ghost predicate NoOrphans(s: System) {
    forall c :: 0 <= c < |s.calls| ==> !s.calls[c].phase.Orphan?
  }

  ghost predicate Sound(s: System) {
    Named(s) && CurrentLock(s) && OneLockPerInstance(s) && CallsHandled(s)
  }

  /** At most one call is in flight on any one instance. */
  ghost predicate Exclusive(s: System) {
    forall c, d :: 0 <= c < d < |s.calls| && InFlight(s.calls[c].phase) && InFlight(s.calls[d].phase) ==>
      s.calls[c].handle.model != s.calls[d].handle.model
  }

  /** The cap and the budget, and the same with an incoming model counted while it is allocated. */
  ghost predicate Bounded(s: System, lim: Limits) {
    && |s.cache.order| <= lim.cap
    && InBudget(s.cache.order, lim, None, 0)
    && (s.loading.Loading? ==> Reserved(s.cache.order, s.loading, lim))
  }

  ghost predicate Reserved(order: seq<Key>, l: Loading, lim: Limits)
    requires l.Loading?
  {
    && (!l.forced ==> l.key !in order)
    && (l.key !in order ==> |order| + 1 <= lim.cap)
    && InBudget(order, lim, Some(l.key), lim.cost(l.key))
  }

  // ---- lock pairing is kept by every event ----------------------------------------------------

  lemma HandOutSound(s: System, key: Key)
    requires Sound(s) && key in s.cache.inst
    ensures Sound(HandOut(s, key))
  {
  }

  lemma CacheShrinks(s: System, c: Cache)
    requires Sound(s) && WellFormed(c)
    requires SubMap(c.inst, s.cache.inst) && SubMap(c.locks, s.cache.locks)
    requires forall k :: k in c.inst && k in s.cache.locks ==> k in c.locks
    ensures Sound(s.(cache := c))
  {
  }

  /** What installing does to the cache, when room was made for it. */
  lemma InstallFrame(s: System, lim: Limits)
    requires WellFormed(s.cache) && s.loading.Loading? && lim.cap >= 1
    requires s.loading.key !in s.cache.order ==> |s.cache.order| + 1 <= lim.cap
    ensures var t := FinishLoadStep(s, false, lim);
      && t == s.(cache := t.cache, loading := Idle, nextInstance := s.nextInstance + 1)
      && WellFormed(t.cache) && t.cache.locks == s.cache.locks
      && t.cache.inst == s.cache.inst[s.loading.key := s.nextInstance]
  {
    InstallKeeps(s.cache, s.loading.key, s.nextInstance, lim.cap);
  }

  /** A new instance under some key: nobody has a handle on it yet. */
  lemma FreshInstanceSound(s: System, t: System, key: Key)
    requires Sound(s) && WellFormed(t.cache)
    requires t == s.(cache := t.cache, loading := Idle, nextInstance := s.nextInstance + 1)
    requires t.cache.locks == s.cache.locks && t.cache.inst == s.cache.inst[key := s.nextInstance]
    ensures Sound(t)
  {
    assert CurrentLock(t) by {
      assert forall h :: h in t.handles ==> h.model != s.nextInstance;
    }
  }

  lemma FinishSound(s: System, prepare: bool, lim: Limits)
    requires Sound(s) && Bounded(s, lim) && lim.cap >= 1
    ensures Sound(FinishLoadStep(s, prepare, lim))
  {
    if s.loading.Loading? {
      var t := FinishLoadStep(s, false, lim);
      InstallFrame(s, lim);
      FreshInstanceSound(s, t, s.loading.key);
      if prepare {
        HandOutSound(t, s.loading.key);
      }
    }
  }

  predicate IsCallEvent(e: Event) {
    e.Acquire? || e.GiveUp? || e.ClientTimeout? || e.Return? || e.Pull? || e.Close? || e.CancelMidCall?
  }

  /** Call events move phases and lock owners only. */
  lemma CallStepFrame(s: System, e: Event)
    requires IsCallEvent(e)
    ensures var s' := CallStep(s, e);
      && s' == s.(calls := s'.calls, owner := s'.owner)
      && |s'.calls| == |s.calls|
      && (forall c :: 0 <= c < |s.calls| ==> s'.calls[c].handle == s.calls[c].handle)
  {
  }

  lemma SoundFrame(s: System, s': System)
    requires Sound(s)
    requires s'.cache == s.cache && s'.handles == s.handles && s'.nextInstance == s.nextInstance
    requires CallsHandled(s')
    ensures Sound(s')
  {
  }

  lemma PrepareSound(s: System, key: Key)
    requires Sound(s)
    ensures Sound(PrepareStep(s, key))
  {
    if key in s.cache.inst {
      ElementsMember(s.cache.order, key);
      TouchKeeps(s.cache, key);
      var s' := s.(cache := Touch(s.cache, key));
      CacheShrinks(s, s'.cache);
      HandOutSound(s', key);
    }
  }

  lemma BeginLoadSound(s: System, key: Key, forced: bool, lim: Limits)
    requires Sound(s)
    ensures Sound(BeginLoadStep(s, key, forced, lim))
  {
    var n := EvictionPoint(s.cache.order, key, key !in s.cache.order, lim);
    DropOrder(s.cache, n, Some(key));
    DropKeeps(s.cache, n, Some(key));
    var s' := s.(cache := Room(s.cache, key, lim));
    CacheShrinks(s, s'.cache);
    SoundFrame(s', s'.(loading := Loading(key, forced)));
  }

  lemma EvictSound(s: System, key: Key)
    requires Sound(s)
    ensures Sound(s.(cache := Unload(s.cache, key)))
  {
    RemoveElements(s.cache.order, key);
    CacheShrinks(s, Unload(s.cache, key));
  }

  lemma CallSound(s: System, e: Event)
    requires Sound(s) && IsCallEvent(e)
    ensures Sound(CallStep(s, e))
  {
    CallStepFrame(s, e);
    SoundFrame(s, CallStep(s, e));
  }

  lemma OpenSound(s: System, h: Handle, stream: bool)
    requires Sound(s) && h in s.handles
    ensures Sound(s.(calls := s.calls + [Call(h, Waiting(stream))]))
  {
    SoundFrame(s, s.(calls := s.calls + [Call(h, Waiting(stream))]));
  }

  predicate IsCacheEvent(e: Event) {
    e.Prepare? || e.BeginLoad? || e.FinishLoad? || e.Evict?
  }

  lemma CacheEventSound(s: System, e: Event, lim: Limits)
    requires Sound(s) && Bounded(s, lim) && lim.cap >= 1 && IsCacheEvent(e)
    ensures Sound(Step(s, e, lim))
  {
    match e
    case Prepare(k) => PrepareSound(s, k);
    case BeginLoad(k, forced) => BeginLoadSound(s, k, forced, lim);
    case FinishLoad(prepare) => FinishSound(s, prepare, lim);
    case Evict(k) => EvictSound(s, k);
  }

  lemma StepSound(s: System, e: Event, lim: Limits)
    requires Sound(s) && Bounded(s, lim) && lim.cap >= 1
    ensures Sound(Step(s, e, lim))
  {
    if IsCallEvent(e) {
      CallSound(s, e);
    } else if IsCacheEvent(e) {
      CacheEventSound(s, e, lim);
    } else if e.Open? {
      if e.handle in s.handles {
        OpenSound(s, e.handle, e.stream);
      }
    } else {
      SoundFrame(s, s.(loading := Idle));
    }
  }

  // ---- the limits are kept by every event -----------------------------------------------------

  lemma TouchBounded(s: System, key: Key, lim: Limits)
    requires WellFormed(s.cache) && Bounded(s, lim) && key in s.cache.order
    ensures Bounded(s.(cache := Touch(s.cache, key)), lim)
  {
    var order := s.cache.order;
    var r := Remove(order, key);
    RemoveElements(order, key);
    UsedRemove(order, key, lim.cost);
    UsedAppend(r, key, lim.cost, None);
    if s.loading.Loading? {
      UsedAppend(r, key, lim.cost, Some(s.loading.key));
      UsedRemoveExact(order, key, lim.cost, s.loading.key);
      RemoveMembers(order, key, s.loading.key);
    }
  }

  lemma {:induction false} UsedRemoveExact(order: seq<Key>, key: Key, cost: Key -> nat, skip: Key)
    requires key in order
    ensures Used(order, cost, Some(skip))
         == Used(Remove(order, key), cost, Some(skip)) + (if key == skip then 0 else cost(key))
  {
    if order[0] != key {
      UsedRemoveExact(order[1..], key, cost, skip);
      assert Remove(order, key)[1..] == Remove(order[1..], key);
    }
  }

  lemma {:induction false} RemoveMembers(order: seq<Key>, key: Key, k: Key)
    requires key in order
    ensures k in Remove(order, key) + [key] <==> k in order
  {
    assert order == [order[0]] + order[1..];
    if order[0] != key {
      RemoveMembers(order[1..], key, k);
      assert Remove(order, key) + [key] == [order[0]] + (Remove(order[1..], key) + [key]);
    }
  }

  lemma RoomBounded(s: System, key: Key, forced: bool, lim: Limits)
    requires WellFormed(s.cache) && Bounded(s, lim) && lim.cap >= 1
    ensures Bounded(BeginLoadStep(s, key, forced, lim), lim)
  {
    if BeginLoadStep(s, key, forced, lim) != s {
      RoomKeepsLongestSuffix(s.cache, key, lim);
      var r := Room(s.cache, key, lim).order;
      var n := |s.cache.order| - |r|;
      UsedSuffix(s.cache.order, n, lim.cost, None);
      if key !in r && key in s.cache.order {
        assert n > 0 by {
          assert n == 0 ==> r == s.cache.order;
        }
      }
      assert forall k :: k in r ==> k in s.cache.order;
    }
  }

  lemma InstallBounded(s: System, lim: Limits)
    requires WellFormed(s.cache) && Bounded(s, lim) && s.loading.Loading? && lim.cap >= 1
    ensures Bounded(FinishLoadStep(s, false, lim), lim)
  {
    var k := s.loading.key;
    InstallKeeps(s.cache, k, s.nextInstance, lim.cap);
    RemoveElements(s.cache.order, k);
    UsedRemove(s.cache.order, k, lim.cost);
    UsedAppend(Remove(s.cache.order, k), k, lim.cost, None);
  }

  lemma UnloadBounded(s: System, key: Key, lim: Limits)
    requires WellFormed(s.cache) && Bounded(s, lim)
    ensures Bounded(s.(cache := Unload(s.cache, key)), lim)
  {
    RemoveElements(s.cache.order, key);
    UsedRemoveSkip(s.cache.order, key, lim.cost, None);
    if s.loading.Loading? {
      UsedRemoveSkip(s.cache.order, key, lim.cost, Some(s.loading.key));
    }
  }

  /** The limits are about what is cached and what is being loaded. */
  lemma BoundedFrame(s: System, t: System, lim: Limits)
    requires Bounded(s, lim) && t.cache.order == s.cache.order && t.loading == s.loading
    ensures Bounded(t, lim)
  {
  }

  lemma PrepareBounded(s: System, key: Key, lim: Limits)
    requires WellFormed(s.cache) && Bounded(s, lim)
    ensures Bounded(PrepareStep(s, key), lim)
  {
    if key in s.cache.inst {
      ElementsMember(s.cache.order, key);
      TouchBounded(s, key, lim);
      var t := s.(cache := Touch(s.cache, key));
      BoundedFrame(t, HandOut(t, key), lim);
    }
  }

  lemma FinishBounded(s: System, prepare: bool, lim: Limits)
    requires WellFormed(s.cache) && Bounded(s, lim) && lim.cap >= 1
    ensures Bounded(FinishLoadStep(s, prepare, lim), lim)
  {
    if s.loading.Loading? {
      InstallFrame(s, lim);
      InstallBounded(s, lim);
      BoundedFrame(FinishLoadStep(s, false, lim), FinishLoadStep(s, prepare, lim), lim);
    }
  }

  lemma StepBounded(s: System, e: Event, lim: Limits)
    requires WellFormed(s.cache) && Bounded(s, lim) && lim.cap >= 1
    ensures Bounded(Step(s, e, lim), lim)
  {
    if IsCallEvent(e) {
      CallStepFrame(s, e);
      BoundedFrame(s, CallStep(s, e), lim);
    } else {
      match e
      case Prepare(k) => PrepareBounded(s, k, lim);
      case BeginLoad(k, forced) => RoomBounded(s, k, forced, lim);
      case FinishLoad(prepare) => FinishBounded(s, prepare, lim);
      case Evict(k) => UnloadBounded(s, k, lim);
      case Open(h, stream) => BoundedFrame(s, Step(s, e, lim), lim);
      case FailLoad =>
    }
  }

  /**
  In every reachable state the loaded models are within the cap and the budget, and between the
  start and the end of a load the incoming model is already counted: for a load that is not
  forced the cap and the budget hold with it added while it is being allocated.
  */
  lemma {:induction false} CacheNeverExceedsLimits(s: System, es: seq<Event>, lim: Limits)
    requires Sound(s) && Bounded(s, lim) && lim.cap >= 1
    ensures Sound(Run(s, es, lim)) && Bounded(Run(s, es, lim), lim)
    decreases es
  {
    if es != [] {
      StepSound(s, es[0], lim);
      StepBounded(s, es[0], lim);
      CacheNeverExceedsLimits(Step(s, es[0], lim), es[1..], lim);
    }
  }

  lemma InitialState(lim: Limits)
    ensures Sound(INITIAL) && Bounded(INITIAL, lim) && LocksApart(INITIAL)
    ensures Owned(INITIAL) && Held(INITIAL) && NoOrphans(INITIAL) && Exclusive(INITIAL)
  {
  }

  // ---- mutual exclusion -----------------------------------------------------------------------

  /** The call, if it holds its lock in `s`, owns it. */
  ghost predicate OwnsLock(s: System, c: nat)
    requires c < |s.calls|
  {
    Holds(s.calls[c].phase) ==>
      s.calls[c].handle.lock in s.owner && s.owner[s.calls[c].handle.lock] == c
  }

  lemma CallStepOwned(s: System, e: Event, d: nat)
    requires Owned(s) && IsCallEvent(e) && d < |s.calls|
    ensures |CallStep(s, e).calls| == |s.calls| && OwnsLock(CallStep(s, e), d)
  {
    assert OwnsLock(s, d);
    if e.call < |s.calls| {
      assert OwnsLock(s, e.call);
    }
  }

  lemma CallEventOwned(s: System, e: Event)
    requires Owned(s) && IsCallEvent(e)
    ensures Owned(CallStep(s, e))
  {
    var t := CallStep(s, e);
    forall d | 0 <= d < |t.calls|
      ensures |t.calls| == |s.calls| && OwnsLock(t, d)
    {
      CallStepFrame(s, e);
      CallStepOwned(s, e, d);
    }
  }

  lemma OwnedFrame(s: System, t: System)
    requires Owned(s) && t.owner == s.owner && s.calls <= t.calls
    requires forall c :: |s.calls| <= c < |t.calls| ==> t.calls[c].phase.Waiting?
    ensures Owned(t)
  {
  }

  /** Every event keeps the lock discipline, a cancel in mid-call included. */
  lemma StepOwned(s: System, e: Event, lim: Limits)
    requires Owned(s)
    ensures Owned(Step(s, e, lim))
  {
    if IsCallEvent(e) {
      CallEventOwned(s, e);
    } else {
      OtherStepFrame(s, e, lim);
      OwnedFrame(s, Step(s, e, lim));
    }
  }

  /** Other events leave calls and owners alone, but for a new call that waits. */
  lemma OtherStepFrame(s: System, e: Event, lim: Limits)
    requires !IsCallEvent(e)
    ensures var t := Step(s, e, lim);
      && t.owner == s.owner && s.calls <= t.calls
      && (forall c :: |s.calls| <= c < |t.calls| ==> t.calls[c].phase.Waiting?)
  {
  }

  /** The owner of the lock is a call that was given it and holds it. */
  ghost predicate OwnerHolds(s: System, l: Lock)
    requires l in s.owner
  {
    s.owner[l] < |s.calls| && s.calls[s.owner[l]].handle.lock == l && Holds(s.calls[s.owner[l]].phase)
  }

  /** The discipline the other way round. */
  ghost predicate Held(s: System) {
    forall l :: l in s.owner ==> OwnerHolds(s, l)
  }

  lemma CallEventHeld(s: System, e: Event, l: Lock)
    requires Owned(s) && Held(s) && IsCallEvent(e) && l in CallStep(s, e).owner
    ensures OwnerHolds(CallStep(s, e), l)
  {
    if e.call < |s.calls| {
      assert OwnsLock(s, e.call);
    }
    if l in s.owner {
      assert OwnerHolds(s, l);
    }
  }

  lemma HeldFrame(s: System, t: System)
    requires Held(s) && t.owner == s.owner && s.calls <= t.calls
    ensures Held(t)
  {
    forall l | l in t.owner
      ensures OwnerHolds(t, l)
    {
      assert OwnerHolds(s, l);
    }
  }

  /** No lock stays taken behind a call that has ended: owner and holder agree after every event. */
  lemma StepHeld(s: System, e: Event, lim: Limits)
    requires Owned(s) && Held(s)
    ensures Held(Step(s, e, lim))
  {
    if IsCallEvent(e) {
      forall l | l in CallStep(s, e).owner
        ensures OwnerHolds(CallStep(s, e), l)
      {
        CallEventHeld(s, e, l);
      }
    } else {
      OtherStepFrame(s, e, lim);
      HeldFrame(s, Step(s, e, lim));
    }
  }

  /** The event lets the call into its instance: a lock acquired, or the next token pulled. */
  predicate Enters(s: System, e: Event) {
    && (e.Acquire? || e.Pull?) && e.call < |s.calls|
    && (e.Acquire? ==> s.calls[e.call].phase.Waiting? && s.calls[e.call].handle.lock !in s.owner)
    && (e.Pull? ==> s.calls[e.call].phase.Between?)
  }

  /** The event lets a call into an instance in which the thread of a cancelled stream still runs. */
  ghost predicate EntersBesideOrphan(s: System, e: Event) {
    && Enters(s, e)
    && exists d :: 0 <= d < |s.calls| && s.calls[d].phase.Orphan?
         && s.calls[d].handle.model == s.calls[e.call].handle.model
  }

  /** Events that let nobody in keep exclusion: a thread in flight afterwards was so before. */
  lemma QuietStepExclusive(s: System, e: Event, lim: Limits)
    requires Exclusive(s) && !Enters(s, e)
    ensures Exclusive(Step(s, e, lim))
  {
    var s' := Step(s, e, lim);
    if IsCallEvent(e) {
      CallStepFrame(s, e);
    } else {
      OtherStepFrame(s, e, lim);
    }
    forall c | 0 <= c < |s'.calls| && InFlight(s'.calls[c].phase)
      ensures c < |s.calls| && InFlight(s.calls[c].phase) && s'.calls[c].handle == s.calls[c].handle
    {
    }
  }

  /** Beside a call that enters, only an orphan can be in flight on the same instance. */
  lemma OnlyOrphansBeside(s: System, e: Event, d: nat)
    requires OneLockPerInstance(s) && CallsHandled(s) && Owned(s) && Enters(s, e)
    requires d < |s.calls| && d != e.call && InFlight(s.calls[d].phase)
    requires s.calls[d].handle.model == s.calls[e.call].handle.model
    ensures s.calls[d].phase.Orphan?
  {
    assert s.calls[d].handle in s.handles && s.calls[e.call].handle in s.handles;
    assert s.calls[d].handle.lock == s.calls[e.call].handle.lock;
  }

  lemma EnteringStepExclusive(s: System, e: Event, lim: Limits)
    requires OneLockPerInstance(s) && CallsHandled(s) && Owned(s) && Exclusive(s) && Enters(s, e)
    ensures Exclusive(Step(s, e, lim)) <==> !EntersBesideOrphan(s, e)
  {
    var s', c := Step(s, e, lim), e.call;
    assert InFlight(s'.calls[c].phase) && s'.calls[c].handle == s.calls[c].handle;
    assert forall d :: 0 <= d < |s.calls| && d != c ==> s'.calls[d] == s.calls[d];
    if EntersBesideOrphan(s, e) {
      var d :| 0 <= d < |s.calls| && s.calls[d].phase.Orphan? && s.calls[d].handle.model == s.calls[c].handle.model;
      assert InFlight(s'.calls[d].phase) && d != c;
      assert !Exclusive(s');
    } else {
      forall d | 0 <= d < |s.calls| && d != c && InFlight(s.calls[d].phase)
        ensures s.calls[d].handle.model != s.calls[c].handle.model
      {
        if s.calls[d].handle.model == s.calls[c].handle.model {
          OnlyOrphansBeside(s, e, d);
        }
      }
    }
  }

  /** One call per instance survives an event exactly unless the event enters beside an orphan. */
  lemma StepExclusive(s: System, e: Event, lim: Limits)
    requires Sound(s) && Owned(s) && Exclusive(s)
    ensures Exclusive(Step(s, e, lim)) <==> !EntersBesideOrphan(s, e)
  {
    if Enters(s, e) {
      EnteringStepExclusive(s, e, lim);
    } else {
      QuietStepExclusive(s, e, lim);
    }
  }

  ghost predicate AlwaysExclusive(s: System, es: seq<Event>, lim: Limits)
    decreases es
  {
    Exclusive(s) && (es == [] || AlwaysExclusive(Step(s, es[0], lim), es[1..], lim))
  }

  ghost predicate NeverEntersBesideOrphan(s: System, es: seq<Event>, lim: Limits)
    decreases es
  {
    es == [] || (!EntersBesideOrphan(s, es[0]) && NeverEntersBesideOrphan(Step(s, es[0], lim), es[1..], lim))
  }

  /**
  In every interleaving of prepares, loads, forced reloads, evictions, blocking calls (also timed
  out), streams and cancels anywhere, at most one call is in flight on any one instance at all
  times exactly when no call is let into an instance in which a cancelled stream's thread runs.
  */
  lemma {:induction false} OneCallPerInstanceExactly(s: System, es: seq<Event>, lim: Limits)
    requires Sound(s) && Bounded(s, lim) && Owned(s) && Exclusive(s) && lim.cap >= 1
    ensures AlwaysExclusive(s, es, lim) <==> NeverEntersBesideOrphan(s, es, lim)
    decreases es
  {
    if es != [] {
      StepExclusive(s, es[0], lim);
      if !EntersBesideOrphan(s, es[0]) {
        StepSound(s, es[0], lim);
        StepBounded(s, es[0], lim);
        StepOwned(s, es[0], lim);
        OneCallPerInstanceExactly(Step(s, es[0], lim), es[1..], lim);
      }
    }
  }

  /** Only a cancel while the thread is inside the model makes an orphan. */
  predicate CancelsLiveCall(s: System, e: Event) {
    && e.CancelMidCall? && e.call < |s.calls|
    && (s.calls[e.call].phase.Creating? || s.calls[e.call].phase.InToken?)
  }

  lemma StepOrphans(s: System, e: Event, lim: Limits)
    requires NoOrphans(s)
    ensures NoOrphans(Step(s, e, lim)) <==> !CancelsLiveCall(s, e)
  {
    var s' := Step(s, e, lim);
    if CancelsLiveCall(s, e) {
      assert s'.calls[e.call].phase.Orphan?;
    } else if IsCallEvent(e) {
      CallStepFrame(s, e);
      assert forall d :: 0 <= d < |s'.calls| && d != e.call ==> s'.calls[d] == s.calls[d];
    } else {
      OtherStepFrame(s, e, lim);
    }
  }

  /** So exclusion holds in every run in which streams are only stopped between two token calls. */
  lemma {:induction false} AtMostOneCallPerInstance(s: System, es: seq<Event>, lim: Limits)
    requires Sound(s) && Bounded(s, lim) && Owned(s) && NoOrphans(s) && Exclusive(s) && lim.cap >= 1
    requires forall i :: 0 <= i < |es| ==> !es[i].CancelMidCall?
    ensures AlwaysExclusive(s, es, lim) && Exclusive(Run(s, es, lim))
    ensures OneLockPerInstance(Run(s, es, lim))
    decreases es
  {
    if es != [] {
      StepSound(s, es[0], lim);
      StepBounded(s, es[0], lim);
      StepOwned(s, es[0], lim);
      StepOrphans(s, es[0], lim);
      StepExclusive(s, es[0], lim);
      AtMostOneCallPerInstance(Step(s, es[0], lim), es[1..], lim);
    }
  }

  /**
  The exception is real wherever a stream can be cancelled in mid-call: the cancel frees the lock,
  and the next call on the same handle enters the instance beside the orphaned thread.
  */
  lemma CancelMidCallBreaksExclusion(s: System, c: nat, lim: Limits)
    requires CallsHandled(s) && CancelsLiveCall(s, CancelMidCall(c))
    ensures !Exclusive(Run(s, [CancelMidCall(c), Open(s.calls[c].handle, false), Acquire(|s.calls|)], lim))
  {
    var h, n := s.calls[c].handle, |s.calls|;
    var s1 := Step(s, CancelMidCall(c), lim);
    assert s1.calls[c] == Call(h, Orphan) && h.lock !in s1.owner && h in s1.handles;
    var s2 := Step(s1, Open(h, false), lim);
    assert s2.calls == s1.calls + [Call(h, Waiting(false))] && s2.owner == s1.owner;
    var s3 := Step(s2, Acquire(n), lim);
    assert s3.calls[c] == Call(h, Orphan) && s3.calls[n] == Call(h, Blocking(false));
    assert InFlight(s3.calls[c].phase) && InFlight(s3.calls[n].phase);
    RunThree(s, CancelMidCall(c), Open(h, false), Acquire(n), lim);
  }

  // ---- calls get on -------------------------------------------------------------------------------

  /** The event ends the call's hold on its lock: a thread returns for good, or a stream is closed between tokens. */
  predicate LetsGo(s: System, e: Event) {
    && (e.Return? || e.Close?) && e.call < |s.calls|
    && (e.Return? ==> s.calls[e.call].phase.Blocking? || (InFlight(s.calls[e.call].phase) && !e.more))
    && (e.Close? ==> s.calls[e.call].phase.Between?)
    && Holds(s.calls[e.call].phase)
  }

  /** A call that ends frees its lock, and one waiting for that lock can enter next. */
  lemma NextCallGetsIn(s: System, e: Event, d: nat, lim: Limits)
    requires LetsGo(s, e) && d < |s.calls| && d != e.call && s.calls[d].phase.Waiting?
    requires s.calls[d].handle.lock == s.calls[e.call].handle.lock
    ensures var t := Step(s, e, lim);
      && t.calls[e.call].phase.Done? && s.calls[e.call].handle.lock !in t.owner
      && InFlight(Step(t, Acquire(d), lim).calls[d].phase)
  {
    var t := Step(s, e, lim);
    assert t.calls[d] == s.calls[d];
  }

  /** A blocking call enters, stays in through its client's timeout, and leaves with the lock free. */
  lemma BlockingCallRuns(s: System, c: nat, more: bool, lim: Limits)
    requires c < |s.calls| && s.calls[c].phase == Waiting(false) && s.calls[c].handle.lock !in s.owner
    ensures var l := s.calls[c].handle.lock;
      var entered := Step(s, Acquire(c), lim);
      var abandoned := Step(entered, ClientTimeout(c), lim);
      && entered.calls[c].phase == Blocking(false) && l in entered.owner && entered.owner[l] == c
      && abandoned.calls[c].phase == Blocking(true) && abandoned.owner == entered.owner
      && (forall t :: t == entered || t == abandoned ==>
            var left := Step(t, Return(c, more), lim); left.calls[c].phase.Done? && l !in left.owner)
  {
  }

  /** A stream opens, pulls tokens while it goes on, and leaves with the lock free, by its end or by a close. */
  lemma StreamRuns(s: System, c: nat, lim: Limits)
    requires c < |s.calls| && s.calls[c].phase == Waiting(true) && s.calls[c].handle.lock !in s.owner
    ensures var l := s.calls[c].handle.lock;
      var entered := Step(s, Acquire(c), lim);
      var between := Step(entered, Return(c, true), lim);
      var pulling := Step(between, Pull(c), lim);
      var ended := Step(pulling, Return(c, false), lim);
      var closed := Step(between, Close(c), lim);
      && entered.calls[c].phase.Creating? && between.calls[c].phase.Between? && pulling.calls[c].phase.InToken?
      && l in pulling.owner && pulling.owner[l] == c
      && Step(pulling, Return(c, true), lim).calls[c].phase.Between?
      && ended.calls[c].phase.Done? && l !in ended.owner && closed.calls[c].phase.Done? && l !in closed.owner
  {
  }

  /** A caller that gives up waiting is gone, and a cancelled stream's thread leaves when its call returns. */
  lemma OthersLeave(s: System, c: nat, more: bool, lim: Limits)
    requires c < |s.calls|
    ensures s.calls[c].phase.Waiting? ==>
      var t := Step(s, GiveUp(c), lim); t.calls[c].phase.Done? && t.owner == s.owner
    ensures s.calls[c].phase.Orphan? ==>
      var t := Step(s, Return(c, more), lim); t.calls[c].phase.Done? && t.owner == s.owner
  {
  }

  /** An evicted model is gone from the cache with its lock, its handles stay good, and no other entry changes. */
  lemma EvictRemoves(s: System, key: Key, lim: Limits)
    requires Sound(s)
    ensures var t := Step(s, Evict(key), lim);
      && t == s.(cache := t.cache) && key !in t.cache.order && t.cache.inst == s.cache.inst - {key}
      && (key in s.cache.inst ==> t.cache.locks == s.cache.locks - {key})
  {
    UnloadKeeps(s.cache, key);
    ElementsMember(s.cache.order, key);
  }

  /** A load under way ends with a new instance cached, most recently used and handed out with its key's lock. */
  lemma FinishDelivers(s: System, lim: Limits)
    requires WellFormed(s.cache) && Bounded(s, lim) && lim.cap >= 1 && s.loading.Loading?
    ensures var k, t := s.loading.key, FinishLoadStep(s, true, lim);
      && t.loading.Idle? && k in t.cache.inst && t.cache.inst[k] == s.nextInstance
      && k in t.cache.locks && Handle(s.nextInstance, t.cache.locks[k]) in t.handles
      && t.cache.order != [] && t.cache.order[|t.cache.order| - 1] == k
  {
    var k := s.loading.key;
    InstallKeeps(s.cache, k, s.nextInstance, lim.cap);
    var u := FinishLoadStep(s, false, lim);
    assert u.cache.inst[k] == s.nextInstance && u.cache.order[|u.cache.order| - 1] == k;
    assert FinishLoadStep(s, true, lim) == HandOut(u, k);
  }

  /** A load of a model that fits, begun when none is under way, is delivered, or fails and lets the next begin. */
  lemma LoadDelivers(s: System, key: Key, forced: bool, lim: Limits)
    requires Sound(s) && Bounded(s, lim) && lim.cap >= 1 && s.loading.Idle?
    requires (forced || key !in s.cache.order) && !TooLarge(key, lim)
    ensures var begun := Step(s, BeginLoad(key, forced), lim);
      && begun == s.(cache := Room(s.cache, key, lim), loading := Loading(key, forced))
      && Step(begun, FailLoad, lim) == begun.(loading := Idle)
      && (var t := Step(begun, FinishLoad(true), lim);
          && t.loading.Idle? && key in t.cache.inst && t.cache.inst[key] == s.nextInstance
          && key in t.cache.locks && Handle(s.nextInstance, t.cache.locks[key]) in t.handles
          && t.cache.order != [] && t.cache.order[|t.cache.order| - 1] == key)
  {
    var begun := BeginLoadStep(s, key, forced, lim);
    BeginLoadSound(s, key, forced, lim);
    RoomBounded(s, key, forced, lim);
    FinishDelivers(begun, lim);
  }

  /** A model that cannot fit alone is refused and nothing changes. */
  lemma OversizedLoadIsRefused(s: System, key: Key, forced: bool, lim: Limits)
    requires TooLarge(key, lim)
    ensures Step(s, BeginLoad(key, forced), lim) == s
  {
  }

  /** Loads run one at a time, and a load that is not forced leaves a cached model alone. */
  lemma LoadsTakeTurns(s: System, key: Key, forced: bool, lim: Limits)
    requires s.loading.Loading? || (!forced && key in s.cache.order)
    ensures Step(s, BeginLoad(key, forced), lim) == s
  {
  }

  /** Preparing a cached model hands out its instance with the lock its key has, and marks it most recently used. */
  lemma PrepareHandsOut(s: System, key: Key, lim: Limits)
    requires Sound(s) && key in s.cache.inst
    ensures var t := Step(s, Prepare(key), lim);
      && t.cache.inst == s.cache.inst && key in t.cache.locks
      && Handle(s.cache.inst[key], t.cache.locks[key]) in t.handles
      && (key in s.cache.locks ==> t.cache.locks == s.cache.locks)
      && t.cache.order[|t.cache.order| - 1] == key
  {
  }

  // ---- variants do not share a lock -----------------------------------------------------------------

  /** Every key has a lock of its own, so a base model and its fine-tunes serialize independently. */
  ghost predicate LocksApart(s: System) {
    && (forall k :: k in s.cache.locks ==> s.cache.locks[k] < s.nextLock)
    && (forall k, k' :: k in s.cache.locks && k' in s.cache.locks && s.cache.locks[k] == s.cache.locks[k'] ==> k == k')
  }

  lemma FewerLocks(s: System, t: System)
    requires LocksApart(s) && SubMap(t.cache.locks, s.cache.locks) && t.nextLock == s.nextLock
    ensures LocksApart(t)
  {
  }

  lemma HandOutApart(s: System, key: Key)
    requires LocksApart(s) && key in s.cache.inst
    ensures LocksApart(HandOut(s, key))
  {
  }

  lemma FinishApart(s: System, prepare: bool, lim: Limits)
    requires LocksApart(s) && WellFormed(s.cache) && Bounded(s, lim) && lim.cap >= 1
    ensures LocksApart(FinishLoadStep(s, prepare, lim))
  {
    if s.loading.Loading? {
      var t := FinishLoadStep(s, false, lim);
      InstallFrame(s, lim);
      FewerLocks(s, t);
      if prepare {
        HandOutApart(t, s.loading.key);
      }
    }
  }

  lemma CacheEventApart(s: System, e: Event, lim: Limits)
    requires LocksApart(s) && WellFormed(s.cache) && Bounded(s, lim) && lim.cap >= 1 && IsCacheEvent(e)
    ensures LocksApart(Step(s, e, lim))
  {
    match e
    case Prepare(k) =>
      if k in s.cache.inst {
        HandOutApart(s.(cache := Touch(s.cache, k)), k);
      }
    case BeginLoad(k, forced) =>
      DropKeeps(s.cache, EvictionPoint(s.cache.order, k, k !in s.cache.order, lim), Some(k));
      FewerLocks(s, Step(s, e, lim));
    case FinishLoad(prepare) => FinishApart(s, prepare, lim);
    case Evict(k) => FewerLocks(s, Step(s, e, lim));
  }

  lemma StepApart(s: System, e: Event, lim: Limits)
    requires LocksApart(s) && WellFormed(s.cache) && Bounded(s, lim) && lim.cap >= 1
    ensures LocksApart(Step(s, e, lim))
  {
    if IsCallEvent(e) {
      CallStepFrame(s, e);
    } else if IsCacheEvent(e) {
      CacheEventApart(s, e, lim);
    }
  }

  /** Over every run each lock is its key's own, and is taken exactly while some call holds it. */
  lemma {:induction false} LocksAreExact(s: System, es: seq<Event>, lim: Limits)
    requires Sound(s) && Bounded(s, lim) && lim.cap >= 1 && Owned(s) && Held(s) && LocksApart(s)
    ensures var t := Run(s, es, lim); Owned(t) && Held(t) && LocksApart(t)
    decreases es
  {
    if es != [] {
      StepSound(s, es[0], lim);
      StepBounded(s, es[0], lim);
      StepOwned(s, es[0], lim);
      StepHeld(s, es[0], lim);
      StepApart(s, es[0], lim);
      LocksAreExact(Step(s, es[0], lim), es[1..], lim);
    }
  }

  // ---- the exception can be reached -----------------------------------------------------------------

  /** A stream inside its first call is two events away from any prepared model. */
  lemma LiveStreamIsReachable(s: System, h: Handle, lim: Limits)
    requires h in s.handles && h.lock !in s.owner
    ensures CancelsLiveCall(Run(s, [Open(h, true), Acquire(|s.calls|)], lim), CancelMidCall(|s.calls|))
  {
    var n := |s.calls|;
    var s1 := Step(s, Open(h, true), lim);
    var s2 := Step(s1, Acquire(n), lim);
    assert s1.calls[n] == Call(h, Waiting(true));
    RunTwo(s, Open(h, true), Acquire(n), lim);
  }

  /** And a prepared model is what loading any model that fits leaves. */
  lemma PreparedStateIsReachable(key: Key, lim: Limits)
    requires lim.cap >= 1 && !TooLarge(key, lim)
    ensures var s := Run(INITIAL, [BeginLoad(key, false), FinishLoad(true)], lim);
      Handle(0, 0) in s.handles && 0 !in s.owner && s.calls == []
  {
    var s1 := Step(INITIAL, BeginLoad(key, false), lim);
    assert s1.cache == INITIAL.cache;
    InstallKeeps(s1.cache, key, 0, lim.cap);
    var s2 := Step(s1, FinishLoad(true), lim);
    assert s2.handles == {Handle(0, 0)} && s2.owner == map[];
    RunTwo(INITIAL, BeginLoad(key, false), FinishLoad(true), lim);
  }

  lemma RunTwo(s: System, a: Event, b: Event, lim: Limits)
    ensures Run(s, [a, b], lim) == Step(Step(s, a, lim), b, lim)
  {
    assert [a, b][1..] == [b] && [b][1..] == [];
    assert Run(Step(s, a, lim), [b], lim) == Step(Step(s, a, lim), b, lim);
  }

  lemma RunThree(s: System, a: Event, b: Event, c: Event, lim: Limits)
    ensures Run(s, [a, b, c], lim) == Step(Step(Step(s, a, lim), b, lim), c, lim)
  {
    assert [a, b, c][1..] == [b, c];
    RunTwo(Step(s, a, lim), b, c, lim);
  }
}
