/**
The settings cache (adapta/services/app_settings.py): overrides in the database, config values
behind them, and a cache in the process with a lifetime of 30 seconds.

`Resolve` is a resolution nothing comes between. `Begin` and `Deliver` are the same resolution
when other work runs while its query is awaited. `Outside` is a write by another process.
*/
module Settings {
  import opened Prelude

  type Key = nat
  type Task = nat

  /** A team's setting. */
  datatype Slot = Slot(team: nat, key: Key)

  /** A configuration value; `Null` is Python's `None`. */
  datatype Value = Null | Number(n: real)

  datatype Spec = Spec(isInt: bool, min: real, max: real)

  /** The whitelist and the process's configuration. */
  datatype Config = Config(whitelist: map<Key, Spec>, env: map<Key, Value>)

  /** What a request sends: a number, or text with what `int` and `float` make of it, or neither. */
  datatype Raw =
    | RawNumber(n: real)
    | RawText(asInt: Option<int>, asFloat: Option<real>)
    | RawOther

  datatype Error = UnknownKey | WrongType | OutOfRange | NoSuchField

  const TTL := 30.0

  datatype Entry = Entry(value: Value, expires: real)

  datatype State = State(
    rows: map<Slot, Value>,
    cache: map<Slot, Entry>,
    pending: map<Task, (Slot, Value)>,
    now: real)

  // ---- what the operations do --------------------------------------------------------------------------

  /** What an uncached read gives: the override, or the configured value. */
  function Effective(f: Config, rows: map<Slot, Value>, k: Slot): Result<Value, Error> {
    if k in rows then (if k.key in f.whitelist then Ok(rows[k]) else Err(UnknownKey))
    else if k.key in f.env then Ok(f.env[k.key])
    else Err(NoSuchField)
  }

  function CacheGet(s: State, k: Slot): Option<Value> {
    if k in s.cache && s.now < s.cache[k].expires && !s.cache[k].value.Null? then Some(s.cache[k].value) else None
  }

  function CacheSet(s: State, k: Slot, v: Value): State {
    s.(cache := s.cache[k := Entry(v, s.now + TTL)])
  }

  function Invalidate(s: State, k: Slot): State {
    s.(cache := s.cache - {k})
  }

  /** `int` cuts towards zero. */
  function Truncate(x: real): real {
    if x >= 0.0 then x.Floor as real else -((-x).Floor as real)
  }

  function Coerce(spec: Spec, raw: Raw): Option<real> {
    match raw
    case RawNumber(n) => Some(if spec.isInt then Truncate(n) else n)
    case RawText(i, x) => if spec.isInt then (if i.Some? then Some(i.value as real) else None) else x
    case RawOther => None
  }

  function Validate(f: Config, key: Key, raw: Raw): Result<real, Error> {
    if key !in f.whitelist then Err(UnknownKey)
    else
      var spec := f.whitelist[key];
      var typed := Coerce(spec, raw);
      if typed.None? then Err(WrongType)
      else if spec.min <= typed.value <= spec.max then Ok(typed.value)
      else Err(OutOfRange)
  }

  datatype Event =
    | Resolve(slot: Slot)
    | Begin(task: Task, slot: Slot)
    | Deliver(task: Task)
    | Upsert(slot: Slot, raw: Raw)
    | Delete(slot: Slot)
    | Tick(seconds: real)
    | Outside(slot: Slot, row: Option<Value>)

  /** A resolution's answer. */
  type Answer = Option<Result<Value, Error>>

  function Step(f: Config, s: State, e: Event): State {
    match e
    case Resolve(k) =>
      var v := Effective(f, s.rows, k);
      if CacheGet(s, k).Some? || v.Err? then s else CacheSet(s, k, v.value)
    case Begin(t, k) =>
      var v := Effective(f, s.rows, k);
      if CacheGet(s, k).Some? || v.Err? || t in s.pending then s else s.(pending := s.pending[t := (k, v.value)])
    case Deliver(t) =>
      if t !in s.pending then s
      else CacheSet(s, s.pending[t].0, s.pending[t].1).(pending := s.pending - {t})
    case Upsert(k, raw) =>
      var v := Validate(f, k.key, raw);
      if v.Err? then s else Invalidate(s.(rows := s.rows[k := Number(v.value)]), k)
    case Delete(k) =>
      if k.key !in f.whitelist then s else Invalidate(s.(rows := s.rows - {k}), k)
    case Tick(d) => if d < 0.0 then s else s.(now := s.now + d)
    case Outside(k, row) => s.(rows := if row.Some? then s.rows[k := row.value] else s.rows - {k})
  }

  /** What the event answers, if it is a resolution that ends. */
  function AnswerOf(f: Config, s: State, e: Event): Answer {
    match e
    case Resolve(k) => Some(if CacheGet(s, k).Some? then Ok(CacheGet(s, k).value) else Effective(f, s.rows, k))
    case Begin(t, k) =>
      if CacheGet(s, k).Some? then Some(Ok(CacheGet(s, k).value))
      else if Effective(f, s.rows, k).Err? then Some(Effective(f, s.rows, k))
      else None
    case Deliver(t) => if t in s.pending then Some(Ok(s.pending[t].1)) else None
    case _ => None
  }

  function Run(f: Config, s: State, es: seq<Event>): State
    decreases es
  {
    if es == [] then s else Run(f, Step(f, s, es[0]), es[1..])
  }

  function Answers(f: Config, s: State, es: seq<Event>): seq<Answer>
    decreases es
  {
    if es == [] then [] else [AnswerOf(f, s, es[0])] + Answers(f, Step(f, s, es[0]), es[1..])
  }

  function Started(rows: map<Slot, Value>, now: real): State {
    State(rows, map[], map[], now)
  }

  // ---- the cache is invisible in one process ------------------------------------------------------------

  /** The program without a cache. */
  function PlainStep(f: Config, rows: map<Slot, Value>, e: Event): map<Slot, Value> {
    match e
    case Upsert(k, raw) => var v := Validate(f, k.key, raw); if v.Err? then rows else rows[k := Number(v.value)]
    case Delete(k) => if k.key !in f.whitelist then rows else rows - {k}
    case Outside(k, row) => if row.Some? then rows[k := row.value] else rows - {k}
    case _ => rows
  }

  function PlainAnswers(f: Config, rows: map<Slot, Value>, es: seq<Event>): seq<Answer>
    decreases es
  {
    if es == [] then [] else
      [if es[0].Resolve? then Some(Effective(f, rows, es[0].slot)) else None]
      + PlainAnswers(f, PlainStep(f, rows, es[0]), es[1..])
  }

  /** Every entry is what an uncached read would give now. */
  ghost predicate Coherent(f: Config, s: State) {
    forall k | k in s.cache :: Effective(f, s.rows, k) == Ok(s.cache[k].value)
  }

  /** The value a query brought back has been overtaken by a write. */
  predicate DeliversStale(f: Config, s: State, e: Event) {
    e.Deliver? && e.task in s.pending && Effective(f, s.rows, s.pending[e.task].0) != Ok(s.pending[e.task].1)
  }

  /** Another process changes a value this one has cached. */
  predicate WritesBehindCache(f: Config, s: State, e: Event) {
    e.Outside? && e.slot in s.cache && Effective(f, Step(f, s, e).rows, e.slot) != Effective(f, s.rows, e.slot)
  }

  /** A step keeps the cache true to the database exactly unless it is one of those two. */
  lemma StepCoherent(f: Config, s: State, e: Event)
    requires Coherent(f, s)
    ensures Coherent(f, Step(f, s, e)) <==> !DeliversStale(f, s, e) && !WritesBehindCache(f, s, e)
  {
    var t := Step(f, s, e);
    if DeliversStale(f, s, e) {
      assert s.pending[e.task].0 in t.cache;
    } else if WritesBehindCache(f, s, e) {
      assert e.slot in t.cache;
    }
  }

  ghost predicate AlwaysCoherent(f: Config, s: State, es: seq<Event>)
    decreases es
  {
    Coherent(f, s) && (es == [] || AlwaysCoherent(f, Step(f, s, es[0]), es[1..]))
  }

  ghost predicate NeverStale(f: Config, s: State, es: seq<Event>)
    decreases es
  {
    es == [] ||
    (!DeliversStale(f, s, es[0]) && !WritesBehindCache(f, s, es[0]) && NeverStale(f, Step(f, s, es[0]), es[1..]))
  }

  /** Over every run the cache is true to the database in every state exactly when neither happens. */
  lemma {:induction false} CoherentExactly(f: Config, s: State, es: seq<Event>)
    requires Coherent(f, s)
    ensures AlwaysCoherent(f, s, es) <==> NeverStale(f, s, es)
    decreases es
  {
    if es != [] {
      StepCoherent(f, s, es[0]);
      if !DeliversStale(f, s, es[0]) && !WritesBehindCache(f, s, es[0]) {
        CoherentExactly(f, Step(f, s, es[0]), es[1..]);
      }
    }
  }

  /** Resolutions run whole and nobody else writes. */
  predicate Alone(es: seq<Event>) {
    forall e | e in es :: !e.Begin? && !e.Deliver? && !e.Outside?
  }

  lemma {:induction false} CoherentAnswers(f: Config, s: State, es: seq<Event>)
    requires Coherent(f, s) && Alone(es)
    ensures Answers(f, s, es) == PlainAnswers(f, s.rows, es)
    decreases es
  {
    if es != [] {
      assert es[0] in es;
      StepCoherent(f, s, es[0]);
      CoherentAnswers(f, Step(f, s, es[0]), es[1..]);
    }
  }

  /** Over any resolutions, upserts, deletes and passing time, the answers are those of a program with no cache. */
  lemma CacheIsInvisible(f: Config, rows: map<Slot, Value>, now: real, es: seq<Event>)
    requires Alone(es)
    ensures Answers(f, Started(rows, now), es) == PlainAnswers(f, rows, es)
  {
    CoherentAnswers(f, Started(rows, now), es);
  }

  // ---- bounded staleness with outside writers ------------------------------------------------------------

  /** The states a run goes through, the first and the last included. */
  function Trace(f: Config, s: State, es: seq<Event>): (r: seq<State>)
    ensures |r| == |es| + 1
    decreases es
  {
    if es == [] then [s] else [s] + Trace(f, Step(f, s, es[0]), es[1..])
  }

  /** In state `p`, `v` was the effective value of `k`. */
  ghost predicate Was(f: Config, p: State, k: Slot, v: Value) {
    Effective(f, p.rows, k) == Ok(v)
  }

  /** `v` was effective in state `i`, when queried, and delivered in state `j`: the same for whole resolutions. */
  ghost predicate Backs(f: Config, past: seq<State>, i: int, j: int, k: Slot, v: Value, whole: bool) {
    0 <= i <= j < |past| && (whole ==> i == j) && Was(f, past[i], k, v)
  }

  ghost predicate EntryBacked(f: Config, past: seq<State>, k: Slot, e: Entry, whole: bool) {
    exists i, j :: Backs(f, past, i, j, k, e.value, whole) && past[j].now + TTL == e.expires
  }

  ghost predicate QueryBacked(f: Config, past: seq<State>, k: Slot, v: Value) {
    exists i :: Backs(f, past, i, i, k, v, true)
  }

  /** Every entry was delivered one lifetime before it expires; what it and every open query holds was effective. */
  ghost predicate Backed(f: Config, past: seq<State>, s: State, whole: bool) {
    && past != [] && past[|past| - 1] == s
    && (forall k | k in s.cache :: EntryBacked(f, past, k, s.cache[k], whole))
    && (forall t | t in s.pending :: QueryBacked(f, past, s.pending[t].0, s.pending[t].1))
  }

  predicate Whole(e: Event) {
    !e.Begin? && !e.Deliver?
  }

  lemma LongerPast(f: Config, past: seq<State>, t: State, k: Slot, e: Entry, whole: bool)
    requires EntryBacked(f, past, k, e, whole)
    ensures EntryBacked(f, past + [t], k, e, whole)
  {
    var i, j :| Backs(f, past, i, j, k, e.value, whole) && past[j].now + TTL == e.expires;
    assert Backs(f, past + [t], i, j, k, e.value, whole);
  }

  lemma LongerPastOfQuery(f: Config, past: seq<State>, t: State, k: Slot, v: Value)
    requires QueryBacked(f, past, k, v)
    ensures QueryBacked(f, past + [t], k, v)
  {
    var i :| Backs(f, past, i, i, k, v, true);
    assert Backs(f, past + [t], i, i, k, v, true);
  }

  /** The entry an event adds is backed: it was read in this state, or by an earlier query. */
  lemma NewEntryBacked(f: Config, past: seq<State>, s: State, e: Event, k: Slot, whole: bool)
    requires Backed(f, past, s, whole) && (whole ==> Whole(e))
    requires k in Step(f, s, e).cache && !(k in s.cache && s.cache[k] == Step(f, s, e).cache[k])
    ensures EntryBacked(f, past, k, Step(f, s, e).cache[k], whole)
  {
    var n, v := |past| - 1, Step(f, s, e).cache[k].value;
    if e.Deliver? {
      var i :| Backs(f, past, i, i, k, v, true);
      assert Backs(f, past, i, n, k, v, whole);
    } else {
      assert Backs(f, past, n, n, k, v, whole);
    }
  }

  lemma StepBacked(f: Config, past: seq<State>, s: State, e: Event, whole: bool)
    requires Backed(f, past, s, whole) && (whole ==> Whole(e))
    ensures Backed(f, past + [Step(f, s, e)], Step(f, s, e), whole)
  {
    var t := Step(f, s, e);
    forall k | k in t.cache
      ensures EntryBacked(f, past + [t], k, t.cache[k], whole)
    {
      if !(k in s.cache && s.cache[k] == t.cache[k]) {
        NewEntryBacked(f, past, s, e, k, whole);
      }
      LongerPast(f, past, t, k, t.cache[k], whole);
    }
    forall q | q in t.pending
      ensures QueryBacked(f, past + [t], t.pending[q].0, t.pending[q].1)
    {
      if q !in s.pending {
        assert Backs(f, past, |past| - 1, |past| - 1, t.pending[q].0, t.pending[q].1, true);
      }
      LongerPastOfQuery(f, past, t, t.pending[q].0, t.pending[q].1);
    }
  }

  /** The slot an event resolves. */
  function SlotOf(s: State, e: Event): Slot
    requires e.Resolve? || e.Begin? || (e.Deliver? && e.task in s.pending)
  {
    if e.Deliver? then s.pending[e.task].0 else e.slot
  }

  /** What the event answers in state `s` was delivered less than a lifetime ago, and effective when queried. */
  ghost predicate RecentAnswer(f: Config, past: seq<State>, s: State, e: Event, whole: bool) {
    var a := AnswerOf(f, s, e);
    a.Some? ==>
      if a.value.Err? then a.value == Effective(f, s.rows, SlotOf(s, e))
      else exists i, j :: Backs(f, past, i, j, SlotOf(s, e), a.value.value, whole) && s.now - past[j].now < 30.0
  }

  lemma AnswerIsRecent(f: Config, past: seq<State>, s: State, e: Event, whole: bool)
    requires Backed(f, past, s, whole) && (whole ==> Whole(e))
    ensures RecentAnswer(f, past, s, e, whole)
  {
    var a, n := AnswerOf(f, s, e), |past| - 1;
    if a.Some? && a.value.Ok? {
      var k, v := SlotOf(s, e), a.value.value;
      if e.Deliver? {
        var i :| Backs(f, past, i, i, k, v, true);
        assert Backs(f, past, i, n, k, v, whole);
      } else if CacheGet(s, k).Some? {
        assert EntryBacked(f, past, k, s.cache[k], whole);
      } else {
        assert Backs(f, past, n, n, k, v, whole);
      }
    }
  }

  lemma {:induction false} TraceBacked(f: Config, past: seq<State>, s: State, es: seq<Event>, whole: bool)
    requires Backed(f, past, s, whole)
    requires whole ==> forall e | e in es :: Whole(e)
    ensures Backed(f, past[..|past| - 1] + Trace(f, s, es), Run(f, s, es), whole)
    decreases es
  {
    var before := past[..|past| - 1];
    if es == [] {
      assert before + Trace(f, s, es) == past;
    } else {
      assert es[0] in es;
      var t := Step(f, s, es[0]);
      StepBacked(f, past, s, es[0], whole);
      TraceBacked(f, past + [t], t, es[1..], whole);
      assert (past + [t])[..|past|] == before + [s];
      assert before + [s] + Trace(f, t, es[1..]) == before + Trace(f, s, es);
    }
  }

  /**
  With other processes writing at will and resolutions interleaved with anything, what a resolution
  answers was delivered less than 30 seconds earlier in this very run, and was the effective value
  when its query ran.
  */
  lemma DeliveredWithinTTL(f: Config, rows: map<Slot, Value>, start: real, es: seq<Event>, e: Event, whole: bool)
    requires whole ==> Whole(e) && forall e | e in es :: Whole(e)
    ensures var s := Started(rows, start);
      RecentAnswer(f, Trace(f, s, es), Run(f, s, es), e, whole)
  {
    var s := Started(rows, start);
    TraceBacked(f, [s], s, es, whole);
    assert [s][..0] + Trace(f, s, es) == Trace(f, s, es);
    AnswerIsRecent(f, Trace(f, s, es), Run(f, s, es), e, whole);
  }

  /** `v` was effective in some state of `past` less than a lifetime before `now`. */
  ghost predicate EffectiveWithinTTL(f: Config, past: seq<State>, now: real, k: Slot, v: Value) {
    exists i | 0 <= i < |past| :: Was(f, past[i], k, v) && now - past[i].now < 30.0
  }

  /** When resolutions run whole, it was therefore effective less than 30 seconds earlier. */
  lemma StaleForLessThanTTL(f: Config, rows: map<Slot, Value>, start: real, es: seq<Event>, k: Slot)
    requires forall e | e in es :: Whole(e)
    ensures var past, s := Trace(f, Started(rows, start), es), Run(f, Started(rows, start), es);
      var a := AnswerOf(f, s, Resolve(k)).value;
      if a.Err? then a == Effective(f, s.rows, k)
      else EffectiveWithinTTL(f, past, s.now, k, a.value)
  {
    DeliveredWithinTTL(f, rows, start, es, Resolve(k), true);
    var past, s := Trace(f, Started(rows, start), es), Run(f, Started(rows, start), es);
    var a := AnswerOf(f, s, Resolve(k)).value;
    assert AnswerOf(f, s, Resolve(k)) == Some(a) && RecentAnswer(f, past, s, Resolve(k), true);
    if a.Ok? {
      var i, j :| Backs(f, past, i, j, k, a.value, true) && s.now - past[j].now < TTL;
      assert Was(f, past[i], k, a.value) && s.now - past[i].now < TTL;
    }
  }

  // ---- the cache is used ---------------------------------------------------------------------------------

  /**
  A resolved value is answered from the cache for 30 seconds, whatever other processes write, and
  read again once they are over.
  */
  lemma CachedForTTL(f: Config, s: State, k: Slot, d: real, row: Option<Value>)
    requires CacheGet(s, k).None? && Effective(f, s.rows, k).Ok? && !Effective(f, s.rows, k).value.Null? && d >= 0.0
    ensures var v := Effective(f, s.rows, k).value;
      var later := Step(f, Step(f, Step(f, s, Resolve(k)), Outside(k, row)), Tick(d));
      && (d < 30.0 ==> AnswerOf(f, later, Resolve(k)) == Some(Ok(v)) && Step(f, later, Resolve(k)) == later)
      && (d >= 30.0 ==> AnswerOf(f, later, Resolve(k)) == Some(Effective(f, later.rows, k)))
  {
    var a := Step(f, s, Resolve(k));
    assert a.cache[k] == Entry(Effective(f, s.rows, k).value, s.now + 30.0);
  }

  /** A configuration value of `None` is never answered from the cache. */
  lemma NullIsReadAgain(f: Config, s: State, k: Slot)
    requires k in s.cache && s.cache[k].value.Null?
    ensures AnswerOf(f, s, Resolve(k)) == Some(Effective(f, s.rows, k))
  {
  }

  // ---- a write while a query is awaited ------------------------------------------------------------------

  /**
  An operator's change is meant to be visible within one request. It is not, from any state in
  which a query for the slot is under way: its result is cached after the write, and the old value
  comes back.
  */
  lemma WriteDuringQueryIsHidden(f: Config, s: State, t: Task, raw: Raw)
    requires t in s.pending && !s.pending[t].1.Null? && Validate(f, s.pending[t].0.key, raw).Ok?
    ensures var k, v := s.pending[t].0, Validate(f, s.pending[t].0.key, raw).value;
      var after := Run(f, s, [Upsert(k, raw), Deliver(t)]);
      && Effective(f, after.rows, k) == Ok(Number(v))
      && AnswerOf(f, after, Resolve(k)) == Some(Ok(s.pending[t].1))
  {
    var k := s.pending[t].0;
    var s1 := Step(f, s, Upsert(k, raw));
    var s2 := Step(f, s1, Deliver(t));
    assert s2.cache[k] == Entry(s.pending[t].1, s.now + TTL) && s2.now == s.now;
    assert [Upsert(k, raw), Deliver(t)][1..] == [Deliver(t)] && [Deliver(t)][1..] == [];
    assert Run(f, s1, [Deliver(t)]) == s2;
  }

  /** No write touches the slot of a query that is under way. */
  predicate LeavesQueriesAlone(s: State, e: Event) {
    (e.Upsert? || e.Delete? || e.Outside?) ==> forall t | t in s.pending :: s.pending[t].0 != e.slot
  }

  ghost predicate QueriesFresh(f: Config, s: State) {
    forall t | t in s.pending :: Effective(f, s.rows, s.pending[t].0) == Ok(s.pending[t].1)
  }

  ghost predicate Undisturbed(f: Config, s: State, es: seq<Event>)
    decreases es
  {
    es == [] || (!es[0].Outside? && LeavesQueriesAlone(s, es[0]) && Undisturbed(f, Step(f, s, es[0]), es[1..]))
  }

  /** Without such writes, interleaved resolutions keep the cache true as well. */
  lemma {:induction false} UndisturbedIsCoherent(f: Config, s: State, es: seq<Event>)
    requires Coherent(f, s) && QueriesFresh(f, s) && Undisturbed(f, s, es)
    ensures Coherent(f, Run(f, s, es)) && QueriesFresh(f, Run(f, s, es))
    decreases es
  {
    if es != [] {
      StepCoherent(f, s, es[0]);
      UndisturbedIsCoherent(f, Step(f, s, es[0]), es[1..]);
    }
  }

  // ---- what can be stored --------------------------------------------------------------------------------

  /** A value the key admits: in range, and whole where the key is an integer. */
  ghost predicate Admits(spec: Spec, n: real) {
    spec.min <= n <= spec.max && (spec.isInt ==> n == n.Floor as real)
  }

  /** Every override is of a whitelisted key and a value the key admits. */
  ghost predicate InBounds(f: Config, rows: map<Slot, Value>) {
    forall k | k in rows :: k.key in f.whitelist && rows[k].Number? && Admits(f.whitelist[k.key], rows[k].n)
  }

  /** Cutting towards zero: whole, no further from zero, and less than one away. */
  lemma TruncateMeans(x: real)
    ensures Truncate(x) == Truncate(x).Floor as real
    ensures x >= 0.0 ==> 0.0 <= Truncate(x) <= x < Truncate(x) + 1.0
    ensures x < 0.0 ==> Truncate(x) - 1.0 < x <= Truncate(x) <= 0.0
  {
    FloorOfWhole(x.Floor);
    FloorOfWhole((-x).Floor);
  }

  /**
  What an accepted value is stored as: a number for a float key as it is and for an integer key cut
  towards zero, a text as the number it spells in the key's type; and it is accepted exactly when
  the key is listed, that number exists and is in range.
  */
  lemma UpsertStores(f: Config, s: State, k: Slot, raw: Raw)
    ensures var t := Step(f, s, Upsert(k, raw)); var listed := k.key in f.whitelist;
      && (listed && raw.RawNumber? && !f.whitelist[k.key].isInt && InRange(f.whitelist[k.key], raw.n) ==>
            t.rows == s.rows[k := Number(raw.n)])
      && (listed && raw.RawNumber? && f.whitelist[k.key].isInt && InRange(f.whitelist[k.key], Truncate(raw.n)) ==>
            t.rows == s.rows[k := Number(Truncate(raw.n))])
      && (listed && raw.RawText? && !f.whitelist[k.key].isInt && raw.asFloat.Some? ==>
            InRange(f.whitelist[k.key], raw.asFloat.value) ==> t.rows == s.rows[k := Number(raw.asFloat.value)])
      && (listed && raw.RawText? && f.whitelist[k.key].isInt && raw.asInt.Some? ==>
            InRange(f.whitelist[k.key], raw.asInt.value as real) ==>
              t.rows == s.rows[k := Number(raw.asInt.value as real)])
      && (!listed || raw.RawOther? ==> t == s)
  {
  }

  predicate InRange(spec: Spec, n: real) {
    spec.min <= n <= spec.max
  }

  /** A value out of its key's range, or a text that spells none, changes nothing. */
  lemma UpsertRefuses(f: Config, s: State, k: Slot, raw: Raw)
    requires k.key in f.whitelist
    requires var spec := f.whitelist[k.key];
      || (raw.RawNumber? && !InRange(spec, if spec.isInt then Truncate(raw.n) else raw.n))
      || (raw.RawText? && spec.isInt && (raw.asInt.None? || !InRange(spec, raw.asInt.value as real)))
      || (raw.RawText? && !spec.isInt && (raw.asFloat.None? || !InRange(spec, raw.asFloat.value)))
    ensures Step(f, s, Upsert(k, raw)) == s
  {
  }

  lemma FloorOfWhole(i: int)
    ensures (i as real).Floor == i && (-(i as real)).Floor == -i
  {
    assert -(i as real) == (-i) as real;
  }

  lemma ValidatedIsAdmitted(f: Config, key: Key, raw: Raw)
    requires Validate(f, key, raw).Ok?
    ensures key in f.whitelist && Admits(f.whitelist[key], Validate(f, key, raw).value)
  {
    match raw
    case RawNumber(n) =>
      FloorOfWhole(n.Floor);
      FloorOfWhole((-n).Floor);
    case RawText(i, x) =>
      FloorOfWhole(if i.Some? then i.value else 0);
    case RawOther =>
  }

  lemma {:induction false} OverridesStayInBounds(f: Config, s: State, es: seq<Event>)
    requires InBounds(f, s.rows) && forall e | e in es :: !e.Outside?
    ensures InBounds(f, Run(f, s, es).rows)
    decreases es
  {
    if es != [] {
      var e := es[0];
      assert e in es;
      if e.Upsert? && Validate(f, e.slot.key, e.raw).Ok? {
        ValidatedIsAdmitted(f, e.slot.key, e.raw);
      }
      OverridesStayInBounds(f, Step(f, s, e), es[1..]);
    }
  }

  // ---- the module's dictionary ---------------------------------------------------------------------------

  class Service {
    const config: Config
    var rows: map<Slot, Value>
    var cache: map<Slot, Entry>
    var now: real

    constructor (config: Config, rows: map<Slot, Value>, now: real)
      ensures this.config == config && Contents() == Started(rows, now)
    {
      this.config, this.rows, this.cache, this.now := config, rows, map[], now;
    }

    ghost function Contents(): State
      reads this
    {
      State(rows, cache, map[], now)
    }

    method ResolveSetting(k: Slot) returns (r: Result<Value, Error>)
      modifies this`cache
      ensures Contents() == Step(config, old(Contents()), Resolve(k))
      ensures Some(r) == AnswerOf(config, old(Contents()), Resolve(k))
      ensures old(Coherent(config, Contents())) ==> r == Effective(config, rows, k) && Coherent(config, Contents())
    {
      if k in cache && !(now >= cache[k].expires) && !cache[k].value.Null? {
        return Ok(cache[k].value);
      }
      var value: Value;
      if k in rows {
        if k.key !in config.whitelist {
          return Err(UnknownKey);
        }
        value := rows[k];
      } else {
        if k.key !in config.env {
          return Err(NoSuchField);
        }
        value := config.env[k.key];
      }
      cache := cache[k := Entry(value, now + TTL)];
      r := Ok(value);
    }

    method UpsertSetting(k: Slot, raw: Raw) returns (r: Result<Value, Error>)
      modifies this`rows, this`cache
      ensures Contents() == Step(config, old(Contents()), Upsert(k, raw))
      ensures r.Ok? ==> Effective(config, rows, k) == r && k !in cache
      ensures r.Err? <==> Validate(config, k.key, raw).Err?
      ensures old(Coherent(config, Contents())) ==> Coherent(config, Contents())
    {
      var typed := Validate(config, k.key, raw);
      if typed.Err? {
        return Err(typed.error);
      }
      rows := rows[k := Number(typed.value)];
      cache := cache - {k};
      r := Ok(Number(typed.value));
    }

    method DeleteSetting(k: Slot) returns (r: Result<(), Error>)
      modifies this`rows, this`cache
      ensures Contents() == Step(config, old(Contents()), Delete(k))
      ensures r.Ok? <==> k.key in config.whitelist
      ensures r.Ok? && k.key in config.env ==> Effective(config, rows, k) == Ok(config.env[k.key])
      ensures old(Coherent(config, Contents())) ==> Coherent(config, Contents())
    {
      if k.key !in config.whitelist {
        return Err(UnknownKey);
      }
      if k in rows {
        rows := rows - {k};
      }
      cache := cache - {k};
      r := Ok(());
    }
  }
}
