/**
The fixed-window limiter (adapta/services/rate_limit.py).

A hit is two Redis calls: INCR, and EXPIRE from the caller that saw the count become one. Other
hits may come between the two, and either call may fail; the limiter then lets the request pass.
*/
module RateLimit {
  import opened Prelude

  /** The Redis key: a count, and when it expires if that has been set. */
  datatype Counter = Counter(count: nat, deadline: Option<int>)

  predicate Alive(c: Option<Counter>, now: int) {
    c.Some? && (c.value.deadline.Some? ==> now < c.value.deadline.value)
  }

  /** INCR at time `now`: an expired key counts from zero and has no deadline. */
  function Incr(c: Option<Counter>, now: int): Counter {
    if Alive(c, now) then c.value.(count := c.value.count + 1) else Counter(1, None)
  }

  /** EXPIRE at time `now`; nothing to do on a key that is gone. */
  function Expire(c: Option<Counter>, now: int, window: int): Option<Counter> {
    if Alive(c, now) then Some(c.value.(deadline := Some(now + window))) else c
  }

  // ---- one key over a whole run ------------------------------------------------------------------------

  datatype Event =
    | Hit(at: int)
    | Arm(at: int)

  /** A hit let through, and the window it was counted in. */
  datatype Pass = Pass(at: int, window: nat)

  /** `since` is when the current window began, `now` the last time seen. */
  datatype State = State(counter: Option<Counter>, window: nat, since: int, now: int, passes: seq<Pass>)

  datatype Config = Config(limit: int, window: int)

  function Fresh(now: int): State {
    State(None, 0, now, now, [])
  }

  /** Only the caller that opened a window sets its deadline, once. */
  predicate Enabled(s: State, e: Event) {
    && s.now <= e.at
    && (e.Arm? ==> s.counter.Some? && s.counter.value.deadline.None?)
  }

  function Step(f: Config, s: State, e: Event): State {
    match e
    case Arm(at) => s.(counter := Expire(s.counter, at, f.window), now := at)
    case Hit(at) =>
      var c := Incr(s.counter, at);
      var opens := !Alive(s.counter, at);
      var w := if opens then s.window + 1 else s.window;
      State(Some(c), w, if opens then at else s.since, at,
        if c.count > f.limit then s.passes else s.passes + [Pass(at, w)])
  }

  ghost predicate Possible(f: Config, s: State, es: seq<Event>)
    decreases es
  {
    es == [] || (Enabled(s, es[0]) && Possible(f, Step(f, s, es[0]), es[1..]))
  }

  function Run(f: Config, s: State, es: seq<Event>): State
    decreases es
  {
    if es == [] then s else Run(f, Step(f, s, es[0]), es[1..])
  }

  function CountWindow(ps: seq<Pass>, w: nat): nat {
    if ps == [] then 0 else CountWindow(ps[..|ps| - 1], w) + (if ps[|ps| - 1].window == w then 1 else 0)
  }

  function CountBetween(ps: seq<Pass>, lo: int, hi: int): nat {
    if ps == [] then 0 else CountBetween(ps[..|ps| - 1], lo, hi) + (if lo <= ps[|ps| - 1].at <= hi then 1 else 0)
  }

  /** Where the passes of past windows lie relative to the window now open. */
  ghost predicate Placed(f: Config, s: State, p: Pass) {
    && p.window <= s.window && p.at <= s.now
    && (p.window == s.window ==> s.since <= p.at)
    && (p.window == s.window && s.counter.Some? && s.counter.value.deadline.Some? ==>
          p.at < s.counter.value.deadline.value)
    && (p.window < s.window ==> p.at < s.since)
    && (p.window + 1 < s.window ==> p.at + f.window < s.since)
  }

  /** Passes two or more windows apart are more than a window's length apart in time. */
  ghost predicate Apart(f: Config, p: Pass, q: Pass) {
    p.window + 2 <= q.window ==> p.at + f.window < q.at
  }

  ghost predicate Good(f: Config, s: State) {
    && s.since <= s.now
    && (s.counter.Some? && s.counter.value.deadline.Some? ==> s.since + f.window <= s.counter.value.deadline.value)
    && (s.counter.Some? ==> CountWindow(s.passes, s.window) <= s.counter.value.count)
    && (forall w: nat :: CountWindow(s.passes, w) <= f.limit)
    && (forall p | p in s.passes :: Placed(f, s, p))
    && (forall p, q | p in s.passes && q in s.passes :: Apart(f, p, q))
    && (s.counter.None? ==> s.passes == [])
  }

  lemma {:induction false} NoneYet(ps: seq<Pass>, w: nat)
    requires forall p | p in ps :: p.window < w
    ensures CountWindow(ps, w) == 0
  {
    if ps != [] {
      assert ps[|ps| - 1] in ps;
      NoneYet(ps[..|ps| - 1], w);
    }
  }

  lemma CountOneMore(ps: seq<Pass>, p: Pass, w: nat)
    ensures CountWindow(ps + [p], w) == CountWindow(ps, w) + if p.window == w then 1 else 0
  {
    assert (ps + [p])[..|ps|] == ps;
  }

  lemma HitPlaces(f: Config, s: State, at: int, p: Pass)
    requires f.window > 0 && Good(f, s) && Enabled(s, Hit(at)) && p in Step(f, s, Hit(at)).passes
    ensures Placed(f, Step(f, s, Hit(at)), p)
  {
    if p in s.passes {
      assert Placed(f, s, p);
    }
  }

  lemma HitCounts(f: Config, s: State, at: int, w: nat)
    requires f.limit > 0 && Good(f, s) && Enabled(s, Hit(at))
    ensures var t := Step(f, s, Hit(at));
      CountWindow(t.passes, w) <= f.limit && (w == t.window ==> CountWindow(t.passes, w) <= t.counter.value.count)
  {
    var t := Step(f, s, Hit(at));
    assert CountWindow(s.passes, w) <= f.limit;
    if !Alive(s.counter, at) && w == t.window {
      forall p | p in s.passes
        ensures p.window < w
      {
        assert Placed(f, s, p);
      }
      NoneYet(s.passes, w);
    }
    CountOneMore(s.passes, Pass(at, t.window), w);
  }

  lemma HitKeeps(f: Config, s: State, at: int)
    requires f.limit > 0 && f.window > 0 && Good(f, s) && Enabled(s, Hit(at))
    ensures Good(f, Step(f, s, Hit(at)))
  {
    var t := Step(f, s, Hit(at));
    forall w: nat
      ensures CountWindow(t.passes, w) <= f.limit
      ensures w == t.window ==> CountWindow(t.passes, w) <= t.counter.value.count
    {
      HitCounts(f, s, at, w);
    }
    forall p | p in t.passes
      ensures Placed(f, t, p)
    {
      HitPlaces(f, s, at, p);
    }
  }

  lemma ArmKeeps(f: Config, s: State, at: int)
    requires f.window > 0 && Good(f, s) && Enabled(s, Arm(at))
    ensures Good(f, Step(f, s, Arm(at)))
  {
    var t := Step(f, s, Arm(at));
    forall p | p in t.passes
      ensures Placed(f, t, p)
    {
      assert Placed(f, s, p);
    }
  }

  lemma {:induction false} RunKeeps(f: Config, s: State, es: seq<Event>)
    requires f.limit > 0 && f.window > 0 && Good(f, s) && Possible(f, s, es)
    ensures Good(f, Run(f, s, es))
    decreases es
  {
    if es != [] {
      match es[0] {
        case Hit(at) => HitKeeps(f, s, at);
        case Arm(at) => ArmKeeps(f, s, at);
      }
      RunKeeps(f, Step(f, s, es[0]), es[1..]);
    }
  }

  /** At most `limit` hits pass in one window, in every run. */
  lemma WindowAdmitsLimit(f: Config, start: int, es: seq<Event>, w: nat)
    requires f.limit > 0 && f.window > 0 && Possible(f, Fresh(start), es)
    ensures CountWindow(Run(f, Fresh(start), es).passes, w) <= f.limit
  {
    RunKeeps(f, Fresh(start), es);
  }

  lemma {:induction false} TwoWindowsCover(ps: seq<Pass>, lo: int, hi: int, w: nat)
    requires forall p | p in ps && lo <= p.at <= hi :: p.window == w || p.window == w + 1
    ensures CountBetween(ps, lo, hi) <= CountWindow(ps, w) + CountWindow(ps, w + 1)
  {
    if ps != [] {
      assert ps[|ps| - 1] in ps;
      TwoWindowsCover(ps[..|ps| - 1], lo, hi, w);
    }
  }

  /** The earliest window with a pass in the interval, or none has one. */
  lemma {:induction false} EarliestWindow(ps: seq<Pass>, lo: int, hi: int) returns (w: nat)
    ensures forall p | p in ps && lo <= p.at <= hi :: w <= p.window
    ensures (forall p | p in ps :: !(lo <= p.at <= hi)) || exists p | p in ps :: lo <= p.at <= hi && p.window == w
  {
    if ps == [] {
      return 0;
    }
    var n := |ps| - 1;
    var q := ps[n];
    assert ps == ps[..n] + [q];
    w := EarliestWindow(ps[..n], lo, hi);
    if lo <= q.at <= hi && (q.window < w || forall p | p in ps[..n] :: !(lo <= p.at <= hi)) {
      w := q.window;
    }
  }

  /** At most twice the limit passes in any stretch as long as a window, wherever it starts. */
  lemma AnyStretchAdmitsTwice(f: Config, start: int, es: seq<Event>, lo: int)
    requires f.limit > 0 && f.window > 0 && Possible(f, Fresh(start), es)
    ensures CountBetween(Run(f, Fresh(start), es).passes, lo, lo + f.window) <= 2 * f.limit
  {
    var s := Run(f, Fresh(start), es);
    RunKeeps(f, Fresh(start), es);
    var w := EarliestWindow(s.passes, lo, lo + f.window);
    forall q | q in s.passes && lo <= q.at <= lo + f.window
      ensures q.window == w || q.window == w + 1
    {
      var p :| p in s.passes && lo <= p.at <= lo + f.window && p.window == w;
      assert Apart(f, p, q);
    }
    TwoWindowsCover(s.passes, lo, lo + f.window, w);
  }

  // ---- the bound is met --------------------------------------------------------------------------------

  function Hits(at: int, n: nat): seq<Event> {
    if n == 0 then [] else Hits(at, n - 1) + [Hit(at)]
  }

  /** The state after `n` hits at once. */
  function AfterHits(f: Config, s: State, at: int, n: nat): State {
    if n == 0 then s else Step(f, AfterHits(f, s, at, n - 1), Hit(at))
  }

  lemma {:induction false} RunConcat(f: Config, s: State, a: seq<Event>, b: seq<Event>)
    ensures Run(f, s, a + b) == Run(f, Run(f, s, a), b)
    ensures Possible(f, s, a + b) <==> Possible(f, s, a) && Possible(f, Run(f, s, a), b)
    decreases a
  {
    if a == [] {
      assert a + b == b;
    } else {
      assert (a + b)[1..] == a[1..] + b;
      RunConcat(f, Step(f, s, a[0]), a[1..], b);
    }
  }

  lemma RunOne(f: Config, s: State, e: Event)
    ensures Run(f, s, [e]) == Step(f, s, e)
    ensures Possible(f, s, [e]) <==> Enabled(s, e)
  {
    assert [e][1..] == [];
  }

  lemma {:induction false} HitsRun(f: Config, s: State, at: int, n: nat)
    requires s.now <= at
    ensures Possible(f, s, Hits(at, n)) && Run(f, s, Hits(at, n)) == AfterHits(f, s, at, n)
    ensures AfterHits(f, s, at, n).now <= at
  {
    if n > 0 {
      HitsRun(f, s, at, n - 1);
      RunConcat(f, s, Hits(at, n - 1), [Hit(at)]);
      RunOne(f, AfterHits(f, s, at, n - 1), Hit(at));
    }
  }

  /** From `s` to `t`, `n` hits at time `at` were counted and passed. */
  ghost predicate Passed(s: State, t: State, at: int, n: nat, lo: int, hi: int) {
    && s.counter.Some? && t.counter == Some(s.counter.value.(count := s.counter.value.count + n))
    && CountBetween(t.passes, lo, hi) == CountBetween(s.passes, lo, hi) + n
    && t.now == (if n == 0 then s.now else at)
  }

  lemma PassedOneMore(f: Config, s: State, t: State, at: int, n: nat, lo: int, hi: int)
    requires Passed(s, t, at, n, lo, hi) && Alive(s.counter, at) && s.counter.value.count + n < f.limit
    requires s.now <= at && lo <= at <= hi
    ensures Passed(s, Step(f, t, Hit(at)), at, n + 1, lo, hi)
  {
    var u := Step(f, t, Hit(at));
    assert u.passes == t.passes + [Pass(at, u.window)];
    assert u.passes[..|t.passes|] == t.passes;
  }

  lemma {:induction false} HitsPass(f: Config, s: State, at: int, n: nat, lo: int, hi: int)
    requires Alive(s.counter, at) && s.counter.value.count + n <= f.limit && s.now <= at && lo <= at <= hi
    ensures Passed(s, AfterHits(f, s, at, n), at, n, lo, hi)
  {
    if n > 0 {
      HitsPass(f, s, at, n - 1, lo, hi);
      PassedOneMore(f, s, AfterHits(f, s, at, n - 1), at, n - 1, lo, hi);
    }
  }

  /** A burst within the limit passes whole. */
  lemma BurstPasses(f: Config, s: State, at: int, n: nat, lo: int, hi: int)
    requires Alive(s.counter, at) && s.counter.value.count + n <= f.limit && s.now <= at && lo <= at <= hi
    ensures Possible(f, s, Hits(at, n)) && Passed(s, Run(f, s, Hits(at, n)), at, n, lo, hi)
  {
    HitsRun(f, s, at, n);
    HitsPass(f, s, at, n, lo, hi);
  }

  /** One window: the hit that opens it, its deadline, and the rest of the burst. */
  function Burst(at: int, n: nat): seq<Event> {
    [Hit(at), Arm(at)] + Hits(at, n)
  }

  lemma WindowBurst(f: Config, s: State, at: int, lo: int, hi: int)
    requires f.limit > 0 && f.window > 0 && !Alive(s.counter, at) && s.now <= at && lo <= at <= hi
    ensures Possible(f, s, Burst(at, f.limit - 1))
    ensures var t := Run(f, s, Burst(at, f.limit - 1));
      && CountBetween(t.passes, lo, hi) == CountBetween(s.passes, lo, hi) + f.limit
      && t.counter == Some(Counter(f.limit, Some(at + f.window))) && t.now == at
  {
    var t := Step(f, s, Hit(at));
    var u := Step(f, t, Arm(at));
    assert t.passes == s.passes + [Pass(at, t.window)];
    assert t.passes[..|s.passes|] == s.passes;
    var es := Burst(at, f.limit - 1);
    assert es[1..][0] == Arm(at) && es[1..][1..] == Hits(at, f.limit - 1);
    BurstPasses(f, u, at, f.limit - 1, lo, hi);
  }

  /** For every limit and window some run reaches twice the limit: the bound cannot be improved. */
  lemma TwiceIsReached(f: Config)
    requires f.limit > 0 && f.window > 0
    ensures var es := Burst(0, f.limit - 1) + Burst(f.window, f.limit - 1);
      Possible(f, Fresh(0), es) && CountBetween(Run(f, Fresh(0), es).passes, 0, f.window) == 2 * f.limit
  {
    var a, b := Burst(0, f.limit - 1), Burst(f.window, f.limit - 1);
    WindowBurst(f, Fresh(0), 0, 0, f.window);
    WindowBurst(f, Run(f, Fresh(0), a), f.window, 0, f.window);
    RunConcat(f, Fresh(0), a, b);
  }

  // ---- a deadline that is never set --------------------------------------------------------------------

  /**
  The limiter is meant never to lock anyone out by its own failure. It does when the EXPIRE call is
  the one that fails: the count then stands forever, and once it has reached the limit no hit passes
  again, however late. With a deadline set, every hit at or after it passes.
  */
  lemma {:induction false} LostDeadlineLocksOut(f: Config, s: State, es: seq<Event>)
    requires s.counter.Some? && s.counter.value.deadline.None? && s.counter.value.count >= f.limit
    requires forall e | e in es :: e.Hit?
    ensures Run(f, s, es).passes == s.passes
    decreases es
  {
    if es != [] {
      assert es[0] in es;
      LostDeadlineLocksOut(f, Step(f, s, es[0]), es[1..]);
    }
  }

  /** Such a state needs one lost EXPIRE: a burst up to the limit whose first caller never sets the deadline. */
  lemma FullWithoutDeadlineIsReachable(f: Config)
    requires f.limit > 0
    ensures var es := [Hit(0)] + Hits(0, f.limit - 1);
      Possible(f, Fresh(0), es) && Run(f, Fresh(0), es).counter == Some(Counter(f.limit, None))
  {
    var t := Step(f, Fresh(0), Hit(0));
    assert t.counter == Some(Counter(1, None)) && t.now == 0;
    RunOne(f, Fresh(0), Hit(0));
    RunConcat(f, Fresh(0), [Hit(0)], Hits(0, f.limit - 1));
    BurstPasses(f, t, 0, f.limit - 1, 0, 0);
  }

  /** A later hit passes exactly when the count is below the limit or the deadline was set and is over. */
  lemma PassesIff(f: Config, s: State, at: int)
    requires f.limit > 0 && s.counter.Some?
    ensures |Step(f, s, Hit(at)).passes| == |s.passes| + 1 <==>
      (s.counter.value.count < f.limit || (s.counter.value.deadline.Some? && s.counter.value.deadline.value <= at))
  {
  }

  // ---- the call ----------------------------------------------------------------------------------------

  type Key = string

  /** `ratelimit:{scope}:{identifier}`. */
  function KeyOf(scope: string, identifier: string): Key {
    "ratelimit:" + scope + ":" + identifier
  }

  /** Scopes hold no colon (`auth_ip`, `auth_email`), so callers share a counter only when they mean to. */
  lemma KeyIsInjective(scope: string, id: string, scope': string, id': string)
    requires ':' !in scope && ':' !in scope' && KeyOf(scope, id) == KeyOf(scope', id')
    ensures scope == scope' && id == id'
  {
    var k := KeyOf(scope, id);
    var m, n := |scope|, |scope'|;
    assert k == "ratelimit:" + (scope + ":" + id) == "ratelimit:" + (scope' + ":" + id');
    var rest := scope + ":" + id;
    assert rest == k[10..] == scope' + ":" + id';
    assert rest[m] == ':' && rest[n] == ':';
    assert forall i | 0 <= i < m :: rest[i] == scope[i];
    assert forall i | 0 <= i < n :: rest[i] == scope'[i];
    assert m == n;
    assert scope == rest[..m] == scope';
    assert id == rest[m + 1..] == id';
  }

  datatype Error = RateLimited

  /** Which Redis calls answer. */
  datatype Redis = Up | IncrFails | ExpireFails

  function Or(given: Option<int>, default: int): int {
    if given.Some? then given.value else default
  }

  class Limiter {
    var counters: map<Key, Counter>
    const defaults: Config

    constructor (defaults: Config)
      ensures this.defaults == defaults && counters == map[]
    {
      this.defaults, this.counters := defaults, map[];
    }

    ghost function CounterOf(k: Key): Option<Counter>
      reads this
    {
      if k in counters then Some(counters[k]) else None
    }

    /**
    Counts one hit and refuses it past the limit; a blank identifier, a limit of zero or a Redis
    failure lets it pass.
    */
    method Enforce(scope: string, identifier: Option<string>, limit: Option<int>, window: Option<int>,
        now: int, redis: Redis)
      returns (r: Result<(), Error>)
      modifies this
      ensures var f := Config(if limit.Some? then limit.value else defaults.limit,
                              if window.Some? then window.value else defaults.window);
        if identifier.None? || identifier.value == "" || f.limit <= 0 || redis.IncrFails? then
          r.Ok? && counters == old(counters)
        else
          var k := KeyOf(scope, identifier.value);
          var was := old(CounterOf(k));
          var s := State(was, 0, now, now, []);
          var hit := Step(f, s, Hit(now));
          && k in counters && counters == old(counters)[k := counters[k]]
          && (var arms := hit.counter.value.count == 1 && redis.Up?;
              CounterOf(k) == if arms then Step(f, hit, Arm(now)).counter else hit.counter)
          && (r.Ok? <==> hit.passes != [])
    {
      if identifier.None? || identifier.value == "" {
        return Ok(());
      }
      var cap, seconds := Or(limit, defaults.limit), Or(window, defaults.window);
      if cap <= 0 || redis.IncrFails? {
        return Ok(());
      }
      var k := KeyOf(scope, identifier.value);
      var c := Incr(if k in counters then Some(counters[k]) else None, now);
      counters := counters[k := c];
      if c.count == 1 {
        if redis.ExpireFails? {
          return Ok(());
        }
        counters := counters[k := c.(deadline := Some(now + seconds))];
      }
      r := if c.count > cap then Err(RateLimited) else Ok(());
    }
  }
}
