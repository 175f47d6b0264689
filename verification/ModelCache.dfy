/**
The LRU cache of loaded models (adapta/core/model_manager.py).

`Cache` is the value of the manager's three dictionaries; `ModelManager` is the object that
changes them, with the two eviction loops written as loops. Every method is tied to a function
on `Cache`, and the lemmas below say what those functions achieve: which entries survive, and
that the count cap and the memory budget are met.
*/
module ModelCache {
  import opened Prelude

  /** A cache key: the serving name, or the name, a separator and the adapter path. */
  datatype Key = Key(text: string)

  type Instance = nat
  type Lock = nat

  const SEPARATOR := "::lora::"

  /** An absent and an empty adapter path both mean "no adapter". */
  function CacheKey(name: string, adapter: Option<string>): Key {
    Key(if adapter.None? || adapter.value == "" then name else name + SEPARATOR + adapter.value)
  }

  /** Base-only serving and each base+LoRA variant have different keys. Catalog names hold no colon. */
  lemma CacheKeyInjective(n1: string, a1: Option<string>, n2: string, a2: Option<string>)
    requires ':' !in n1 && ':' !in n2
    requires a1 != Some("") && a2 != Some("")
    ensures CacheKey(n1, a1) == CacheKey(n2, a2) <==> n1 == n2 && a1 == a2
  {
    var k1, k2 := CacheKey(n1, a1).text, CacheKey(n2, a2).text;
    if k1 == k2 {
      assert a1.Some? ==> k1[|n1|] == ':';
      assert a2.Some? ==> k2[|n2|] == ':';
      assert forall i :: 0 <= i < |n1| ==> k1[i] == n1[i];
      assert forall i :: 0 <= i < |n2| ==> k2[i] == n2[i];
      assert |n1| == |n2|;
      assert n1 == k1[..|n1|] == n2;
      if a1.Some? {
        assert a1.value == k1[|n1| + |SEPARATOR|..];
      }
      if a2.Some? {
        assert a2.value == k2[|n2| + |SEPARATOR|..];
      }
    }
  }

  /** `order` lists the keys least recently used first, as the `OrderedDict` does. */
  datatype Cache = Cache(order: seq<Key>, inst: map<Key, Instance>, locks: map<Key, Lock>)

  ghost predicate WellFormed(c: Cache) {
    Distinct(c.order) && c.inst.Keys == Elements(c.order)
  }

  /** The limits a manager runs under. `cost` is 0 everywhere when there is no budget. */
  datatype Limits = Limits(cap: nat, budget: Option<nat>, cost: Key -> nat)

  /** Cost of the listed models, leaving out the one being (re)loaded. */
  function Used(order: seq<Key>, cost: Key -> nat, skip: Option<Key>): nat {
    if order == [] then 0
    else (if skip == Some(order[0]) then 0 else cost(order[0])) + Used(order[1..], cost, skip)
  }

  predicate InBudget(order: seq<Key>, lim: Limits, skip: Option<Key>, extra: nat) {
    lim.budget.Some? ==> Used(order, lim.cost, skip) + extra <= lim.budget.value
  }

  /** `key` can be allocated beside `order`. A key that is already cached adds no entry. */
  predicate Fits(order: seq<Key>, key: Key, counted: bool, lim: Limits) {
    && (counted ==> |order| + 1 <= lim.cap)
    && InBudget(order, lim, Some(key), lim.cost(key))
  }

  predicate TooLarge(key: Key, lim: Limits) {
    lim.budget.Some? && lim.cost(key) > lim.budget.value
  }

  /** How many least recently used entries go before `key` fits. */
  function EvictionPoint(order: seq<Key>, key: Key, counted: bool, lim: Limits): (j: nat)
    ensures j <= |order|
  {
    if order == [] || Fits(order, key, counted, lim) then 0
    else 1 + EvictionPoint(order[1..], key, counted, lim)
  }

  /** `popitem(last=False)`: the least recently used entry goes with its lock; a reloaded key keeps its lock. */
  function Pop(c: Cache, reloaded: Option<Key>): Cache
    requires c.order != []
  {
    var k := c.order[0];
    Cache(c.order[1..], c.inst - {k}, if reloaded == Some(k) then c.locks else c.locks - {k})
  }

  function Drop(c: Cache, n: nat, reloaded: Option<Key>): Cache
    requires n <= |c.order|
    decreases n
  {
    if n == 0 then c else Drop(Pop(c, reloaded), n - 1, reloaded)
  }

  /** The cache `load_model` allocates beside. */
  function Room(c: Cache, key: Key, lim: Limits): Cache {
    Drop(c, EvictionPoint(c.order, key, key !in c.order, lim), Some(key))
  }

  function CountPoint(order: seq<Key>, cap: nat): (n: nat)
    ensures n <= |order|
  {
    if |order| < cap || cap == 0 then (if cap == 0 then |order| else 0) else |order| + 1 - cap
  }

  function Remove(order: seq<Key>, key: Key): seq<Key> {
    if order == [] then []
    else if order[0] == key then order[1..]
    else [order[0]] + Remove(order[1..], key)
  }

  function Touch(c: Cache, key: Key): Cache {
    c.(order := Remove(c.order, key) + [key])
  }

  /** The tail of `load_model`, after the allocation returned `model`. */
  function Install(c: Cache, key: Key, model: Instance, cap: nat): Cache {
    var c' := if key in c.order then c else Drop(c, CountPoint(c.order, cap), None);
    Touch(c'.(inst := c'.inst[key := model]), key)
  }

  function Unload(c: Cache, key: Key): Cache {
    if key in c.order then Cache(Remove(c.order, key), c.inst - {key}, c.locks - {key}) else c
  }

  /** `get_inference_lock`: the lock of a key, created on first use. */
  function WithLock(c: Cache, key: Key, next: Lock): Cache {
    if key in c.locks then c else c.(locks := c.locks[key := next])
  }

  // ---- what eviction achieves ------------------------------------------------------------

  /**
  The survivors are exactly the longest most-recently-used suffix that meets the count cap and
  the budget with the new model added.
  */
  lemma {:induction false} SurvivorsAreLongestFittingSuffix(order: seq<Key>, key: Key, counted: bool, lim: Limits)
    requires lim.cap >= 1 && !TooLarge(key, lim)
    ensures Fits(order[EvictionPoint(order, key, counted, lim)..], key, counted, lim)
    ensures forall i :: 0 <= i < EvictionPoint(order, key, counted, lim) ==> !Fits(order[i..], key, counted, lim)
    ensures forall i :: EvictionPoint(order, key, counted, lim) <= i <= |order| ==> Fits(order[i..], key, counted, lim)
  {
    var j := EvictionPoint(order, key, counted, lim);
    assert order[0..] == order;
    if order == [] {
    } else if Fits(order, key, counted, lim) {
      forall i | 0 <= i <= |order|
        ensures Fits(order[i..], key, counted, lim)
      {
        UsedSuffix(order, i, lim.cost, Some(key));
      }
    } else {
      var rest := order[1..];
      SurvivorsAreLongestFittingSuffix(rest, key, counted, lim);
      forall i | 1 <= i <= |order|
        ensures order[i..] == rest[i - 1..]
      {
      }
      forall i | 0 <= i < j
        ensures !Fits(order[i..], key, counted, lim)
      {
        if i > 0 {
          assert order[i..] == rest[i - 1..];
        }
      }
      forall i | j <= i <= |order|
        ensures Fits(order[i..], key, counted, lim)
      {
        assert order[i..] == rest[i - 1..];
      }
    }
  }

  lemma {:induction false} UsedSuffix(order: seq<Key>, i: nat, cost: Key -> nat, skip: Option<Key>)
    requires i <= |order|
    ensures Used(order[i..], cost, skip) <= Used(order, cost, skip)
  {
    if i == 0 {
      assert order[0..] == order;
    } else {
      UsedSuffix(order[1..], i - 1, cost, skip);
      assert order[i..] == order[1..][i - 1..];
    }
  }

  lemma {:induction false} UsedAppend(order: seq<Key>, key: Key, cost: Key -> nat, skip: Option<Key>)
    ensures Used(order + [key], cost, skip) == Used(order, cost, skip) + (if skip == Some(key) then 0 else cost(key))
  {
    if order == [] {
      assert order + [key] == [key];
    } else {
      UsedAppend(order[1..], key, cost, skip);
      assert (order + [key])[1..] == order[1..] + [key];
    }
  }

  /** Removing the reloaded key from the list and skipping its cost are the same. */
  lemma {:induction false} UsedRemove(order: seq<Key>, key: Key, cost: Key -> nat)
    requires Distinct(order)
    ensures Used(Remove(order, key), cost, None) == Used(order, cost, Some(key))
    ensures Used(order, cost, None) == Used(order, cost, Some(key)) + (if key in order then cost(key) else 0)
  {
    if order != [] {
      UsedRemove(order[1..], key, cost);
      if order[0] == key {
        assert key !in order[1..];
        RemoveAbsent(order[1..], key);
      } else {
        assert Remove(order, key)[1..] == Remove(order[1..], key);
      }
    }
  }

  lemma {:induction false} UsedRemoveSkip(order: seq<Key>, key: Key, cost: Key -> nat, skip: Option<Key>)
    ensures Used(Remove(order, key), cost, skip) <= Used(order, cost, skip)
  {
    if order != [] && order[0] != key {
      UsedRemoveSkip(order[1..], key, cost, skip);
      assert Remove(order, key)[1..] == Remove(order[1..], key);
    }
  }

  lemma {:induction false} RemoveAbsent(order: seq<Key>, key: Key)
    requires key !in order
    ensures Remove(order, key) == order
  {
    if order != [] {
      RemoveAbsent(order[1..], key);
    }
  }

  /** Taking a key out leaves the others in their order. */
  lemma {:induction false} RemoveKeepsOrder(order: seq<Key>, key: Key) returns (i: nat)
    requires key in order
    ensures i < |order| && order[i] == key && key !in order[..i] && Remove(order, key) == order[..i] + order[i + 1..]
  {
    if order[0] == key {
      i := 0;
    } else {
      assert key in order[1..];
      var j := RemoveKeepsOrder(order[1..], key);
      i := j + 1;
      assert order[..i] == [order[0]] + order[1..][..j] && order[i + 1..] == order[1..][j + 1..];
    }
  }

  lemma {:induction false} RemoveElements(order: seq<Key>, key: Key)
    requires Distinct(order)
    ensures Distinct(Remove(order, key)) && key !in Remove(order, key)
    ensures Elements(Remove(order, key)) == Elements(order) - {key}
    ensures |Remove(order, key)| == |order| - (if key in order then 1 else 0)
    ensures forall k :: k in Remove(order, key) ==> k in order
  {
    if order != [] {
      var rest := order[1..];
      RemoveElements(rest, key);
      ElementsMember(rest, order[0]);
      if order[0] != key {
        assert Remove(order, key)[1..] == Remove(rest, key);
      }
    }
  }

  lemma TouchKeeps(c: Cache, key: Key)
    requires WellFormed(c) && key in c.order
    ensures WellFormed(Touch(c, key))
    ensures |Touch(c, key).order| == |c.order|
  {
    RemoveElements(c.order, key);
    ElementsMember(c.order, key);
    ElementsAppend(Remove(c.order, key), key);
  }

  lemma PopKeeps(c: Cache, reloaded: Option<Key>)
    requires WellFormed(c) && c.order != []
    ensures WellFormed(Pop(c, reloaded))
  {
    ElementsMember(c.order[1..], c.order[0]);
  }

  lemma {:induction false} DropOrder(c: Cache, n: nat, reloaded: Option<Key>)
    requires n <= |c.order|
    ensures Drop(c, n, reloaded).order == c.order[n..]
    ensures WellFormed(c) ==> WellFormed(Drop(c, n, reloaded))
    decreases n
  {
    if n > 0 {
      DropOrder(Pop(c, reloaded), n - 1, reloaded);
      assert c.order[1..][n - 1..] == c.order[n..];
      if WellFormed(c) {
        PopKeeps(c, reloaded);
      }
    }
  }

  ghost predicate SubMap<V(!new)>(m: map<Key, V>, m': map<Key, V>) {
    forall k :: k in m ==> k in m' && m[k] == m'[k]
  }

  /**
  What `n` evictions leave: no instance or lock changes, every survivor keeps its lock, and each
  evicted entry goes with its lock, but for a key being reloaded, which keeps it.
  */
  lemma {:induction false} DropKeeps(c: Cache, n: nat, reloaded: Option<Key>)
    requires n <= |c.order|
    ensures var d := Drop(c, n, reloaded);
      && SubMap(d.inst, c.inst) && SubMap(d.locks, c.locks)
      && (forall k :: k in d.inst && k in c.locks ==> k in d.locks)
      && (forall k :: k in c.order[..n] ==> k !in d.inst && (reloaded != Some(k) ==> k !in d.locks))
      && (forall k :: k in c.locks && (k !in c.order[..n] || reloaded == Some(k)) ==> k in d.locks)
    decreases n
  {
    if n > 0 {
      DropKeeps(Pop(c, reloaded), n - 1, reloaded);
      assert c.order[..n] == [c.order[0]] + c.order[1..][..n - 1];
    }
  }

  lemma {:induction false} DropUnreloaded(c: Cache, n: nat, key: Key)
    requires n <= |c.order| && key !in c.order
    ensures Drop(c, n, None) == Drop(c, n, Some(key))
    decreases n
  {
    if n > 0 {
      DropUnreloaded(Pop(c, None), n - 1, key);
    }
  }

  lemma {:induction false} DropDrop(c: Cache, n: nat, m: nat, reloaded: Option<Key>)
    requires n + m <= |c.order|
    ensures |Drop(c, n, reloaded).order| == |c.order| - n
    ensures Drop(Drop(c, n, reloaded), m, reloaded) == Drop(c, n + m, reloaded)
    decreases n
  {
    if n > 0 {
      DropDrop(Pop(c, reloaded), n - 1, m, reloaded);
    }
  }

  /** The count loop never overshoots: it stops at or before the point where the new model fits. */
  lemma {:induction false} CountThenBudget(order: seq<Key>, key: Key, lim: Limits)
    requires lim.cap >= 1
    ensures var n := CountPoint(order, lim.cap);
      EvictionPoint(order, key, true, lim) == n + EvictionPoint(order[n..], key, true, lim)
  {
    assert order[0..] == order;
    if |order| >= lim.cap {
      var rest, n := order[1..], CountPoint(order, lim.cap);
      CountThenBudget(rest, key, lim);
      assert CountPoint(rest, lim.cap) == n - 1;
      assert rest[n - 1..] == order[n..];
      assert EvictionPoint(order, key, true, lim) == 1 + EvictionPoint(rest, key, true, lim);
    }
  }

  lemma InstallKeeps(c: Cache, key: Key, model: Instance, cap: nat)
    requires WellFormed(c) && cap >= 1
    requires key !in c.order ==> |c.order| + 1 <= cap
    ensures WellFormed(Install(c, key, model, cap))
    ensures Install(c, key, model, cap).order == Remove(c.order, key) + [key]
    ensures Install(c, key, model, cap).inst == c.inst[key := model]
    ensures Install(c, key, model, cap).locks == c.locks
  {
    RemoveElements(c.order, key);
    ElementsAppend(Remove(c.order, key), key);
  }

  /** Unloading takes the entry and its lock and nothing else; unloading what is not there does nothing. */
  lemma UnloadKeeps(c: Cache, key: Key)
    requires WellFormed(c)
    ensures var u := Unload(c, key);
      && WellFormed(u) && key !in u.order && u.inst == c.inst - {key}
      && u.locks == (if key in c.order then c.locks - {key} else c.locks)
  {
    RemoveElements(c.order, key);
    ElementsMember(c.order, key);
  }

  lemma EvictionStep(c: Cache, key: Key, counted: bool, lim: Limits)
    requires WellFormed(c) && c.order != [] && !Fits(c.order, key, counted, lim)
    ensures var p := Pop(c, Some(key));
      && WellFormed(p)
      && Drop(c, EvictionPoint(c.order, key, counted, lim), Some(key))
         == Drop(p, EvictionPoint(p.order, key, counted, lim), Some(key))
  {
    PopKeeps(c, Some(key));
  }

  lemma CountedRoom(c: Cache, key: Key, lim: Limits)
    requires WellFormed(c) && lim.cap >= 1 && key !in c.order
    ensures var d := Drop(c, CountPoint(c.order, lim.cap), None);
      && (|d.order| + 1 <= lim.cap)
      && Drop(d, EvictionPoint(d.order, key, true, lim), Some(key)) == Room(c, key, lim)
  {
    var n := CountPoint(c.order, lim.cap);
    DropOrder(c, n, None);
    DropUnreloaded(c, n, key);
    CountThenBudget(c.order, key, lim);
    DropDrop(c, n, EvictionPoint(c.order[n..], key, true, lim), Some(key));
  }

  /** For a load, what survives eviction is the longest most-recently-used suffix the model fits beside. */
  lemma RoomKeepsLongestSuffix(c: Cache, key: Key, lim: Limits)
    requires WellFormed(c) && lim.cap >= 1 && !TooLarge(key, lim)
    ensures var r := Room(c, key, lim); var gone := |c.order| - |r.order|;
      && 0 <= gone && r.order == c.order[gone..] && WellFormed(r)
      && Fits(r.order, key, key !in c.order, lim)
      && (forall i :: 0 <= i < gone ==> !Fits(c.order[i..], key, key !in c.order, lim))
  {
    var counted := key !in c.order;
    SurvivorsAreLongestFittingSuffix(c.order, key, counted, lim);
    DropOrder(c, EvictionPoint(c.order, key, counted, lim), Some(key));
  }

  // ---- the manager object ----------------------------------------------------------------

  datatype LoadError = ModelTooLargeForMemory

  class ModelManager {
    const limits: Limits
    var order: seq<Key>
    var inst: map<Key, Instance>
    var locks: map<Key, Lock>
    var costs: map<Key, nat>
    var nextLock: Lock

    ghost predicate Valid()
      reads this
    {
      && limits.cap >= 1
      && WellFormed(View())
      && (forall k :: k in inst ==> k in costs && costs[k] == limits.cost(k))
    }

    ghost function View(): Cache
      reads this
    {
      Cache(order, inst, locks)
    }

    constructor (limits: Limits)
      requires limits.cap >= 1
      ensures Valid() && this.limits == limits && View() == Cache([], map[], map[])
    {
      this.limits := limits;
      order, inst, locks, costs, nextLock := [], map[], map[], map[], 0;
    }

    /** The count-cap loop: pop the least recently used entry while there is no room for one more. */
    method EvictLruIfNeeded()
      requires Valid()
      modifies this`order, this`inst, this`locks
      ensures Valid()
      ensures View() == Drop(old(View()), CountPoint(old(order), limits.cap), None)
    {
      ghost var was := View();
      while |order| >= limits.cap
        invariant Valid()
        invariant Drop(View(), CountPoint(order, limits.cap), None)
               == Drop(was, CountPoint(was.order, limits.cap), None)
        decreases |order|
      {
        PopKeeps(View(), None);
        var oldKey := order[0];
        order, inst, locks := order[1..], inst - {oldKey}, locks - {oldKey};
      }
    }

    /** The cost of every cached model but `key`, summed as `_make_room_for` does. */
    method SumUsed(key: Key) returns (used: nat)
      requires Valid()
      ensures used == Used(order, limits.cost, Some(key))
    {
      used := 0;
      var i := |order|;
      while i > 0
        invariant 0 <= i <= |order|
        invariant used == Used(order[i..], limits.cost, Some(key))
      {
        i := i - 1;
        ElementsMember(order, order[i]);
        assert order[i..][1..] == order[i + 1..];
        if order[i] != key {
          used := used + costs[order[i]];
        }
      }
      assert order[0..] == order;
    }

    /** The budget loop: pop until the incoming model fits beside what is left. */
    method EvictForBudget(key: Key, ghost counted: bool)
      requires Valid() && !TooLarge(key, limits)
      requires counted ==> |order| + 1 <= limits.cap
      modifies this`order, this`inst, this`locks
      ensures Valid()
      ensures View() == Drop(old(View()), EvictionPoint(old(order), key, counted, limits), Some(key))
    {
      ghost var target := Drop(View(), EvictionPoint(order, key, counted, limits), Some(key));
      while limits.budget.Some? && |order| > 0
        invariant Valid()
        invariant counted ==> |order| + 1 <= limits.cap
        invariant Drop(View(), EvictionPoint(order, key, counted, limits), Some(key)) == target
        decreases |order|
      {
        var used := SumUsed(key);
        if used + limits.cost(key) <= limits.budget.value {
          return;
        }
        EvictionStep(View(), key, counted, limits);
        var oldKey := order[0];
        order, inst := order[1..], inst - {oldKey};
        if oldKey != key {
          locks := locks - {oldKey};
        }
      }
    }

    /**
    Evict before the allocation: the count cap for a new key, then the budget. A model that
    cannot fit alone is refused and nothing is evicted.
    */
    method MakeRoomFor(key: Key) returns (r: Result<(), LoadError>)
      requires Valid()
      modifies this`order, this`inst, this`locks, this`costs
      ensures Valid() && key in costs && costs[key] == limits.cost(key)
      ensures r.Err? <==> TooLarge(key, limits)
      ensures r.Err? ==> View() == old(View())
      ensures r.Ok? ==> View() == Room(old(View()), key, limits)
    {
      ghost var was := View();
      var cost := limits.cost(key);
      costs := costs[key := cost];
      if limits.budget.Some? && cost > limits.budget.value {
        return Err(ModelTooLargeForMemory);
      }
      if key !in order {
        EvictLruIfNeeded();
        CountedRoom(was, key, limits);
      }
      EvictForBudget(key, key !in was.order);
      return Ok(());
    }

    /** The tail of a load. If a new key finds the cache full again, the count loop makes room once more. */
    method InstallModel(key: Key, model: Instance)
      requires Valid()
      requires key in costs && costs[key] == limits.cost(key)
      modifies this`order, this`inst, this`locks
      ensures Valid() && View() == Install(old(View()), key, model, limits.cap)
      ensures order[|order| - 1] == key && key in inst && inst[key] == model
      ensures if key in old(order) then |order| == |old(order)| else |order| <= limits.cap
      ensures key in old(order) || |old(order)| + 1 <= limits.cap ==>
        order == Remove(old(order), key) + [key] && inst == old(inst)[key := model] && locks == old(locks)
    {
      ghost var was := View();
      if key !in order {
        EvictLruIfNeeded();
        DropOrder(was, CountPoint(was.order, limits.cap), None);
      }
      InstallKeeps(View(), key, model, limits.cap);
      RemoveElements(order, key);
      inst := inst[key := model];
      order := Remove(order, key) + [key];
    }

    /** Serve a cached key: mark it most recently used and pair its instance with its lock. */
    method PrepareCached(key: Key) returns (model: Instance, lock: Lock)
      requires Valid() && key in order
      modifies this`order, this`locks, this`nextLock
      ensures Valid() && View() == WithLock(Touch(old(View()), key), key, old(nextLock))
      ensures key in inst && model == inst[key] && key in locks && lock == locks[key]
      ensures order[|order| - 1] == key && inst == old(inst)
      ensures key in old(locks) ==> locks == old(locks)
      ensures key !in old(locks) ==> locks == old(locks)[key := old(nextLock)] && nextLock == old(nextLock) + 1
    {
      TouchKeeps(View(), key);
      ElementsMember(order, key);
      order := Remove(order, key) + [key];
      if key !in locks {
        locks := locks[key := nextLock];
        nextLock := nextLock + 1;
      }
      model, lock := inst[key], locks[key];
    }

    method UnloadModel(key: Key) returns (wasLoaded: bool)
      requires Valid()
      modifies this`order, this`inst, this`locks
      ensures Valid() && View() == Unload(old(View()), key)
      ensures wasLoaded == (key in old(order)) && key !in order && key !in inst
      ensures inst == old(inst) - {key} && locks == if wasLoaded then old(locks) - {key} else old(locks)
    {
      UnloadKeeps(View(), key);
      wasLoaded := key in order;
      if wasLoaded {
        order, inst, locks := Remove(order, key), inst - {key}, locks - {key};
      }
    }
  }
}
