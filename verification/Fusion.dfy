/**
Reciprocal Rank Fusion with content-derived ties (adapta/services/rag.py).

Scores are exact reals; `round` stands for rounding to 12 places and is arbitrary except where a
lemma asks for monotonicity.
*/
module Fusion {
  import opened Prelude

  datatype Id = Id(text: string)

  /** Chunk ids, best first. */
  datatype Ranking = Ranking(ids: seq<Id>)

  /** (filename, chunk_index): the same for identically built projects, unlike the id. */
  datatype Tie = Tie(source: string, index: int)

  // ---- orders ----------------------------------------------------------------------------------

  /** Python's order on strings: by code point, a proper prefix first. */
  predicate LexLess(a: string, b: string) {
    if b == [] then false
    else if a == [] then true
    else a[0] < b[0] || (a[0] == b[0] && LexLess(a[1..], b[1..]))
  }

  lemma {:induction false} LexTotal(a: string, b: string)
    ensures LexLess(a, b) || LexLess(b, a) || a == b
    ensures !(LexLess(a, b) && LexLess(b, a)) && !LexLess(a, a)
  {
    if a != [] {
      LexTotal(a[1..], a[1..]);
      if b != [] && a[0] == b[0] {
        LexTotal(a[1..], b[1..]);
        assert a[1..] == b[1..] ==> a == [a[0]] + a[1..] == b;
      }
    }
  }

  lemma {:induction false} LexTransitive(a: string, b: string, c: string)
    requires LexLess(a, b) && LexLess(b, c)
    ensures LexLess(a, c)
  {
    if a != [] && a[0] == b[0] == c[0] {
      LexTransitive(a[1..], b[1..], c[1..]);
    }
  }

  /** `a` and `b` agree on their first `n` characters; then `a` ends, or has the lower code point. */
  ghost predicate DiffersAt(a: string, b: string, n: nat) {
    && n <= |a| && n < |b| && a[..n] == b[..n]
    && (n == |a| || a[n] < b[n])
  }

  /** That is the order of strings, both ways. */
  lemma {:induction false} LexMeans(a: string, b: string)
    ensures LexLess(a, b) <==> exists n: nat :: DiffersAt(a, b, n)
  {
    if b != [] && a != [] {
      LexMeans(a[1..], b[1..]);
      if LexLess(a, b) {
        if a[0] < b[0] {
          assert DiffersAt(a, b, 0);
        } else {
          var n: nat :| DiffersAt(a[1..], b[1..], n);
          assert a[..n + 1] == [a[0]] + a[1..][..n] && b[..n + 1] == [b[0]] + b[1..][..n];
          assert DiffersAt(a, b, n + 1);
        }
      }
      if n: nat :| DiffersAt(a, b, n) {
        if n > 0 {
          assert a[0] == a[..n][0] == b[0];
          assert a[1..][..n - 1] == a[..n][1..] && b[1..][..n - 1] == b[..n][1..];
          assert DiffersAt(a[1..], b[1..], n - 1);
        }
      }
    } else if b != [] {
      assert DiffersAt(a, b, 0);
    }
  }

  /** The empty tuple sorts before every pair. */
  predicate TieLess(a: Option<Tie>, b: Option<Tie>) {
    match (a, b)
    case (None, b) => b.Some?
    case (Some(_), None) => false
    case (Some(x), Some(y)) => LexLess(x.source, y.source) || (x.source == y.source && x.index < y.index)
  }

  /** What `sorted` compares: the rounded score (greater first), the tie key, the id. */
  datatype SortKey = SortKey(score: real, tie: Option<Tie>, id: Id)

  predicate KeyLess(a: SortKey, b: SortKey) {
    || a.score > b.score
    || (a.score == b.score && TieLess(a.tie, b.tie))
    || (a.score == b.score && a.tie == b.tie && LexLess(a.id.text, b.id.text))
  }

  lemma TieTotal(a: Option<Tie>, b: Option<Tie>)
    ensures TieLess(a, b) || TieLess(b, a) || a == b
    ensures !(TieLess(a, b) && TieLess(b, a))
  {
    if a.Some? && b.Some? {
      LexTotal(a.value.source, b.value.source);
    }
  }

  lemma TieTransitive(a: Option<Tie>, b: Option<Tie>, c: Option<Tie>)
    requires TieLess(a, b) && TieLess(b, c)
    ensures TieLess(a, c)
  {
    if a.Some? {
      var x, y, z := a.value.source, b.value.source, c.value.source;
      if LexLess(x, y) && LexLess(y, z) {
        LexTransitive(x, y, z);
      }
    }
  }

  lemma KeyTotal(a: SortKey, b: SortKey)
    ensures KeyLess(a, b) || KeyLess(b, a) || a == b
    ensures !(KeyLess(a, b) && KeyLess(b, a))
  {
    TieTotal(a.tie, b.tie);
    LexTotal(a.id.text, b.id.text);
  }

  lemma KeyTransitive(a: SortKey, b: SortKey, c: SortKey)
    requires KeyLess(a, b) && KeyLess(b, c)
    ensures KeyLess(a, c)
  {
    if a.score == b.score == c.score {
      if TieLess(a.tie, b.tie) && TieLess(b.tie, c.tie) {
        TieTransitive(a.tie, b.tie, c.tie);
      } else if a.tie == b.tie == c.tie {
        TieTotal(a.tie, a.tie);
        LexTransitive(a.id.text, b.id.text, c.id.text);
      }
    }
  }

  // ---- scores ----------------------------------------------------------------------------------

  /** What one ranked list gives `id`; `from` is the rank of the list's first entry. */
  function ListScore(ranks: seq<Id>, id: Id, k: nat, from: nat): real {
    if ranks == [] then 0.0
    else (if ranks[0] == id then 1.0 / (k + from + 1) as real else 0.0) + ListScore(ranks[1..], id, k, from + 1)
  }

  function Score(lists: seq<Ranking>, id: Id, k: nat): real {
    if lists == [] then 0.0 else ListScore(lists[0].ids, id, k, 0) + Score(lists[1..], id, k)
  }

  ghost predicate Listed(lists: seq<Ranking>, id: Id) {
    exists i :: 0 <= i < |lists| && id in lists[i].ids
  }

  datatype Config = Config(k: nat, round: real -> real, tie: map<Id, Tie>)

  function KeyOf(lists: seq<Ranking>, cfg: Config, id: Id): SortKey {
    SortKey(cfg.round(Score(lists, id, cfg.k)), if id in cfg.tie then Some(cfg.tie[id]) else None, id)
  }

  ghost predicate Sorted(out: seq<Id>, lists: seq<Ranking>, cfg: Config) {
    forall i, j :: 0 <= i < j < |out| ==> KeyLess(KeyOf(lists, cfg, out[i]), KeyOf(lists, cfg, out[j]))
  }

  /** The union of the lists, each id once, in the order of its key. */
  ghost predicate IsFusion(out: seq<Id>, lists: seq<Ranking>, cfg: Config) {
    && Sorted(out, lists, cfg)
    && (forall id :: id in out <==> Listed(lists, id))
  }

  lemma FusionIsDistinct(out: seq<Id>, lists: seq<Ranking>, cfg: Config)
    requires IsFusion(out, lists, cfg)
    ensures forall i, j :: 0 <= i < j < |out| ==> out[i] != out[j]
  {
    forall i, j | 0 <= i < j < |out|
      ensures out[i] != out[j]
    {
      KeyTotal(KeyOf(lists, cfg, out[i]), KeyOf(lists, cfg, out[j]));
    }
  }

  /** Sorted listings of the same ids under the same keys are the same listing. */
  lemma {:induction false} SortedIsUnique(a: seq<Id>, la: seq<Ranking>, b: seq<Id>, lb: seq<Ranking>, cfg: Config)
    requires Sorted(a, la, cfg) && Sorted(b, lb, cfg)
    requires forall id :: id in a <==> id in b
    requires forall id :: id in a ==> KeyOf(la, cfg, id) == KeyOf(lb, cfg, id)
    ensures a == b
    decreases |a|
  {
    if a == [] {
      SomeMember(b);
    } else {
      assert a[0] in b;
      assert b != [] && b[0] in a;
      FirstIsLeast(a, la, b[0], cfg);
      FirstIsLeast(b, lb, a[0], cfg);
      KeyTotal(KeyOf(la, cfg, a[0]), KeyOf(la, cfg, b[0]));
      var a', b' := a[1..], b[1..];
      forall id
        ensures id in a' <==> id in b'
      {
        TailMember(a, la, id, cfg);
        TailMember(b, lb, id, cfg);
      }
      SortedIsUnique(a', la, b', lb, cfg);
      assert a == [a[0]] + a' && b == [b[0]] + b';
    }
  }

  lemma SomeMember(b: seq<Id>)
    ensures b == [] || exists id :: id in b
  {
    if b != [] {
      assert b[0] in b;
    }
  }

  lemma FirstIsLeast(a: seq<Id>, lists: seq<Ranking>, id: Id, cfg: Config)
    requires a != [] && Sorted(a, lists, cfg) && id in a
    ensures id == a[0] || KeyLess(KeyOf(lists, cfg, a[0]), KeyOf(lists, cfg, id))
  {
    var i :| 0 <= i < |a| && a[i] == id;
  }

  lemma TailMember(a: seq<Id>, lists: seq<Ranking>, id: Id, cfg: Config)
    requires a != [] && Sorted(a, lists, cfg)
    ensures id in a[1..] <==> id in a && id != a[0]
  {
    assert a == [a[0]] + a[1..];
    if id in a[1..] {
      var i :| 1 <= i < |a| && a[i] == id;
      KeyTotal(KeyOf(lists, cfg, a[0]), KeyOf(lists, cfg, a[i]));
    }
  }

  // ---- the lists may come in any order -----------------------------------------------------------

  lemma {:induction false} ScoreWithout(lists: seq<Ranking>, j: nat, id: Id, k: nat)
    requires j < |lists|
    ensures Score(lists, id, k) == ListScore(lists[j].ids, id, k, 0) + Score(lists[..j] + lists[j + 1..], id, k)
  {
    var rest := lists[..j] + lists[j + 1..];
    if j == 0 {
      assert rest == lists[1..];
    } else {
      ScoreWithout(lists[1..], j - 1, id, k);
      assert rest[1..] == lists[1..][..j - 1] + lists[1..][j..];
      assert rest[0] == lists[0];
    }
  }

  lemma WithoutOne(b: seq<Ranking>, j: nat)
    requires j < |b|
    ensures multiset(b[..j] + b[j + 1..]) == multiset(b) - multiset{b[j]}
  {
    assert b == b[..j] + [b[j]] + b[j + 1..];
  }

  lemma Locate(x: Ranking, b: seq<Ranking>) returns (j: nat)
    requires x in multiset(b)
    ensures j < |b| && b[j] == x
  {
    j :| 0 <= j < |b| && b[j] == x;
  }

  lemma SameRest(a: seq<Ranking>, b: seq<Ranking>, j: nat)
    requires multiset(a) == multiset(b) && a != [] && j < |b| && b[j] == a[0]
    ensures multiset(a[1..]) == multiset(b[..j] + b[j + 1..])
  {
    WithoutOne(b, j);
    assert a == [a[0]] + a[1..];
    assert multiset(a) == multiset{a[0]} + multiset(a[1..]);
  }

  lemma {:induction false} ScoreOrderFree(a: seq<Ranking>, b: seq<Ranking>, id: Id, k: nat)
    requires multiset(a) == multiset(b)
    ensures Score(a, id, k) == Score(b, id, k)
    decreases |a|
  {
    if a == [] {
      assert |multiset(b)| == |b|;
    } else {
      assert a[0] in multiset(a);
      var j := Locate(a[0], b);
      var rest := b[..j] + b[j + 1..];
      SameRest(a, b, j);
      ScoreOrderFree(a[1..], rest, id, k);
      ScoreWithout(b, j, id, k);
    }
  }

  /** Over exact arithmetic the fused order does not depend on the order of the lists. */
  lemma FusionOrderFree(a: seq<Ranking>, b: seq<Ranking>, cfg: Config, x: seq<Id>, y: seq<Id>)
    requires multiset(a) == multiset(b)
    requires IsFusion(x, a, cfg) && IsFusion(y, b, cfg)
    ensures x == y
  {
    forall id
      ensures KeyOf(a, cfg, id) == KeyOf(b, cfg, id)
      ensures Listed(a, id) <==> Listed(b, id)
    {
      ScoreOrderFree(a, b, id, cfg.k);
      ListedOrderFree(a, b, id);
      ListedOrderFree(b, a, id);
    }
    SortedIsUnique(x, a, y, b, cfg);
  }

  lemma ListedOrderFree(a: seq<Ranking>, b: seq<Ranking>, id: Id)
    requires multiset(a) == multiset(b)
    ensures Listed(a, id) ==> Listed(b, id)
  {
    if Listed(a, id) {
      var i :| 0 <= i < |a| && id in a[i].ids;
      assert a[i] in multiset(a);
      var j :| 0 <= j < |b| && b[j] == a[i];
    }
  }

  // ---- renaming the ids --------------------------------------------------------------------------

  ghost function RenameAll(ids: seq<Id>, f: Id -> Id): seq<Id> {
    seq(|ids|, i requires 0 <= i < |ids| => f(ids[i]))
  }

  ghost function RenameLists(lists: seq<Ranking>, f: Id -> Id): seq<Ranking> {
    seq(|lists|, i requires 0 <= i < |lists| => Ranking(RenameAll(lists[i].ids, f)))
  }

  ghost predicate Injective(f: Id -> Id) {
    forall a, b :: f(a) == f(b) ==> a == b
  }

  lemma {:induction false} ListScoreRenamed(ids: seq<Id>, f: Id -> Id, id: Id, k: nat, from: nat)
    requires Injective(f)
    ensures ListScore(RenameAll(ids, f), f(id), k, from) == ListScore(ids, id, k, from)
    decreases |ids|
  {
    if ids != [] {
      ListScoreRenamed(ids[1..], f, id, k, from + 1);
      assert RenameAll(ids, f)[1..] == RenameAll(ids[1..], f);
    }
  }

  lemma {:induction false} ScoreRenamed(lists: seq<Ranking>, f: Id -> Id, id: Id, k: nat)
    requires Injective(f)
    ensures Score(RenameLists(lists, f), f(id), k) == Score(lists, id, k)
    decreases |lists|
  {
    if lists != [] {
      ListScoreRenamed(lists[0].ids, f, id, k, 0);
      ScoreRenamed(lists[1..], f, id, k);
      assert RenameLists(lists, f)[1..] == RenameLists(lists[1..], f);
    }
  }

  lemma ListedRenamed(lists: seq<Ranking>, f: Id -> Id, id: Id)
    ensures Listed(RenameLists(lists, f), id) <==> exists x :: Listed(lists, x) && f(x) == id
  {
    var renamed := RenameLists(lists, f);
    if Listed(renamed, id) {
      var i :| 0 <= i < |renamed| && id in renamed[i].ids;
      var j :| 0 <= j < |renamed[i].ids| && renamed[i].ids[j] == id;
      assert lists[i].ids[j] in lists[i].ids && Listed(lists, lists[i].ids[j]) && f(lists[i].ids[j]) == id;
    }
    if exists x :: Listed(lists, x) && f(x) == id {
      var x :| Listed(lists, x) && f(x) == id;
      var i :| 0 <= i < |lists| && x in lists[i].ids;
      var j :| 0 <= j < |lists[i].ids| && lists[i].ids[j] == x;
      assert renamed[i].ids[j] == id;
    }
  }

  /** Every listed chunk has a tie key and no two share one. */
  ghost predicate TiesDecide(lists: seq<Ranking>, tie: map<Id, Tie>) {
    && (forall id :: Listed(lists, id) ==> id in tie)
    && (forall a, b :: Listed(lists, a) && Listed(lists, b) && a != b ==> tie[a] != tie[b])
  }

  /**
  Fusion commutes with any renaming of chunk ids that keeps distinct (filename, chunk_index)
  keys: identically built projects rank identically although their ids differ.
  */
  lemma FusionCommutesWithRenaming(lists: seq<Ranking>, cfg: Config, cfg': Config, f: Id -> Id, x: seq<Id>, y: seq<Id>)
    requires Injective(f) && TiesDecide(lists, cfg.tie)
    requires cfg'.k == cfg.k && cfg'.round == cfg.round
    requires forall id :: Listed(lists, id) ==> f(id) in cfg'.tie && cfg'.tie[f(id)] == cfg.tie[id]
    requires IsFusion(x, lists, cfg) && IsFusion(y, RenameLists(lists, f), cfg')
    ensures y == RenameAll(x, f)
  {
    var renamed, z := RenameLists(lists, f), RenameAll(x, f);
    forall i, j | 0 <= i < j < |z|
      ensures KeyLess(KeyOf(renamed, cfg', z[i]), KeyOf(renamed, cfg', z[j]))
    {
      assert x[i] in x && x[j] in x;
      ScoreRenamed(lists, f, x[i], cfg.k);
      ScoreRenamed(lists, f, x[j], cfg.k);
      FusionIsDistinct(x, lists, cfg);
      KeyTotal(KeyOf(lists, cfg, x[i]), KeyOf(lists, cfg, x[j]));
    }
    forall id
      ensures id in z <==> id in y
    {
      ListedRenamed(lists, f, id);
      if id in z {
        var i :| 0 <= i < |z| && z[i] == id;
        assert x[i] in x;
      }
      if id in y {
        var a :| Listed(lists, a) && f(a) == id;
        var i :| 0 <= i < |x| && x[i] == a;
        assert z[i] == id;
      }
    }
    SortedIsUnique(z, renamed, y, renamed, cfg');
  }

  // ---- dominance -----------------------------------------------------------------------------------

  ghost predicate Ahead(ranks: seq<Id>, a: Id, b: Id) {
    exists i, j :: 0 <= i < j < |ranks| && ranks[i] == a && ranks[j] == b
  }

  lemma {:induction false} ListScoreNonNegative(ranks: seq<Id>, id: Id, k: nat, from: nat)
    ensures ListScore(ranks, id, k, from) >= 0.0
    ensures id !in ranks ==> ListScore(ranks, id, k, from) == 0.0
    decreases |ranks|
  {
    if ranks != [] {
      ListScoreNonNegative(ranks[1..], id, k, from + 1);
    }
  }

  lemma {:induction false} ListScoreAt(ranks: seq<Id>, i: nat, k: nat, from: nat)
    requires Distinct(ranks) && i < |ranks|
    ensures ListScore(ranks, ranks[i], k, from) == 1.0 / (k + from + i + 1) as real
    decreases |ranks|
  {
    var rest := ranks[1..];
    if i == 0 {
      ListScoreNonNegative(rest, ranks[0], k, from + 1);
    } else {
      assert ranks[i] == rest[i - 1] && ranks[i] in rest;
      ListScoreAt(rest, i - 1, k, from + 1);
    }
  }

  lemma ReciprocalDecreases(m: nat, n: nat)
    requires 0 < m < n
    ensures 1.0 / m as real > 1.0 / n as real
  {
    var x, y := 1.0 / m as real, 1.0 / n as real;
    assert x * m as real == 1.0 && y * n as real == 1.0;
    assert y > 0.0;
    assert y * m as real < y * n as real;
  }

  lemma ListScoreAhead(ranks: seq<Id>, a: Id, b: Id, k: nat)
    requires Distinct(ranks) && (b in ranks ==> Ahead(ranks, a, b))
    ensures ListScore(ranks, a, k, 0) >= ListScore(ranks, b, k, 0)
    ensures b in ranks ==> ListScore(ranks, a, k, 0) > ListScore(ranks, b, k, 0)
  {
    ListScoreNonNegative(ranks, a, k, 0);
    ListScoreNonNegative(ranks, b, k, 0);
    if b in ranks {
      var i, j :| 0 <= i < j < |ranks| && ranks[i] == a && ranks[j] == b;
      ListScoreAt(ranks, i, k, 0);
      ListScoreAt(ranks, j, k, 0);
      ReciprocalDecreases(k + i + 1, k + j + 1);
    }
  }

  /** `a` is ahead of `b` in every list that holds `b`. */
  ghost predicate Dominates(lists: seq<Ranking>, a: Id, b: Id) {
    forall i :: 0 <= i < |lists| ==> Distinct(lists[i].ids) && (b in lists[i].ids ==> Ahead(lists[i].ids, a, b))
  }

  lemma {:induction false} ScoreDominates(lists: seq<Ranking>, a: Id, b: Id, k: nat)
    requires Dominates(lists, a, b)
    ensures Score(lists, a, k) >= Score(lists, b, k)
    ensures Listed(lists, b) ==> Score(lists, a, k) > Score(lists, b, k)
    decreases |lists|
  {
    if lists != [] {
      ListScoreAhead(lists[0].ids, a, b, k);
      ScoreDominates(lists[1..], a, b, k);
      if Listed(lists, b) && b !in lists[0].ids {
        var i :| 0 <= i < |lists| && b in lists[i].ids;
        assert lists[1..][i - 1] == lists[i];
      }
    }
  }

  ghost predicate Monotone(round: real -> real) {
    forall x, y :: x <= y ==> round(x) <= round(y)
  }

  /** A chunk ahead of another in every list holding it never gets a lower rounded score. */
  lemma DominatingChunkRanksNoLower(lists: seq<Ranking>, cfg: Config, a: Id, b: Id)
    requires Dominates(lists, a, b) && Monotone(cfg.round)
    ensures KeyOf(lists, cfg, a).score >= KeyOf(lists, cfg, b).score
  {
    ScoreDominates(lists, a, b, cfg.k);
  }

  /** Of two ids with the same rounded score: no tie key first, then by source, by index, by id. */
  ghost predicate TieOrder(cfg: Config, a: Id, b: Id) {
    && (b !in cfg.tie ==> a !in cfg.tie)
    && (a in cfg.tie && b in cfg.tie && cfg.tie[a].source != cfg.tie[b].source ==>
          exists n: nat :: DiffersAt(cfg.tie[a].source, cfg.tie[b].source, n))
    && (a in cfg.tie && b in cfg.tie && cfg.tie[a].source == cfg.tie[b].source ==> cfg.tie[a].index <= cfg.tie[b].index)
    && ((a in cfg.tie <==> b in cfg.tie) && (a in cfg.tie ==> cfg.tie[a] == cfg.tie[b]) ==>
          exists n: nat :: DiffersAt(a.text, b.text, n))
  }

  /** In a fused list the higher rounded score stands first, and equal ones stand in tie order. */
  lemma FusionIsBestFirst(out: seq<Id>, lists: seq<Ranking>, cfg: Config, i: nat, j: nat)
    requires IsFusion(out, lists, cfg) && i < j < |out|
    ensures cfg.round(Score(lists, out[i], cfg.k)) >= cfg.round(Score(lists, out[j], cfg.k))
    ensures cfg.round(Score(lists, out[i], cfg.k)) == cfg.round(Score(lists, out[j], cfg.k)) ==>
      TieOrder(cfg, out[i], out[j])
  {
    var a, b := out[i], out[j];
    assert KeyLess(KeyOf(lists, cfg, a), KeyOf(lists, cfg, b));
    LexMeans(a.text, b.text);
    if a in cfg.tie && b in cfg.tie {
      LexMeans(cfg.tie[a].source, cfg.tie[b].source);
      LexTotal(cfg.tie[a].source, cfg.tie[a].source);
    }
  }

  /** So a chunk ahead of another in every list stands before it, unless rounding makes their scores equal. */
  lemma DominatingChunkStandsFirst(out: seq<Id>, lists: seq<Ranking>, cfg: Config, i: nat, j: nat)
    requires IsFusion(out, lists, cfg) && i < |out| && j < |out| && i != j
    requires Dominates(lists, out[i], out[j]) && Monotone(cfg.round)
    ensures i < j || cfg.round(Score(lists, out[i], cfg.k)) == cfg.round(Score(lists, out[j], cfg.k))
  {
    DominatingChunkRanksNoLower(lists, cfg, out[i], out[j]);
    if j < i {
      FusionIsBestFirst(out, lists, cfg, j, i);
    }
  }

  // ---- the function itself -------------------------------------------------------------------------

  lemma {:induction false} ListScoreAppend(ranks: seq<Id>, x: Id, id: Id, k: nat, from: nat)
    ensures ListScore(ranks + [x], id, k, from)
         == ListScore(ranks, id, k, from) + (if x == id then 1.0 / (k + from + |ranks| + 1) as real else 0.0)
    decreases |ranks|
  {
    if ranks == [] {
      assert ranks + [x] == [x] && [x][1..] == [];
    } else {
      ListScoreAppend(ranks[1..], x, id, k, from + 1);
      assert (ranks + [x])[1..] == ranks[1..] + [x];
    }
  }

  lemma {:induction false} ScoreAppend(lists: seq<Ranking>, l: Ranking, id: Id, k: nat)
    ensures Score(lists + [l], id, k) == Score(lists, id, k) + ListScore(l.ids, id, k, 0)
    decreases |lists|
  {
    if lists == [] {
      assert lists + [l] == [l] && [l][1..] == [];
    } else {
      ScoreAppend(lists[1..], l, id, k);
      assert (lists + [l])[1..] == lists[1..] + [l];
    }
  }

  function Got(rrf: map<Id, real>, id: Id): real {
    if id in rrf then rrf[id] else 0.0
  }

  /** Adds one ranked list to the running scores. */
  method AddList(rrf: map<Id, real>, ranks: seq<Id>, k: nat) returns (rrf': map<Id, real>)
    ensures forall id :: id in rrf' <==> id in rrf || id in ranks
    ensures forall id :: Got(rrf', id) == Got(rrf, id) + ListScore(ranks, id, k, 0)
  {
    rrf' := rrf;
    for rank := 0 to |ranks|
      invariant forall id :: id in rrf' <==> id in rrf || id in ranks[..rank]
      invariant forall id :: Got(rrf', id) == Got(rrf, id) + ListScore(ranks[..rank], id, k, 0)
    {
      assert ranks[..rank + 1] == ranks[..rank] + [ranks[rank]];
      forall id
        ensures ListScore(ranks[..rank + 1], id, k, 0)
             == ListScore(ranks[..rank], id, k, 0) + (if ranks[rank] == id then 1.0 / (k + rank + 1) as real else 0.0)
      {
        ListScoreAppend(ranks[..rank], ranks[rank], id, k, 0);
      }
      rrf' := rrf'[ranks[rank] := Got(rrf', ranks[rank]) + 1.0 / (k + rank + 1) as real];
    }
    assert ranks[..|ranks|] == ranks;
  }

  method Accumulate(lists: seq<Ranking>, k: nat) returns (rrf: map<Id, real>)
    ensures forall id :: id in rrf <==> Listed(lists, id)
    ensures forall id :: Got(rrf, id) == Score(lists, id, k)
  {
    rrf := map[];
    for i := 0 to |lists|
      invariant forall id :: id in rrf <==> Listed(lists[..i], id)
      invariant forall id :: Got(rrf, id) == Score(lists[..i], id, k)
    {
      var next := AddList(rrf, lists[i].ids, k);
      assert lists[..i + 1] == lists[..i] + [lists[i]];
      forall id
        ensures Score(lists[..i + 1], id, k) == Score(lists[..i], id, k) + ListScore(lists[i].ids, id, k, 0)
        ensures Listed(lists[..i + 1], id) <==> Listed(lists[..i], id) || id in lists[i].ids
      {
        ScoreAppend(lists[..i], lists[i], id, k);
        ListedAppend(lists[..i], lists[i], id);
      }
      rrf := next;
    }
    assert lists[..|lists|] == lists;
  }

  lemma ListedAppend(lists: seq<Ranking>, l: Ranking, id: Id)
    ensures Listed(lists + [l], id) <==> Listed(lists, id) || id in l.ids
  {
    var all := lists + [l];
    assert all[|lists|] == l;
    if Listed(lists, id) {
      var i :| 0 <= i < |lists| && id in lists[i].ids;
      assert all[i] == lists[i];
    }
  }

  /** The key of an id, from its accumulated score. */
  function AccumulatedKey(rrf: map<Id, real>, cfg: Config, id: Id): SortKey
    requires id in rrf
  {
    SortKey(cfg.round(rrf[id]), if id in cfg.tie then Some(cfg.tie[id]) else None, id)
  }

  /** Inserts one id where its key belongs. */
  method InsertByKey(out: seq<Id>, id: Id, key: SortKey, ghost lists: seq<Ranking>, cfg: Config, rrf: map<Id, real>)
    returns (out': seq<Id>)
    requires Sorted(out, lists, cfg) && id !in out && key == KeyOf(lists, cfg, id)
    requires forall x :: x in out ==> x in rrf && rrf[x] == Score(lists, x, cfg.k)
    ensures Sorted(out', lists, cfg)
    ensures forall x :: x in out' <==> x in out || x == id
  {
    var n := 0;
    while n < |out| && KeyLess(AccumulatedKey(rrf, cfg, out[n]), key)
      invariant 0 <= n <= |out|
      invariant forall i :: 0 <= i < n ==> KeyLess(KeyOf(lists, cfg, out[i]), key)
    {
      n := n + 1;
    }
    out' := out[..n] + [id] + out[n..];
    forall j | n <= j < |out|
      ensures KeyLess(key, KeyOf(lists, cfg, out[j]))
    {
      assert out[n] in out && out[n] != id;
      KeyTotal(KeyOf(lists, cfg, out[n]), key);
      if j > n {
        KeyTransitive(key, KeyOf(lists, cfg, out[n]), KeyOf(lists, cfg, out[j]));
      }
    }
    InsertedIsSorted(out, n, id, lists, cfg);
    assert out == out[..n] + out[n..];
  }

  lemma InsertedIsSorted(out: seq<Id>, n: nat, id: Id, lists: seq<Ranking>, cfg: Config)
    requires n <= |out| && Sorted(out, lists, cfg)
    requires forall i :: 0 <= i < n ==> KeyLess(KeyOf(lists, cfg, out[i]), KeyOf(lists, cfg, id))
    requires forall j :: n <= j < |out| ==> KeyLess(KeyOf(lists, cfg, id), KeyOf(lists, cfg, out[j]))
    ensures Sorted(out[..n] + [id] + out[n..], lists, cfg)
  {
    var out' := out[..n] + [id] + out[n..];
    forall i | 0 <= i < |out'|
      ensures out'[i] == if i < n then out[i] else if i == n then id else out[i - 1]
    {
    }
  }

  /** `_rrf_fuse`: accumulate the scores, then sort the ids by their keys. */
  method Fuse(lists: seq<Ranking>, cfg: Config) returns (out: seq<Id>)
    ensures IsFusion(out, lists, cfg)
  {
    var rrf := Accumulate(lists, cfg.k);
    out := [];
    var todo := rrf.Keys;
    while todo != {}
      invariant todo <= rrf.Keys
      invariant Sorted(out, lists, cfg)
      invariant forall id :: id in out <==> id in rrf && id !in todo
      decreases todo
    {
      var id :| id in todo;
      assert Got(rrf, id) == Score(lists, id, cfg.k);
      assert forall x :: x in out ==> Got(rrf, x) == Score(lists, x, cfg.k);
      var key := AccumulatedKey(rrf, cfg, id);
      out := InsertByKey(out, id, key, lists, cfg, rrf);
      todo := todo - {id};
    }
  }
}
