/**
Hybrid retrieval: merging the hits of several queries, fusing their lists, reranking, cutting
(adapta/services/rag.py).

The hits of each leg are given: a vector hit with its cosine, a full-text hit without one.
*/
module Retrieval {
  import opened Prelude
  import opened Fusion

  /** A chunk's own words and where they come from. */
  datatype Content = Content(text: string, source: string, index: int)

  datatype Hit = Hit(id: Id, cosine: real, content: Content)

  datatype Lexical = Lexical(id: Id, content: Content)

  /** The two result lists of one query; a failed full-text leg gives an empty list. */
  datatype Query = Query(vector: seq<Hit>, text: seq<Lexical>)

  datatype Chunk = Chunk(id: Id, content: Content, score: real, lexicalOnly: bool, reranked: bool)

  function VectorRanks(hs: seq<Hit>): (r: Ranking)
    ensures |r.ids| == |hs| && forall i :: 0 <= i < |hs| ==> r.ids[i] == hs[i].id
  {
    Ranking(seq(|hs|, i requires 0 <= i < |hs| => hs[i].id))
  }

  function TextRanks(hs: seq<Lexical>): (r: Ranking)
    ensures |r.ids| == |hs| && forall i :: 0 <= i < |hs| ==> r.ids[i] == hs[i].id
  {
    Ranking(seq(|hs|, i requires 0 <= i < |hs| => hs[i].id))
  }

  /** The lists that are fused: every vector list, then every full-text list. */
  function Rankings(qs: seq<Query>): seq<Ranking> {
    VectorLists(qs) + TextLists(qs)
  }

  // ---- merging -----------------------------------------------------------------------------------

  /** Every hit received so far, by leg. */
  ghost function VectorHits(qs: seq<Query>): set<Hit> {
    set q, h | q in qs && h in q.vector :: h
  }

  ghost function TextHits(qs: seq<Query>): set<Lexical> {
    set q, h | q in qs && h in q.text :: h
  }

  /**
  A chunk not marked lexical-only is a vector hit with the greatest cosine its id received, and
  carries that cosine; a lexical-only one is a full-text hit whose id received no positive cosine.
  */
  ghost predicate BestHit(c: Chunk, hits: set<Hit>, texts: set<Lexical>) {
    if c.lexicalOnly
    then
      && c.score == 0.0 && Lexical(c.id, c.content) in texts
      && (forall h :: h in hits && h.id == c.id ==> h.cosine <= 0.0)
    else
      && Hit(c.id, c.score, c.content) in hits
      && (forall h :: h in hits && h.id == c.id ==> h.cosine <= c.score)
  }

  /** The dictionary holds exactly the ids that were hit, each with its best hit. */
  ghost predicate Merged(byId: map<Id, Chunk>, hits: set<Hit>, texts: set<Lexical>) {
    && (forall id :: id in byId ==> byId[id].id == id && !byId[id].reranked && BestHit(byId[id], hits, texts))
    && (forall h :: h in hits ==> h.id in byId)
    && (forall h :: h in texts ==> h.id in byId)
  }

  function AddHit(byId: map<Id, Chunk>, h: Hit): map<Id, Chunk> {
    if h.id !in byId || h.cosine > byId[h.id].score
    then byId[h.id := Chunk(h.id, h.content, h.cosine, false, false)]
    else byId
  }

  function AddLexical(byId: map<Id, Chunk>, h: Lexical): map<Id, Chunk> {
    if h.id in byId then byId else byId[h.id := Chunk(h.id, h.content, 0.0, true, false)]
  }

  lemma AddHitMerges(byId: map<Id, Chunk>, h: Hit, hits: set<Hit>, texts: set<Lexical>)
    requires Merged(byId, hits, texts)
    ensures Merged(AddHit(byId, h), hits + {h}, texts)
  {
    var byId', hits' := AddHit(byId, h), hits + {h};
    forall id | id in byId'
      ensures BestHit(byId'[id], hits', texts)
    {
      if id == h.id && id in byId {
        assert BestHit(byId[id], hits, texts);
        assert Hit(h.id, h.cosine, h.content) == h;
      }
    }
  }

  lemma AddLexicalMerges(byId: map<Id, Chunk>, h: Lexical, hits: set<Hit>, texts: set<Lexical>)
    requires Merged(byId, hits, texts)
    ensures Merged(AddLexical(byId, h), hits, texts + {h})
  {
    assert Lexical(h.id, h.content) == h;
  }

  ghost function HitSet(hs: seq<Hit>): set<Hit> {
    set h | h in hs
  }

  ghost function LexicalSet(hs: seq<Lexical>): set<Lexical> {
    set h | h in hs
  }

  lemma OneMoreHit(hits: set<Hit>, hs: seq<Hit>, i: nat)
    requires i < |hs|
    ensures hits + HitSet(hs[..i + 1]) == (hits + HitSet(hs[..i])) + {hs[i]}
  {
    assert hs[..i + 1] == hs[..i] + [hs[i]];
  }

  lemma OneMoreLexical(texts: set<Lexical>, hs: seq<Lexical>, i: nat)
    requires i < |hs|
    ensures texts + LexicalSet(hs[..i + 1]) == (texts + LexicalSet(hs[..i])) + {hs[i]}
  {
    assert hs[..i + 1] == hs[..i] + [hs[i]];
  }

  method MergeVector(byId: map<Id, Chunk>, hs: seq<Hit>, ghost hits: set<Hit>, ghost texts: set<Lexical>)
    returns (byId': map<Id, Chunk>)
    requires Merged(byId, hits, texts)
    ensures Merged(byId', hits + HitSet(hs), texts)
  {
    byId' := byId;
    assert hits + HitSet(hs[..0]) == hits;
    for i := 0 to |hs|
      invariant Merged(byId', hits + HitSet(hs[..i]), texts)
    {
      AddHitMerges(byId', hs[i], hits + HitSet(hs[..i]), texts);
      OneMoreHit(hits, hs, i);
      byId' := AddHit(byId', hs[i]);
    }
    assert hs[..|hs|] == hs;
  }

  method MergeText(byId: map<Id, Chunk>, hs: seq<Lexical>, ghost hits: set<Hit>, ghost texts: set<Lexical>)
    returns (byId': map<Id, Chunk>)
    requires Merged(byId, hits, texts)
    ensures Merged(byId', hits, texts + LexicalSet(hs))
    ensures forall id :: id in byId ==> id in byId' && byId'[id] == byId[id]
  {
    byId' := byId;
    assert texts + LexicalSet(hs[..0]) == texts;
    for i := 0 to |hs|
      invariant Merged(byId', hits, texts + LexicalSet(hs[..i]))
      invariant forall id :: id in byId ==> id in byId' && byId'[id] == byId[id]
    {
      AddLexicalMerges(byId', hs[i], hits, texts + LexicalSet(hs[..i]));
      OneMoreLexical(texts, hs, i);
      byId' := AddLexical(byId', hs[i]);
    }
    assert hs[..|hs|] == hs;
  }

  lemma OneMoreQuery(qs: seq<Query>, q: Query)
    ensures VectorHits(qs + [q]) == VectorHits(qs) + HitSet(q.vector)
    ensures TextHits(qs + [q]) == TextHits(qs) + LexicalSet(q.text)
  {
    assert forall x :: x in qs + [q] <==> x in qs || x == q;
  }

  /** One query's hits, vector leg first. */
  method MergeQuery(byId: map<Id, Chunk>, q: Query, ghost qs: seq<Query>) returns (byId': map<Id, Chunk>)
    requires Merged(byId, VectorHits(qs), TextHits(qs))
    ensures Merged(byId', VectorHits(qs + [q]), TextHits(qs + [q]))
  {
    OneMoreQuery(qs, q);
    var b := MergeVector(byId, q.vector, VectorHits(qs), TextHits(qs));
    byId' := MergeText(b, q.text, VectorHits(qs) + HitSet(q.vector), TextHits(qs));
  }

  /** The vector lists and the full-text lists of the queries. */
  function VectorLists(qs: seq<Query>): seq<Ranking> {
    seq(|qs|, i requires 0 <= i < |qs| => VectorRanks(qs[i].vector))
  }

  function TextLists(qs: seq<Query>): seq<Ranking> {
    seq(|qs|, i requires 0 <= i < |qs| => TextRanks(qs[i].text))
  }

  lemma OneMoreList(qs: seq<Query>, n: nat)
    requires n < |qs|
    ensures qs[..n + 1] == qs[..n] + [qs[n]]
    ensures VectorLists(qs[..n + 1]) == VectorLists(qs[..n]) + [VectorRanks(qs[n].vector)]
    ensures TextLists(qs[..n + 1]) == TextLists(qs[..n]) + [TextRanks(qs[n].text)]
  {
    assert forall i :: 0 <= i < n ==> qs[..n + 1][i] == qs[..n][i];
  }

  /** One vector list and one full-text list per query; a chunk seen by several keeps its best cosine. */
  method Merge(qs: seq<Query>) returns (byId: map<Id, Chunk>, vectorLists: seq<Ranking>, textLists: seq<Ranking>)
    ensures Merged(byId, VectorHits(qs), TextHits(qs))
    ensures vectorLists + textLists == Rankings(qs)
  {
    byId, vectorLists, textLists := map[], [], [];
    for n := 0 to |qs|
      invariant Merged(byId, VectorHits(qs[..n]), TextHits(qs[..n]))
      invariant vectorLists == VectorLists(qs[..n]) && textLists == TextLists(qs[..n])
    {
      OneMoreList(qs, n);
      byId := MergeQuery(byId, qs[n], qs[..n]);
      vectorLists, textLists := vectorLists + [VectorRanks(qs[n].vector)], textLists + [TextRanks(qs[n].text)];
    }
    assert qs[..|qs|] == qs;
  }

  // ---- reranking and cutting -----------------------------------------------------------------------

  /** A candidate with the reranker's raw score and its place among the candidates. */
  datatype Scored = Scored(raw: real, place: nat, chunk: Chunk)

  ghost predicate DistinctIds(cs: seq<Chunk>) {
    forall i, j :: 0 <= i < j < |cs| ==> cs[i].id != cs[j].id
  }

  /** Higher raw score first; equal scores in the candidates' order, as a stable sort leaves them. */
  predicate Precedes(x: Scored, y: Scored) {
    x.raw > y.raw || (x.raw == y.raw && x.place < y.place)
  }

  ghost predicate Ordered(ss: seq<Scored>) {
    forall i, j :: 0 <= i < j < |ss| ==> Precedes(ss[i], ss[j])
  }

  /** `out` is `items` in order. */
  ghost predicate IsSorted(out: seq<Scored>, items: seq<Scored>) {
    Ordered(out) && |out| == |items| && forall y :: y in out <==> y in items
  }

  lemma {:induction false} OrderedIsUnique(a: seq<Scored>, b: seq<Scored>)
    requires Ordered(a) && Ordered(b) && forall y :: y in a <==> y in b
    ensures a == b
  {
    if a == [] {
      SomeScored(b);
    } else {
      assert a[0] in b;
      SomeScored(a);
      assert b[0] in a;
      assert a[0] == b[0];
      forall y
        ensures y in a[1..] <==> y in b[1..]
      {
        TailScored(a, y);
        TailScored(b, y);
      }
      OrderedIsUnique(a[1..], b[1..]);
      assert a == [a[0]] + a[1..] && b == [b[0]] + b[1..];
    }
  }

  lemma SomeScored(b: seq<Scored>)
    ensures b == [] || b[0] in b
  {
  }

  lemma TailScored(a: seq<Scored>, y: Scored)
    requires Ordered(a) && a != []
    ensures y in a[1..] <==> y in a && y != a[0]
  {
    assert a == [a[0]] + a[1..];
  }

  /** A list has one sorting. */
  lemma SortingIsUnique(a: seq<Scored>, b: seq<Scored>, items: seq<Scored>)
    requires IsSorted(a, items) && IsSorted(b, items)
    ensures a == b
  {
    OrderedIsUnique(a, b);
  }

  function Inserted(out: seq<Scored>, n: nat, x: Scored): seq<Scored>
    requires n <= |out|
  {
    out[..n] + [x] + out[n..]
  }

  lemma InsertedMembers(out: seq<Scored>, n: nat, x: Scored)
    requires n <= |out|
    ensures forall y :: y in Inserted(out, n, x) <==> y in out || y == x
  {
    assert out == out[..n] + out[n..];
  }

  lemma InsertedAt(out: seq<Scored>, n: nat, x: Scored, i: nat)
    requires n <= |out| && i <= |out|
    ensures Inserted(out, n, x)[i] == if i < n then out[i] else if i == n then x else out[i - 1]
  {
  }

  lemma InsertedKeeps(out: seq<Scored>, n: nat, x: Scored)
    requires n <= |out| && Ordered(out)
    requires forall i :: 0 <= i < |out| ==> out[i].place < x.place
    requires forall i :: n <= i < |out| ==> out[i].raw < x.raw
    requires n > 0 ==> out[n - 1].raw >= x.raw
    ensures Ordered(Inserted(out, n, x))
  {
    var out' := Inserted(out, n, x);
    forall i, j | 0 <= i < j < |out'|
      ensures Precedes(out'[i], out'[j])
    {
      InsertedAt(out, n, x, i);
      InsertedAt(out, n, x, j);
    }
  }

  /** Behind every entry with the same raw score. */
  method InsertByRaw(out: seq<Scored>, x: Scored) returns (out': seq<Scored>)
    requires Ordered(out) && forall i :: 0 <= i < |out| ==> out[i].place < x.place
    ensures Ordered(out') && |out'| == |out| + 1
    ensures forall y :: y in out' <==> y in out || y == x
  {
    var n := |out|;
    while n > 0 && out[n - 1].raw < x.raw
      invariant 0 <= n <= |out|
      invariant forall i :: n <= i < |out| ==> out[i].raw < x.raw
    {
      n := n - 1;
    }
    out' := Inserted(out, n, x);
    InsertedKeeps(out, n, x);
    InsertedMembers(out, n, x);
  }

  /** The first `m` candidates with their scores. */
  function Zipped(cands: seq<Chunk>, raw: seq<real>, m: nat): (r: seq<Scored>)
    requires m <= |cands| && m <= |raw|
    ensures |r| == m && forall i :: 0 <= i < m ==> r[i] == Scored(raw[i], i, cands[i])
  {
    seq(m, i requires 0 <= i < m => Scored(raw[i], i, cands[i]))
  }

  method SortByRaw(items: seq<Scored>) returns (out: seq<Scored>)
    requires forall i :: 0 <= i < |items| ==> items[i].place == i
    ensures IsSorted(out, items)
  {
    out := [];
    for i := 0 to |items|
      invariant IsSorted(out, items[..i])
    {
      assert items[..i + 1] == items[..i] + [items[i]];
      forall k | 0 <= k < |out|
        ensures out[k].place < i
      {
        assert out[k] in items[..i];
      }
      out := InsertByRaw(out, items[i]);
    }
    assert items[..|items|] == items;
  }

  /** The reranker's logits for the chunks it is given, and the map of a logit to a shown score. */
  datatype Reranker = Reranker(logits: seq<Chunk> -> seq<real>, shown: real -> real)

  function Least(a: nat, b: nat): nat {
    if a < b then a else b
  }

  /** The chunk as the reranker's result shows it: its own content under its own score. */
  function Shown(x: Scored, shown: real -> real): Chunk {
    x.chunk.(score := shown(x.raw), reranked := true, lexicalOnly := false)
  }

  function ShownAll(xs: seq<Scored>, shown: real -> real): (r: seq<Chunk>)
    ensures |r| == |xs| && forall i :: 0 <= i < |xs| ==> r[i] == Shown(xs[i], shown)
  {
    seq(|xs|, i requires 0 <= i < |xs| => Shown(xs[i], shown))
  }

  /** How many candidates go to the reranker, and how many of those it scores. */
  function Sent(cands: seq<Chunk>, topK: nat): nat {
    Least(2 * topK, |cands|)
  }

  function Logits(cands: seq<Chunk>, topK: nat, r: Reranker): seq<real> {
    r.logits(cands[..Sent(cands, topK)])
  }

  function ScoredHead(cands: seq<Chunk>, topK: nat, r: Reranker): seq<Scored> {
    var raw := Logits(cands, topK, r);
    Zipped(cands, raw, Least(|raw|, Sent(cands, topK)))
  }

  /** `all`: the scored candidates in order under their own shown scores, then those that were not sent. */
  ghost predicate IsReranked(all: seq<Chunk>, cands: seq<Chunk>, topK: nat, r: Reranker) {
    exists ranked :: IsSorted(ranked, ScoredHead(cands, topK, r))
      && all == ShownAll(ranked, r.shown) + cands[Sent(cands, topK)..]
  }

  /** The description leaves no choice. */
  lemma RerankedIsUnique(a: seq<Chunk>, b: seq<Chunk>, cands: seq<Chunk>, topK: nat, r: Reranker)
    requires IsReranked(a, cands, topK, r) && IsReranked(b, cands, topK, r)
    ensures a == b
  {
    var head := ScoredHead(cands, topK, r);
    var x :| IsSorted(x, head) && a == ShownAll(x, r.shown) + cands[Sent(cands, topK)..];
    var y :| IsSorted(y, head) && b == ShownAll(y, r.shown) + cands[Sent(cands, topK)..];
    SortingIsUnique(x, y, head);
  }

  /** Scores the first `2 * topK` candidates; a reranker that returns too few scores drops the rest of those. */
  method Rerank(cands: seq<Chunk>, topK: nat, r: Reranker) returns (out: seq<Chunk>)
    ensures IsReranked(out, cands, topK, r)
  {
    var n := Least(2 * topK, |cands|);
    var raw := r.logits(cands[..n]);
    var zipped := Zipped(cands, raw, Least(|raw|, n));
    var ranked := SortByRaw(zipped);
    out := ShownAll(ranked, r.shown) + cands[n..];
  }

  // ---- what a reranked result holds -----------------------------------------------------------------

  /** `c` is one of the first `n` candidates under its own score. */
  ghost predicate OwnScore(c: Chunk, cands: seq<Chunk>, raw: seq<real>, n: nat, shown: real -> real)
    requires n <= |cands| && n <= |raw|
  {
    exists k :: 0 <= k < n && IsShown(c, cands[k], raw[k], shown)
  }

  /** `c` is `cand`, its content untouched, under the score shown for `raw`. */
  ghost predicate IsShown(c: Chunk, cand: Chunk, raw: real, shown: real -> real) {
    c.id == cand.id && c.content == cand.content && c.score == shown(raw) && c.reranked && !c.lexicalOnly
  }

  ghost predicate OwnScores(out: seq<Chunk>, cands: seq<Chunk>, raw: seq<real>, n: nat, shown: real -> real)
    requires n <= |cands| && n <= |raw|
  {
    forall i :: 0 <= i < |out| ==> OwnScore(out[i], cands, raw, n, shown)
  }

  /** No candidate that was scored and is not in `out` has a higher score than one that is. */
  ghost predicate BestScores(out: seq<Chunk>, cands: seq<Chunk>, raw: seq<real>, n: nat, shown: real -> real)
    requires n <= |cands| && n <= |raw|
  {
    forall k, i :: 0 <= k < n && 0 <= i < |out| && !Returned(cands[k], out) ==> out[i].score >= shown(raw[k])
  }

  ghost predicate Returned(cand: Chunk, out: seq<Chunk>) {
    exists i :: 0 <= i < |out| && out[i].id == cand.id
  }

  /** Candidates with equal raw scores come in the order they had. */
  ghost predicate TiesKeepOrder(out: seq<Chunk>, cands: seq<Chunk>, raw: seq<real>, n: nat)
    requires n <= |cands| && n <= |raw|
  {
    forall i, j, k, l ::
      (&& 0 <= i < j < |out| && 0 <= k < n && 0 <= l < n
       && out[i].id == cands[k].id && out[j].id == cands[l].id && raw[k] == raw[l]) ==> k < l
  }

  ghost predicate NonIncreasing(out: seq<Chunk>) {
    forall i, j :: 0 <= i < j < |out| ==> out[i].score >= out[j].score
  }

  lemma ShownOrder(ranked: seq<Scored>, shown: real -> real, i: nat, j: nat)
    requires Ordered(ranked) && Monotone(shown) && i < j < |ranked|
    ensures ShownAll(ranked, shown)[i].score >= ShownAll(ranked, shown)[j].score
  {
    assert Precedes(ranked[i], ranked[j]);
  }

  /** Where an entry of the sorted head came from. */
  lemma HeadFrom(ranked: seq<Scored>, cands: seq<Chunk>, raw: seq<real>, m: nat, i: nat) returns (k: nat)
    requires m <= |cands| && m <= |raw| && IsSorted(ranked, Zipped(cands, raw, m)) && i < m
    ensures k < m && ranked[i] == Scored(raw[k], k, cands[k])
  {
    assert ranked[i] in Zipped(cands, raw, m);
    k :| k < m && Zipped(cands, raw, m)[k] == ranked[i];
  }

  /** And where a scored candidate went. */
  lemma HeadTo(ranked: seq<Scored>, cands: seq<Chunk>, raw: seq<real>, m: nat, k: nat) returns (i: nat)
    requires m <= |cands| && m <= |raw| && IsSorted(ranked, Zipped(cands, raw, m)) && k < m
    ensures i < m && ranked[i] == Scored(raw[k], k, cands[k])
  {
    assert Zipped(cands, raw, m)[k] in ranked;
    i :| i < m && ranked[i] == Scored(raw[k], k, cands[k]);
  }

  /** The first `t` of the sorted head: own scores, in order, and the best there are. */
  lemma HeadIsBest(ranked: seq<Scored>, cands: seq<Chunk>, raw: seq<real>, m: nat, t: nat, shown: real -> real)
    requires m <= |cands| && m <= |raw| && IsSorted(ranked, Zipped(cands, raw, m)) && t <= m
    ensures OwnScores(ShownAll(ranked, shown)[..t], cands, raw, m, shown)
    ensures Monotone(shown) ==>
      NonIncreasing(ShownAll(ranked, shown)[..t]) && BestScores(ShownAll(ranked, shown)[..t], cands, raw, m, shown)
  {
    var out := ShownAll(ranked, shown)[..t];
    forall i | 0 <= i < |out|
      ensures OwnScore(out[i], cands, raw, m, shown)
    {
      var k := HeadFrom(ranked, cands, raw, m, i);
      assert IsShown(out[i], cands[k], raw[k], shown);
    }
    if Monotone(shown) {
      forall i, j | 0 <= i < j < |out|
        ensures out[i].score >= out[j].score
      {
        ShownOrder(ranked, shown, i, j);
      }
      forall k, i | 0 <= k < m && 0 <= i < |out| && !Returned(cands[k], out)
        ensures out[i].score >= shown(raw[k])
      {
        LeftOutIsNoBetter(ranked, cands, raw, m, t, shown, k, i);
      }
    }
  }

  lemma LeftOutIsNoBetter(ranked: seq<Scored>, cands: seq<Chunk>, raw: seq<real>, m: nat, t: nat, shown: real -> real,
      k: nat, i: nat)
    requires m <= |cands| && m <= |raw| && IsSorted(ranked, Zipped(cands, raw, m)) && t <= m && Monotone(shown)
    requires k < m && i < t && !Returned(cands[k], ShownAll(ranked, shown)[..t])
    ensures ShownAll(ranked, shown)[i].score >= shown(raw[k])
  {
    var all := ShownAll(ranked, shown);
    assert forall x :: 0 <= x < t ==> all[..t][x] == all[x];
    var j := HeadTo(ranked, cands, raw, m, k);
    assert all[j].id == cands[k].id && all[j].score == shown(raw[k]);
    ShownOrder(ranked, shown, i, j);
  }

  lemma HeadKeepsTies(ranked: seq<Scored>, cands: seq<Chunk>, raw: seq<real>, m: nat, t: nat, shown: real -> real)
    requires m <= |cands| && m <= |raw| && IsSorted(ranked, Zipped(cands, raw, m)) && t <= m && DistinctIds(cands)
    ensures TiesKeepOrder(ShownAll(ranked, shown)[..t], cands, raw, m)
  {
    var out := ShownAll(ranked, shown)[..t];
    forall i, j, k, l | 0 <= i < j < |out| && 0 <= k < m && 0 <= l < m
        && out[i].id == cands[k].id && out[j].id == cands[l].id && raw[k] == raw[l]
      ensures k < l
    {
      var k' := HeadFrom(ranked, cands, raw, m, i);
      var l' := HeadFrom(ranked, cands, raw, m, j);
      assert k == k' && l == l';
      assert Precedes(ranked[i], ranked[j]);
    }
  }

  /** The reranker gives one score per chunk. */
  ghost predicate ScoresAll(r: Reranker) {
    forall cs :: |r.logits(cs)| == |cs|
  }

  /** What a reranker that scores every chunk makes of the candidates: the best of the first `2 * topK`. */
  ghost predicate BestReranked(out: seq<Chunk>, cands: seq<Chunk>, topK: nat, r: Reranker) {
    var n := if 2 * topK < |cands| then 2 * topK else |cands|;
    var raw := r.logits(cands[..n]);
    && |raw| == n && |out| == (if topK < |cands| then topK else |cands|)
    && OwnScores(out, cands, raw, n, r.shown) && TiesKeepOrder(out, cands, raw, n)
    && (Monotone(r.shown) ==> NonIncreasing(out) && BestScores(out, cands, raw, n, r.shown))
  }

  /** What `top_k` of a reranked list holds: every chunk sent has a score, so only scored chunks are returned. */
  lemma CutIsBest(all: seq<Chunk>, cands: seq<Chunk>, topK: nat, r: Reranker)
    requires IsReranked(all, cands, topK, r) && ScoresAll(r) && DistinctIds(cands)
    ensures |all| == |cands| && BestReranked(all[..Least(topK, |cands|)], cands, topK, r)
  {
    var n, raw, t := Sent(cands, topK), Logits(cands, topK, r), Least(topK, |cands|);
    assert |cands[..n]| == n;
    var ranked :| IsSorted(ranked, ScoredHead(cands, topK, r)) && all == ShownAll(ranked, r.shown) + cands[n..];
    HeadIsBest(ranked, cands, raw, n, t, r.shown);
    HeadKeepsTies(ranked, cands, raw, n, t, r.shown);
    assert all[..t] == ShownAll(ranked, r.shown)[..t];
  }

  /** `id` is the id of one of the candidates. */
  ghost predicate Among(id: Id, cands: seq<Chunk>) {
    exists k :: 0 <= k < |cands| && cands[k].id == id
  }

  /** Reranking keeps ids distinct and brings in none. */
  lemma RerankedIds(all: seq<Chunk>, cands: seq<Chunk>, topK: nat, r: Reranker)
    requires IsReranked(all, cands, topK, r) && DistinctIds(cands)
    ensures DistinctIds(all) && forall i :: 0 <= i < |all| ==> Among(all[i].id, cands)
  {
    var n, raw := Sent(cands, topK), Logits(cands, topK, r);
    var m := Least(|raw|, n);
    var ranked :| IsSorted(ranked, ScoredHead(cands, topK, r)) && all == ShownAll(ranked, r.shown) + cands[n..];
    var from := PlacesOf(ranked, cands, raw, m, n);
    forall i | 0 <= i < |all|
      ensures from[i] < |cands| && all[i].id == cands[from[i]].id
    {
      if i >= m {
        assert all[i] == cands[n + (i - m)];
      }
    }
  }

  /** The place among the candidates of every chunk of the reranked list; no two share one. */
  lemma PlacesOf(ranked: seq<Scored>, cands: seq<Chunk>, raw: seq<real>, m: nat, n: nat) returns (from: seq<nat>)
    requires m <= n <= |cands| && m <= |raw| && IsSorted(ranked, Zipped(cands, raw, m))
    ensures |from| == m + |cands| - n
    ensures forall i :: 0 <= i < m ==> from[i] < m && ranked[i].chunk == cands[from[i]]
    ensures forall i :: m <= i < |from| ==> from[i] == n + (i - m)
    ensures forall i, j :: 0 <= i < j < |from| ==> from[i] != from[j]
  {
    forall i | 0 <= i < m
      ensures ranked[i].place < m && ranked[i].chunk == cands[ranked[i].place]
      ensures ranked[i].raw == raw[ranked[i].place]
    {
      var k := HeadFrom(ranked, cands, raw, m, i);
    }
    from := seq(m + |cands| - n, i requires 0 <= i < m + |cands| - n => if i < m then ranked[i].place else n + (i - m));
    forall i, j | 0 <= i < j < |from|
      ensures from[i] != from[j]
    {
      if j < m {
        assert Precedes(ranked[i], ranked[j]);
      }
    }
  }

  /** Reranks if there is a reranker and something to order, then cuts to `topK`. */
  method Cut(cands: seq<Chunk>, topK: nat, reranker: Option<Reranker>) returns (out: seq<Chunk>)
    requires DistinctIds(cands)
    ensures DistinctIds(out) && |out| <= topK && forall i :: 0 <= i < |out| ==> Among(out[i].id, cands)
    ensures IsResult(out, cands, topK, reranker)
  {
    if reranker.Some? && |cands| > 1 {
      var all := Rerank(cands, topK, reranker.value);
      RerankedIds(all, cands, topK, reranker.value);
      out := all[..Least(topK, |all|)];
    } else {
      out := cands[..Least(topK, |cands|)];
    }
  }

  function TieMap(byId: map<Id, Chunk>): map<Id, Tie> {
    map id | id in byId :: Tie(byId[id].content.source, byId[id].content.index)
  }

  lemma ListedIsMerged(qs: seq<Query>, byId: map<Id, Chunk>, id: Id)
    requires Merged(byId, VectorHits(qs), TextHits(qs)) && Listed(Rankings(qs), id)
    ensures id in byId
  {
    var all := Rankings(qs);
    var i :| 0 <= i < |all| && id in all[i].ids;
    var j :| 0 <= j < |all[i].ids| && all[i].ids[j] == id;
    if i < |qs| {
      var h := qs[i].vector[j];
      assert qs[i] in qs && h in qs[i].vector;
      assert h in VectorHits(qs);
    } else {
      var q := qs[i - |qs|];
      assert q in qs && q.text[j] in q.text;
      assert q.text[j] in TextHits(qs);
    }
  }

  /** The merged chunks in the fused order. */
  function Candidates(byId: map<Id, Chunk>, fused: seq<Id>): (r: seq<Chunk>)
    requires forall i :: 0 <= i < |fused| ==> fused[i] in byId
    ensures |r| == |fused| && forall i :: 0 <= i < |fused| ==> r[i] == byId[fused[i]]
  {
    seq(|fused|, i requires 0 <= i < |fused| => byId[fused[i]])
  }

  lemma FusedIsMerged(qs: seq<Query>, byId: map<Id, Chunk>, fused: seq<Id>, cfg: Config)
    requires Merged(byId, VectorHits(qs), TextHits(qs)) && IsFusion(fused, Rankings(qs), cfg)
    ensures forall i :: 0 <= i < |fused| ==> fused[i] in byId
    ensures DistinctIds(Candidates(byId, fused))
  {
    FusionIsDistinct(fused, Rankings(qs), cfg);
    forall i | 0 <= i < |fused|
      ensures fused[i] in byId
    {
      assert fused[i] in fused;
      ListedIsMerged(qs, byId, fused[i]);
    }
  }

  lemma AmongFused(byId: map<Id, Chunk>, fused: seq<Id>, id: Id)
    requires forall x :: x in byId ==> byId[x].id == x
    requires forall i :: 0 <= i < |fused| ==> fused[i] in byId
    requires Among(id, Candidates(byId, fused))
    ensures id in fused && id in byId
  {
    var k :| 0 <= k < |fused| && Candidates(byId, fused)[k].id == id;
    assert fused[k] == id;
  }

  /** The returned chunks, given the candidates in fused order. */
  ghost predicate IsResult(out: seq<Chunk>, cands: seq<Chunk>, topK: nat, reranker: Option<Reranker>) {
    if reranker.None? || |cands| < 2 then out == cands[..Least(topK, |cands|)]
    else exists all :: IsReranked(all, cands, topK, reranker.value) && out == all[..Least(topK, |all|)]
  }

  lemma ResultIsBest(out: seq<Chunk>, cands: seq<Chunk>, topK: nat, r: Reranker)
    requires IsResult(out, cands, topK, Some(r)) && |cands| >= 2 && ScoresAll(r) && DistinctIds(cands)
    ensures BestReranked(out, cands, topK, r)
  {
    var all :| IsReranked(all, cands, topK, r) && out == all[..Least(topK, |all|)];
    CutIsBest(all, cands, topK, r);
  }

  /** The chunk stands before another with the same fused score: by source, then by index within a source. */
  ghost predicate ContentOrder(a: Content, b: Content) {
    if a.source == b.source then a.index <= b.index else exists n: nat :: DiffersAt(a.source, b.source, n)
  }

  /** The merged chunks stand by descending rounded fusion score, equal ones by their content. */
  ghost predicate FusedOrder(fused: seq<Id>, byId: map<Id, Chunk>, lists: seq<Ranking>, k: nat, round: real -> real)
    requires forall i :: 0 <= i < |fused| ==> fused[i] in byId
  {
    forall i, j :: 0 <= i < j < |fused| ==>
      && round(Score(lists, fused[i], k)) >= round(Score(lists, fused[j], k))
      && (round(Score(lists, fused[i], k)) == round(Score(lists, fused[j], k)) ==>
            ContentOrder(byId[fused[i]].content, byId[fused[j]].content))
  }

  lemma FusedByContent(fused: seq<Id>, byId: map<Id, Chunk>, lists: seq<Ranking>, k: nat, round: real -> real)
    requires IsFusion(fused, lists, Config(k, round, TieMap(byId)))
    requires forall i :: 0 <= i < |fused| ==> fused[i] in byId
    ensures FusedOrder(fused, byId, lists, k, round)
  {
    forall i, j | 0 <= i < j < |fused|
      ensures round(Score(lists, fused[i], k)) >= round(Score(lists, fused[j], k))
      ensures round(Score(lists, fused[i], k)) == round(Score(lists, fused[j], k)) ==>
        ContentOrder(byId[fused[i]].content, byId[fused[j]].content)
    {
      FusionIsBestFirst(fused, lists, Config(k, round, TieMap(byId)), i, j);
    }
  }

  /**
  The whole pipeline. Every merged chunk is its id's best hit; the candidates are the merged chunks
  in fused order. Returned ids are distinct and at most `topK`. Without a reranker, or with a single
  candidate, the result is the head of the candidates. With one that scores every chunk it is
  given, and at least two candidates, every returned chunk is one of the first `2 * topK`
  candidates under its own reranker score, they come in non-increasing order, and none that was
  scored and left out has a higher score.
  */
  method Retrieve(qs: seq<Query>, topK: nat, k: nat, round: real -> real, reranker: Option<Reranker>)
    returns (out: seq<Chunk>, byId: map<Id, Chunk>, fused: seq<Id>)
    ensures Merged(byId, VectorHits(qs), TextHits(qs))
    ensures IsFusion(fused, Rankings(qs), Config(k, round, TieMap(byId)))
    ensures forall i :: 0 <= i < |fused| ==> fused[i] in byId
    ensures FusedOrder(fused, byId, Rankings(qs), k, round)
    ensures DistinctIds(out) && |out| <= topK
    ensures forall i :: 0 <= i < |out| ==> out[i].id in fused && out[i].id in byId
    ensures IsResult(out, Candidates(byId, fused), topK, reranker)
    ensures reranker.Some? && |fused| >= 2 && ScoresAll(reranker.value) ==>
      BestReranked(out, Candidates(byId, fused), topK, reranker.value)
  {
    var vectorLists, textLists;
    byId, vectorLists, textLists := Merge(qs);
    var cfg := Config(k, round, TieMap(byId));
    fused := Fuse(vectorLists + textLists, cfg);
    FusedIsMerged(qs, byId, fused, cfg);
    FusedByContent(fused, byId, Rankings(qs), k, round);
    var cands := Candidates(byId, fused);
    out := Cut(cands, topK, reranker);
    forall i | 0 <= i < |out|
      ensures out[i].id in fused && out[i].id in byId
    {
      AmongFused(byId, fused, out[i].id);
    }
    if reranker.Some? && |fused| >= 2 && ScoresAll(reranker.value) {
      ResultIsBest(out, cands, topK, reranker.value);
    }
  }
}
