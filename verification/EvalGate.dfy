/**
The scores behind an adapter's verdict, and the verdict (adapta/services/eval_gate.py).

Scores are exact reals. How text is cut into tokens, normalised and parsed as JSON is given.
*/
module EvalGate {
  import opened Prelude

  datatype Token = Token(text: string)
  type Json = map<string, string>

  /** Text to tokens, to a label, and to a JSON object (`None` when it is not one). */
  datatype Readers = Readers(tokens: string -> seq<Token>, norm: string -> string, json: string -> Option<Json>)

  datatype Task = Classify | Extract | Freeform

  // ---- ratios ----------------------------------------------------------------------------------

  lemma Ratio(x: real, n: real)
    requires n > 0.0
    ensures x / n * n == x
    ensures x >= 0.0 <==> x / n >= 0.0
    ensures x <= n <==> x / n <= 1.0
    ensures x == n <==> x / n == 1.0
    ensures x == 0.0 <==> x / n == 0.0
  {
  }

  lemma RatioMonotone(x: real, y: real, n: real)
    requires n > 0.0 && x <= y
    ensures x / n <= y / n
  {
    Ratio(y - x, n);
    assert y / n - x / n == (y - x) / n;
  }

  // ---- token F1 --------------------------------------------------------------------------------

  function Common(a: seq<Token>, b: seq<Token>): nat {
    |multiset(a) * multiset(b)|
  }

  /** Bag-of-tokens F1: shared tokens over the mean length. */
  function F1(pred: seq<Token>, ref: seq<Token>): real {
    if pred == [] && ref == [] then 1.0
    else if pred == [] || ref == [] then 0.0
    else 2.0 * Common(pred, ref) as real / (|pred| + |ref|) as real
  }

  lemma OneMoreCommon(a: multiset<Token>, b: multiset<Token>, t: Token)
    ensures |(a + multiset{t}) * b| == |a * b| + (if a[t] < b[t] then 1 else 0)
  {
    if a[t] < b[t] {
      assert (a + multiset{t}) * b == a * b + multiset{t};
    } else {
      assert (a + multiset{t}) * b == a * b;
    }
  }

  lemma CommonBound(a: seq<Token>, b: seq<Token>)
    ensures Common(a, b) <= |a| && Common(a, b) <= |b| && Common(a, b) == Common(b, a)
    ensures Common(a, b) == |a| == |b| <==> multiset(a) == multiset(b)
  {
    var x, y := multiset(a), multiset(b);
    assert x == x * y + (x - y);
    assert y == x * y + (y - x);
    assert x * y == y * x;
    if |x - y| == 0 && |y - x| == 0 {
      assert x == x * y == y;
    }
    if x == y {
      assert x * y == x;
    }
  }

  /** The harmonic mean of precision and recall, as the loop's caller computes it. */
  lemma HarmonicMean(c: nat, p: nat, r: nat)
    requires 0 < c && 0 < p && 0 < r
    ensures var pr := c as real / p as real; var re := c as real / r as real;
      pr + re > 0.0 && 2.0 * pr * re / (pr + re) == 2.0 * c as real / (p + r) as real
  {
    var x, y, z := c as real, p as real, r as real;
    var pr, re := x / y, x / z;
    assert pr * y == x && re * z == x;
    assert pr > 0.0 && re > 0.0;
    assert (pr + re) * y * z == x * (y + z) by {
      assert (pr + re) * y * z == (pr * y) * z + (re * z) * y;
    }
    var target := 2.0 * x / (y + z);
    assert target * (y + z) == 2.0 * x;
    assert target * (pr + re) * (y * z) == 2.0 * x * x by {
      assert target * ((pr + re) * y * z) == target * (x * (y + z));
      assert target * (x * (y + z)) == x * (target * (y + z));
    }
    assert 2.0 * pr * re * (y * z) == 2.0 * x * x by {
      assert 2.0 * pr * re * (y * z) == 2.0 * (pr * y) * (re * z);
    }
    assert target * (pr + re) == 2.0 * pr * re;
    assert 2.0 * pr * re / (pr + re) == target;
  }

  method CountTokens(ref: seq<Token>) returns (counts: map<Token, nat>)
    ensures forall t :: Count(counts, t) == multiset(ref)[t]
  {
    counts := map[];
    for i := 0 to |ref|
      invariant forall t :: Count(counts, t) == multiset(ref[..i])[t]
    {
      assert ref[..i + 1] == ref[..i] + [ref[i]];
      var t := ref[i];
      counts := counts[t := Count(counts, t) + 1];
    }
    assert ref[..|ref|] == ref;
  }

  /** How many tokens of `b` are left to match after the tokens `a` were seen. */
  function Left(a: multiset<Token>, b: multiset<Token>, t: Token): nat {
    if a[t] < b[t] then b[t] - a[t] else 0
  }

  function Count(counts: map<Token, nat>, t: Token): nat {
    if t in counts then counts[t] else 0
  }

  ghost predicate Tracks(left: map<Token, nat>, a: multiset<Token>, b: multiset<Token>) {
    forall t :: Count(left, t) == Left(a, b, t)
  }

  lemma TracksOneMore(left: map<Token, nat>, a: multiset<Token>, b: multiset<Token>, t: Token)
    requires Tracks(left, a, b)
    ensures Tracks(if Count(left, t) > 0 then left[t := left[t] - 1] else left, a + multiset{t}, b)
    ensures Count(left, t) > 0 <==> a[t] < b[t]
  {
    var left' := if Count(left, t) > 0 then left[t := left[t] - 1] else left;
    forall u
      ensures Count(left', u) == Left(a + multiset{t}, b, u)
    {
      assert Count(left, u) == Left(a, b, u);
    }
  }

  /** What one more predicted token does to the count and to what is left. */
  lemma OneMoreToken(left: map<Token, nat>, pred: seq<Token>, i: nat, b: multiset<Token>)
    requires i < |pred| && Tracks(left, multiset(pred[..i]), b)
    ensures var t := pred[i]; var hit := Count(left, t) > 0;
      && |multiset(pred[..i + 1]) * b| == |multiset(pred[..i]) * b| + (if hit then 1 else 0)
      && Tracks(if hit then left[t := left[t] - 1] else left, multiset(pred[..i + 1]), b)
  {
    var t, a := pred[i], multiset(pred[..i]);
    assert pred[..i + 1] == pred[..i] + [t];
    assert multiset(pred[..i + 1]) == a + multiset{t};
    OneMoreCommon(a, b, t);
    TracksOneMore(left, a, b, t);
  }

  lemma NoTokenYet(left: map<Token, nat>, pred: seq<Token>, b: multiset<Token>)
    requires forall t :: Count(left, t) == b[t]
    ensures |multiset(pred[..0]) * b| == 0 && Tracks(left, multiset(pred[..0]), b)
  {
    assert multiset(pred[..0]) == multiset{};
    assert multiset(pred[..0]) * b == multiset{};
  }

  /** The two counting loops find the size of the multiset intersection. */
  method CountCommon(pred: seq<Token>, ref: seq<Token>) returns (common: nat)
    ensures common == Common(pred, ref)
  {
    var left := CountTokens(ref);
    common := 0;
    NoTokenYet(left, pred, multiset(ref));
    for i := 0 to |pred|
      invariant common == |multiset(pred[..i]) * multiset(ref)|
      invariant Tracks(left, multiset(pred[..i]), multiset(ref))
    {
      OneMoreToken(left, pred, i, multiset(ref));
      var t := pred[i];
      if Count(left, t) > 0 {
        left := left[t := left[t] - 1];
        common := common + 1;
      }
    }
    assert pred[..|pred|] == pred;
  }

  method TokenF1(pred: seq<Token>, ref: seq<Token>) returns (f: real)
    ensures f == F1(pred, ref)
  {
    if pred == [] || ref == [] {
      return if pred == [] && ref == [] then 1.0 else 0.0;
    }
    var common := CountCommon(pred, ref);
    if common == 0 {
      return 0.0;
    }
    HarmonicMean(common, |pred|, |ref|);
    var precision := common as real / |pred| as real;
    var recall := common as real / |ref| as real;
    return 2.0 * precision * recall / (precision + recall);
  }

  /** The score is symmetric, within [0, 1], and 1 exactly for equal token bags. */
  lemma F1Properties(a: seq<Token>, b: seq<Token>)
    ensures F1(a, b) == F1(b, a)
    ensures 0.0 <= F1(a, b) <= 1.0
    ensures F1(a, b) == 1.0 <==> multiset(a) == multiset(b)
    ensures F1(a, b) == 0.0 <==> Common(a, b) == 0 && (a != [] || b != [])
  {
    CommonBound(a, b);
    assert |multiset(a)| == |a| && |multiset(b)| == |b|;
    if a != [] && b != [] {
      Ratio(2.0 * Common(a, b) as real, (|a| + |b|) as real);
    }
  }

  // ---- per-key match ---------------------------------------------------------------------------

  function Hits(pred: Json, ref: Json): set<string> {
    set k | k in ref && k in pred && pred[k] == ref[k]
  }

  function KeyMatch(pred: Json, ref: Json): real {
    if |ref| == 0 then 1.0 else |Hits(pred, ref)| as real / |ref| as real
  }

  lemma SubsetSize<T>(a: set<T>, b: set<T>)
    requires a <= b
    ensures |a| <= |b| && (|a| == |b| <==> a == b)
  {
    assert b == a + (b - a);
    if |b - a| == 0 {
      assert a == b;
    }
  }

  /** Within [0, 1], and 1 exactly when the prediction reproduces every key of the reference. */
  lemma KeyMatchProperties(pred: Json, ref: Json)
    ensures 0.0 <= KeyMatch(pred, ref) <= 1.0
    ensures KeyMatch(pred, ref) == 1.0 <==> forall k :: k in ref ==> k in pred && pred[k] == ref[k]
  {
    var hits := Hits(pred, ref);
    assert |ref| == |ref.Keys|;
    SubsetSize(hits, ref.Keys);
    assert hits == ref.Keys <==> forall k :: k in ref ==> k in pred && pred[k] == ref[k];
    if |ref| > 0 {
      Ratio(|hits| as real, |ref| as real);
    }
  }

  // ---- the aggregate ---------------------------------------------------------------------------

  /** One prediction or one reference. */
  datatype Line = Line(text: string)

  function RowScore(task: Task, pred: string, ref: string, rd: Readers): real {
    match task
    case Classify => if rd.norm(pred) == rd.norm(ref) then 1.0 else 0.0
    case Freeform => F1(rd.tokens(pred), rd.tokens(ref))
    case Extract =>
      if rd.json(pred).None? then 0.0
      else KeyMatch(rd.json(pred).value, if rd.json(ref).Some? then rd.json(ref).value else map[])
  }

  lemma RatioTimes(x: real, n: real)
    requires n != 0.0
    ensures (x / n) * n == x
  {
  }

  /** The keys of the reference the prediction reproduces are what is counted. */
  lemma KeyMatchCounts(pred: Json, ref: Json)
    requires |ref| > 0
    ensures KeyMatch(pred, ref) * |ref| as real == |set k | k in ref && k in pred && pred[k] == ref[k]| as real
  {
    assert Hits(pred, ref) == set k | k in ref && k in pred && pred[k] == ref[k];
    RatioTimes(|Hits(pred, ref)| as real, |ref| as real);
  }

  /** Twice the shared tokens over both lengths. */
  lemma F1Counts(pred: seq<Token>, ref: seq<Token>)
    requires pred != [] && ref != []
    ensures F1(pred, ref) * (|pred| + |ref|) as real == 2.0 * |multiset(pred) * multiset(ref)| as real
  {
    RatioTimes(2.0 * Common(pred, ref) as real, (|pred| + |ref|) as real);
  }

  /**
  What a row's score says: for `classify`, 1 exactly for equal normalised labels and otherwise 0;
  for `extract`, 0 for a prediction that is no JSON object, otherwise the share of the reference's
  keys it reproduces, a reference that is none counting as empty; for `freeform`, the token F1.
  */
  lemma RowScoreMeans(pred: string, ref: string, rd: Readers)
    ensures RowScore(Classify, pred, ref, rd) == 1.0 <==> rd.norm(pred) == rd.norm(ref)
    ensures RowScore(Classify, pred, ref, rd) == 0.0 <==> rd.norm(pred) != rd.norm(ref)
    ensures rd.json(pred).None? ==> RowScore(Extract, pred, ref, rd) == 0.0
    ensures rd.json(pred).Some? && (rd.json(ref).None? || |rd.json(ref).value| == 0) ==>
      RowScore(Extract, pred, ref, rd) == 1.0
    ensures rd.json(pred).Some? && rd.json(ref).Some? && |rd.json(ref).value| > 0 ==>
      var p, q := rd.json(pred).value, rd.json(ref).value;
      RowScore(Extract, pred, ref, rd) * |q| as real == |set k | k in q && k in p && p[k] == q[k]| as real
    ensures RowScore(Freeform, pred, ref, rd) == F1(rd.tokens(pred), rd.tokens(ref))
  {
    if rd.json(pred).Some? && rd.json(ref).Some? && |rd.json(ref).value| > 0 {
      KeyMatchCounts(rd.json(pred).value, rd.json(ref).value);
    }
  }

  function Sum(s: seq<real>): real {
    if s == [] then 0.0 else Sum(s[..|s| - 1]) + s[|s| - 1]
  }

  function Mean(s: seq<real>): real {
    if s == [] then 0.0 else Sum(s) / |s| as real
  }

  lemma SumAppend(s: seq<real>, x: real)
    ensures Sum(s + [x]) == Sum(s) + x
  {
    assert (s + [x])[..|s|] == s;
  }

  lemma RateTimesMean(total: real, parsed: nat, n: nat)
    requires n > 0 && (parsed == 0 ==> total == 0.0)
    ensures parsed as real / n as real * (if parsed == 0 then 0.0 else total / parsed as real) == total / n as real
  {
    if parsed > 0 {
      var p, m := parsed as real, n as real;
      assert (p / m) * (total / p) * m == total by {
        assert (p / m) * m == p;
        assert (total / p) * p == total;
        assert (p / m) * (total / p) * m == ((p / m) * m) * (total / p);
      }
      assert total / m * m == total;
    }
  }

  method SumOf(rows: seq<real>) returns (total: real)
    ensures total == Sum(rows)
  {
    total := 0.0;
    for i := 0 to |rows|
      invariant total == Sum(rows[..i])
    {
      assert rows[..i + 1] == rows[..i] + [rows[i]];
      SumAppend(rows[..i], rows[i]);
      total := total + rows[i];
    }
    assert rows[..|rows|] == rows;
  }

  /** The scores of the first `n` rows. */
  function RowScores(task: Task, preds: seq<Line>, refs: seq<Line>, rd: Readers, n: nat): (r: seq<real>)
    requires n <= |preds| && n <= |refs|
    ensures |r| == n
  {
    if n == 0 then [] else
      RowScores(task, preds, refs, rd, n - 1) + [RowScore(task, preds[n - 1].text, refs[n - 1].text, rd)]
  }

  lemma {:induction false} RowScoresAt(task: Task, preds: seq<Line>, refs: seq<Line>, rd: Readers, n: nat, i: nat)
    requires i < n <= |preds| && n <= |refs|
    ensures RowScores(task, preds, refs, rd, n)[i] == RowScore(task, preds[i].text, refs[i].text, rd)
  {
    if i < n - 1 {
      RowScoresAt(task, preds, refs, rd, n - 1, i);
    }
  }

  /** How many of the first `n` predictions carry the reference's label. */
  function Agreeing(preds: seq<Line>, refs: seq<Line>, rd: Readers, n: nat): nat
    requires n <= |preds| && n <= |refs|
  {
    if n == 0 then 0 else
      Agreeing(preds, refs, rd, n - 1) + (if rd.norm(preds[n - 1].text) == rd.norm(refs[n - 1].text) then 1 else 0)
  }

  lemma {:induction false} ClassifySum(preds: seq<Line>, refs: seq<Line>, rd: Readers, n: nat)
    requires n <= |preds| && n <= |refs|
    ensures Sum(RowScores(Classify, preds, refs, rd, n)) == Agreeing(preds, refs, rd, n) as real
  {
    if n > 0 {
      ClassifySum(preds, refs, rd, n - 1);
      RowScoreMeans(preds[n - 1].text, refs[n - 1].text, rd);
      SumAppend(RowScores(Classify, preds, refs, rd, n - 1),
        RowScore(Classify, preds[n - 1].text, refs[n - 1].text, rd));
    }
  }

  /** The score of one row of a `classify` or `freeform` task. */
  method ScoreRow(task: Task, pred: string, ref: string, rd: Readers) returns (x: real)
    requires !task.Extract?
    ensures x == RowScore(task, pred, ref, rd)
  {
    if task.Classify? {
      x := if rd.norm(pred) == rd.norm(ref) then 1.0 else 0.0;
    } else {
      x := TokenF1(rd.tokens(pred), rd.tokens(ref));
    }
  }

  /** `classify` and `freeform`: score the rows one by one. */
  method ScoreRows(task: Task, preds: seq<Line>, refs: seq<Line>, rd: Readers) returns (rows: seq<real>)
    requires |preds| == |refs| && !task.Extract?
    ensures rows == RowScores(task, preds, refs, rd, |refs|)
  {
    rows := [];
    for i := 0 to |refs|
      invariant rows == RowScores(task, preds, refs, rd, i)
    {
      var x := ScoreRow(task, preds[i].text, refs[i].text, rd);
      rows := rows + [x];
    }
  }

  /** The score of one `extract` row, and whether its prediction parsed. */
  method ExtractRow(pred: string, ref: string, rd: Readers) returns (x: real, parsed: bool)
    ensures x == RowScore(Extract, pred, ref, rd)
    ensures parsed <==> rd.json(pred).Some?
    ensures !parsed ==> x == 0.0
  {
    var refObj := rd.json(ref);
    var predObj := rd.json(pred);
    if predObj.None? {
      return 0.0, false;
    }
    x, parsed := KeyMatch(predObj.value, if refObj.Some? then refObj.value else map[]), true;
  }

  /** The scores of those of the first `n` rows whose prediction parsed. */
  function ParsedScores(preds: seq<Line>, refs: seq<Line>, rd: Readers, n: nat): seq<real>
    requires n <= |preds| && n <= |refs|
  {
    if n == 0 then [] else
      ParsedScores(preds, refs, rd, n - 1)
      + (if rd.json(preds[n - 1].text).None? then [] else [RowScore(Extract, preds[n - 1].text, refs[n - 1].text, rd)])
  }

  /** `extract`: row scores, and the matches of the rows that parsed. */
  method ExtractRows(preds: seq<Line>, refs: seq<Line>, rd: Readers) returns (rows: seq<real>, matches: seq<real>)
    requires |preds| == |refs|
    ensures rows == RowScores(Extract, preds, refs, rd, |refs|)
    ensures matches == ParsedScores(preds, refs, rd, |refs|)
    ensures Sum(matches) == Sum(rows)
  {
    rows, matches := [], [];
    for i := 0 to |refs|
      invariant rows == RowScores(Extract, preds, refs, rd, i)
      invariant matches == ParsedScores(preds, refs, rd, i)
      invariant Sum(matches) == Sum(rows)
    {
      var x, parsed := ExtractRow(preds[i].text, refs[i].text, rd);
      SumAppend(rows, x);
      SumAppend(matches, x);
      rows := rows + [x];
      if parsed {
        matches := matches + [x];
      }
    }
  }

  datatype AggregateError = LengthMismatch

  /** The product of the parse rate and the mean over the parsed rows. */
  method ExtractAggregate(preds: seq<Line>, refs: seq<Line>, rd: Readers) returns (score: real, rows: seq<real>)
    requires |preds| == |refs| > 0
    ensures rows == RowScores(Extract, preds, refs, rd, |refs|) && score == Mean(rows)
  {
    var matches;
    rows, matches := ExtractRows(preds, refs, rd);
    var total := SumOf(matches);
    RateTimesMean(total, |matches|, |refs|);
    var parseRate := |matches| as real / |refs| as real;
    var meanMatch := if |matches| == 0 then 0.0 else total / |matches| as real;
    score := parseRate * meanMatch;
  }

  /** The mean over the rows of a `classify` or `freeform` task. */
  method PlainAggregate(task: Task, preds: seq<Line>, refs: seq<Line>, rd: Readers)
    returns (score: real, rows: seq<real>)
    requires |preds| == |refs| > 0 && !task.Extract?
    ensures rows == RowScores(task, preds, refs, rd, |refs|) && score == Mean(rows)
  {
    rows := ScoreRows(task, preds, refs, rd);
    var total := SumOf(rows);
    score := total / |refs| as real;
  }

  /** The `classify` aggregate times the number of rows is the number of rows whose labels agree. */
  lemma ClassifyMeanCounts(preds: seq<Line>, refs: seq<Line>, rd: Readers)
    requires |preds| == |refs| > 0
    ensures Mean(RowScores(Classify, preds, refs, rd, |refs|)) * |refs| as real
         == Agreeing(preds, refs, rd, |refs|) as real
  {
    var rows := RowScores(Classify, preds, refs, rd, |refs|);
    ClassifySum(preds, refs, rd, |refs|);
    RatioTimes(Sum(rows), |refs| as real);
  }

  /**
  Every task's aggregate is the mean of its row scores. For `extract` the code multiplies the
  parse rate by the mean over the parsed rows; the product is that mean.
  */
  method Aggregate(task: Task, preds: seq<Line>, refs: seq<Line>, rd: Readers)
    returns (r: Result<(real, seq<real>), AggregateError>)
    ensures r.Err? <==> refs != [] && |preds| != |refs|
    ensures r.Ok? ==> |r.value.1| == |refs| && r.value.0 == Mean(r.value.1)
    ensures r.Ok? ==> forall i :: 0 <= i < |refs| ==> r.value.1[i] == RowScore(task, preds[i].text, refs[i].text, rd)
    ensures r.Ok? && refs != [] ==> r.value.1 == RowScores(task, preds, refs, rd, |refs|)
  {
    if refs == [] {
      return Ok((0.0, []));
    }
    if |preds| != |refs| {
      return Err(LengthMismatch);
    }
    var score, rows;
    if task.Extract? {
      score, rows := ExtractAggregate(preds, refs, rd);
    } else {
      score, rows := PlainAggregate(task, preds, refs, rd);
    }
    forall i | 0 <= i < |refs|
      ensures rows[i] == RowScore(task, preds[i].text, refs[i].text, rd)
    {
      RowScoresAt(task, preds, refs, rd, |refs|, i);
    }
    r := Ok((score, rows));
  }

  // ---- the gate rule ---------------------------------------------------------------------------

  datatype Rule = Improvement | AbsoluteFloor | FailedRule

  datatype GateConfig = GateConfig(minImprovement: real, absoluteFloor: real)

  const EPS := 0.000000001

  function Decide(adapter: real, base: real, cfg: GateConfig): Rule {
    var delta := adapter - base;
    if delta >= cfg.minImprovement - EPS then Improvement
    else if adapter >= cfg.absoluteFloor - EPS && delta >= -EPS then AbsoluteFloor
    else FailedRule
  }

  predicate Passes(adapter: real, base: real, cfg: GateConfig) {
    !Decide(adapter, base, cfg).FailedRule?
  }

  lemma {:induction false} SumRaised(s: seq<real>, i: nat, x: real)
    requires i < |s|
    ensures Sum(s[i := x]) == Sum(s) + (x - s[i])
  {
    var t := s[i := x];
    var n := |s| - 1;
    if i == n {
      assert t[..n] == s[..n];
    } else {
      SumRaised(s[..n], i, x);
      assert t[..n] == s[..n][i := x];
    }
  }

  lemma MeanRaised(s: seq<real>, i: nat, x: real)
    requires i < |s| && x >= s[i]
    ensures Mean(s[i := x]) >= Mean(s)
  {
    SumRaised(s, i, x);
    RatioMonotone(Sum(s), Sum(s[i := x]), |s| as real);
  }

  /** Raising any one adapter row score never turns a pass into a fail. */
  lemma RaisingARowNeverFails(rows: seq<real>, i: nat, x: real, base: real, cfg: GateConfig)
    requires i < |rows| && x >= rows[i] && Passes(Mean(rows), base, cfg)
    ensures Passes(Mean(rows[i := x]), base, cfg)
  {
    MeanRaised(rows, i, x);
  }

  /** The code's rule is the documented one up to the rounding slack, both ways. */
  lemma GateRule(adapter: real, base: real, cfg: GateConfig)
    ensures adapter >= base + cfg.minImprovement || (adapter >= cfg.absoluteFloor && adapter >= base) ==>
      Passes(adapter, base, cfg)
    ensures Passes(adapter, base, cfg) ==>
      var x := adapter + 0.000000001;
      x >= base + cfg.minImprovement || (x >= cfg.absoluteFloor && x >= base)
  {
  }
}
