/**
Splitting a text into overlapping chunks (adapta/services/documents.py).

The regular expression that finds the sentences is taken as given: the chunker works on any list
of sentences.
*/
module Chunker {
  import opened Prelude
  import opened Text

  datatype Sentence = Sentence(text: string)

  datatype Chunk = Chunk(text: string, source: string, index: nat)

  /** The characters of the first `i` sentences; a window's length is a difference of two of these. */
  function Upto(ss: seq<Sentence>, i: nat): nat
    requires i <= |ss|
  {
    if i == 0 then 0 else Upto(ss, i - 1) + |ss[i - 1].text|
  }

  lemma {:induction false} UptoGrows(ss: seq<Sentence>, i: nat, j: nat)
    requires i <= j <= |ss|
    ensures Upto(ss, i) <= Upto(ss, j)
    decreases j
  {
    if i < j {
      UptoGrows(ss, i, j - 1);
    }
  }

  // ---- windows -----------------------------------------------------------------------------------------

  /** Sentences `lo..hi`. */
  datatype Window = Window(lo: nat, hi: nat)

  function Length(ss: seq<Sentence>, lo: nat, hi: nat): int
    requires lo <= |ss| && hi <= |ss|
  {
    Upto(ss, hi) - Upto(ss, lo)
  }

  /** `ss[k..w.hi]` is the longest end of the window within the overlap. */
  ghost predicate Carries(ss: seq<Sentence>, w: Window, k: nat, overlap: int)
    requires w.hi <= |ss|
  {
    && w.lo <= k <= w.hi
    && (k < w.hi ==> Length(ss, k, w.hi) <= overlap)
    && forall m | w.lo <= m < k :: Length(ss, m, w.hi) > overlap
  }

  /** Where the first sentence that is new in window `i` stands. */
  ghost function Fresh(ws: seq<Window>, i: nat): nat
    requires i <= |ws|
  {
    if i == 0 then 0 else ws[i - 1].hi
  }

  /** Window `i` starts where it must and holds at least one new sentence. */
  ghost predicate Starts(ss: seq<Sentence>, ws: seq<Window>, i: nat, overlap: int)
    requires i < |ws|
  {
    && ws[i].lo <= Fresh(ws, i) < ws[i].hi <= |ss|
    && (if i == 0 then ws[i].lo == 0 else Carries(ss, ws[i - 1], ws[i].lo, overlap))
  }

  /** Window `i` is within the size unless it holds a single new sentence, and the next sentence would break it. */
  ghost predicate Filled(ss: seq<Sentence>, ws: seq<Window>, i: nat, size: int)
    requires i < |ws| && ws[i].lo <= |ss| && ws[i].hi <= |ss|
  {
    && (Length(ss, ws[i].lo, ws[i].hi) <= size || ws[i].hi == Fresh(ws, i) + 1)
    && (ws[i].hi < |ss| ==> Length(ss, ws[i].lo, ws[i].hi + 1) > size)
  }

  /** The windows cover all the sentences in order, each as full as the size allows. */
  ghost predicate IsChunking(ss: seq<Sentence>, ws: seq<Window>, size: int, overlap: int) {
    && Fresh(ws, |ws|) == |ss|
    && forall i | 0 <= i < |ws| :: Starts(ss, ws, i, overlap) && Filled(ss, ws, i, size)
  }

  lemma CarriesIsUnique(ss: seq<Sentence>, w: Window, k: nat, m: nat, overlap: int)
    requires w.hi <= |ss|
    requires Carries(ss, w, k, overlap) && Carries(ss, w, m, overlap)
    ensures k == m
  {
  }

  /** Two windows that start alike and hold the same first new sentence end alike. */
  lemma FilledIsUnique(ss: seq<Sentence>, vs: seq<Window>, ws: seq<Window>, i: nat, size: int, overlap: int)
    requires i < |vs| && i < |ws| && vs[..i] == ws[..i]
    requires Starts(ss, vs, i, overlap) && Filled(ss, vs, i, size)
    requires Starts(ss, ws, i, overlap) && Filled(ss, ws, i, size)
    ensures vs[i] == ws[i]
  {
    if i > 0 {
      assert vs[i - 1] == vs[..i][i - 1] == ws[i - 1];
      CarriesIsUnique(ss, vs[i - 1], vs[i].lo, ws[i].lo, overlap);
    }
    if vs[i].hi < ws[i].hi {
      UptoGrows(ss, vs[i].hi + 1, ws[i].hi);
    } else if ws[i].hi < vs[i].hi {
      UptoGrows(ss, ws[i].hi + 1, vs[i].hi);
    }
  }

  lemma {:induction false} SamePrefix(ss: seq<Sentence>, vs: seq<Window>, ws: seq<Window>, n: nat,
      size: int, overlap: int)
    requires IsChunking(ss, vs, size, overlap) && IsChunking(ss, ws, size, overlap)
    requires n <= |vs| && n <= |ws|
    ensures vs[..n] == ws[..n]
  {
    if n > 0 {
      SamePrefix(ss, vs, ws, n - 1, size, overlap);
      FilledIsUnique(ss, vs, ws, n - 1, size, overlap);
    }
  }

  lemma CannotGoOn(ss: seq<Sentence>, vs: seq<Window>, ws: seq<Window>, size: int, overlap: int)
    requires IsChunking(ss, vs, size, overlap) && IsChunking(ss, ws, size, overlap)
    requires vs <= ws
    ensures vs == ws
  {
    assert Fresh(vs, |vs|) == Fresh(ws, |vs|);
    assert |vs| < |ws| ==> Starts(ss, ws, |vs|, overlap);
  }

  /** The description leaves no choice: a text has one chunking. */
  lemma ChunkingIsUnique(ss: seq<Sentence>, vs: seq<Window>, ws: seq<Window>, size: int, overlap: int)
    requires IsChunking(ss, vs, size, overlap) && IsChunking(ss, ws, size, overlap)
    ensures vs == ws
  {
    var n := if |vs| <= |ws| then |vs| else |ws|;
    SamePrefix(ss, vs, ws, n, size, overlap);
    if |vs| <= |ws| {
      assert vs == vs[..n] == ws[..n];
      CannotGoOn(ss, vs, ws, size, overlap);
    } else {
      assert ws == ws[..n] == vs[..n];
      CannotGoOn(ss, ws, vs, size, overlap);
    }
  }

  /** Every sentence is new in exactly one window, so it is in some window. */
  lemma {:induction false} Covered(ss: seq<Sentence>, ws: seq<Window>, n: nat, k: nat, overlap: int) returns (i: nat)
    requires n <= |ws| && forall i | 0 <= i < n :: Starts(ss, ws, i, overlap)
    requires k < Fresh(ws, n)
    ensures i < n && ws[i].lo <= k < ws[i].hi <= |ss|
  {
    i := n - 1;
    assert Starts(ss, ws, i, overlap);
    if k < ws[i].lo {
      i := Covered(ss, ws, n - 1, k, overlap);
    }
  }

  // ---- chunks ------------------------------------------------------------------------------------------

  function Texts(ss: seq<Sentence>): (r: seq<string>)
    ensures |r| == |ss|
  {
    seq(|ss|, i requires 0 <= i < |ss| => ss[i].text)
  }

  function Rendered(ss: seq<Sentence>): string {
    Strip(Join(" ", Texts(ss)))
  }

  /** A window reads as its sentences one after the other with a blank between, stripped. */
  lemma RenderedIsSpaced(a: seq<Sentence>, b: seq<Sentence>)
    ensures |a| == 1 ==> Rendered(a) == Strip(a[0].text)
    ensures a != [] && b != [] ==> Rendered(a + b) == Strip(Join(" ", Texts(a)) + " " + Join(" ", Texts(b)))
  {
    assert Texts(a + b) == Texts(a) + Texts(b);
    JoinSplits(" ", Texts(a), Texts(b));
  }

  ghost predicate Within(ss: seq<Sentence>, ws: seq<Window>) {
    forall i | 0 <= i < |ws| :: ws[i].lo <= ws[i].hi <= |ss|
  }

  /** The chunks of the windows: blank ones are left out and not numbered. */
  ghost function Chunks(ss: seq<Sentence>, ws: seq<Window>, source: string): seq<Chunk>
    requires Within(ss, ws)
  {
    if ws == [] then [] else
      var before := Chunks(ss, ws[..|ws| - 1], source);
      var w := ws[|ws| - 1];
      var text := Rendered(ss[w.lo..w.hi]);
      if text == "" then before else before + [Chunk(text, source, |before|)]
  }

  /** A chunk's index is its position, its text starts and ends with more than white space, and it is a window's. */
  lemma {:induction false} ChunksAreNumbered(ss: seq<Sentence>, ws: seq<Window>, source: string, k: nat)
    requires Within(ss, ws) && k < |Chunks(ss, ws, source)|
    ensures var c := Chunks(ss, ws, source)[k];
      && c.index == k && c.source == source && Trimmed(c.text)
      && exists i | 0 <= i < |ws| :: c.text == Rendered(ss[ws[i].lo..ws[i].hi])
  {
    var n := |ws| - 1;
    var before := Chunks(ss, ws[..n], source);
    if k < |before| {
      ChunksAreNumbered(ss, ws[..n], source, k);
      var i :| 0 <= i < n && before[k].text == Rendered(ss[ws[..n][i].lo..ws[..n][i].hi]);
      assert ws[..n][i] == ws[i];
    } else {
      StripTrims(Join(" ", Texts(ss[ws[n].lo..ws[n].hi])));
    }
  }

  ghost function TextOf(ss: seq<Sentence>, w: Window): string
    requires w.lo <= w.hi <= |ss|
  {
    Rendered(ss[w.lo..w.hi])
  }

  /** The places of the windows that are not blank. */
  ghost function NonBlank(ss: seq<Sentence>, ws: seq<Window>): seq<nat>
    requires Within(ss, ws)
  {
    if ws == [] then [] else
      var n := |ws| - 1;
      if TextOf(ss, ws[n]) == "" then NonBlank(ss, ws[..n]) else NonBlank(ss, ws[..n]) + [n]
  }

  lemma {:induction false} NonBlankAscends(ss: seq<Sentence>, ws: seq<Window>)
    requires Within(ss, ws)
    ensures forall k | 0 <= k < |NonBlank(ss, ws)| :: NonBlank(ss, ws)[k] < |ws|
    ensures forall k, l | 0 <= k < l < |NonBlank(ss, ws)| :: NonBlank(ss, ws)[k] < NonBlank(ss, ws)[l]
  {
    if ws != [] {
      NonBlankAscends(ss, ws[..|ws| - 1]);
    }
  }

  lemma {:induction false} NonBlankIsAll(ss: seq<Sentence>, ws: seq<Window>, i: nat)
    requires Within(ss, ws) && i < |ws|
    ensures i in NonBlank(ss, ws) <==> TextOf(ss, ws[i]) != ""
  {
    var n := |ws| - 1;
    NonBlankAscends(ss, ws[..n]);
    if i < n {
      NonBlankIsAll(ss, ws[..n], i);
    }
  }

  /** The chunks are the windows that are not blank, in order: chunk `k` is the `k`th of them. */
  lemma {:induction false} ChunksFollowWindows(ss: seq<Sentence>, ws: seq<Window>, source: string, k: nat)
    requires Within(ss, ws)
    ensures |Chunks(ss, ws, source)| == |NonBlank(ss, ws)|
    ensures k < |NonBlank(ss, ws)| ==>
      && NonBlank(ss, ws)[k] < |ws|
      && Chunks(ss, ws, source)[k] == Chunk(TextOf(ss, ws[NonBlank(ss, ws)[k]]), source, k)
  {
    if ws != [] {
      var n := |ws| - 1;
      ChunksFollowWindows(ss, ws[..n], source, k);
      assert Chunks(ss, ws, source) == if TextOf(ss, ws[n]) == "" then Chunks(ss, ws[..n], source)
        else Chunks(ss, ws[..n], source) + [Chunk(TextOf(ss, ws[n]), source, |Chunks(ss, ws[..n], source)|)];
    }
  }

  lemma {:induction false} ChunksHoldWindow(ss: seq<Sentence>, ws: seq<Window>, source: string, i: nat) returns (k: nat)
    requires Within(ss, ws) && i < |ws| && Rendered(ss[ws[i].lo..ws[i].hi]) != ""
    ensures k < |Chunks(ss, ws, source)| && Chunks(ss, ws, source)[k].text == Rendered(ss[ws[i].lo..ws[i].hi])
  {
    var n := |ws| - 1;
    if i < n {
      k := ChunksHoldWindow(ss, ws[..n], source, i);
    } else {
      k := |Chunks(ss, ws[..n], source)|;
    }
  }

  lemma ChunkingIsWithin(ss: seq<Sentence>, ws: seq<Window>, size: int, overlap: int)
    requires IsChunking(ss, ws, size, overlap)
    ensures Within(ss, ws)
  {
    forall i | 0 <= i < |ws|
      ensures ws[i].lo <= ws[i].hi <= |ss|
    {
      assert Starts(ss, ws, i, overlap);
    }
  }

  /** No sentence that says anything is lost: some chunk contains it. */
  lemma NothingIsLost(ss: seq<Sentence>, ws: seq<Window>, source: string, size: int, overlap: int, k: nat)
    returns (c: nat)
    requires IsChunking(ss, ws, size, overlap)
    requires k < |ss| && Strip(ss[k].text) != ""
    ensures Within(ss, ws)
    ensures c < |Chunks(ss, ws, source)| && Holds(Chunks(ss, ws, source)[c].text, Strip(ss[k].text))
  {
    ChunkingIsWithin(ss, ws, size, overlap);
    var i := Covered(ss, ws, |ws|, k, overlap);
    var part := ss[ws[i].lo..ws[i].hi];
    assert Texts(part)[k - ws[i].lo] == ss[k].text;
    JoinHolds(" ", Texts(part), k - ws[i].lo);
    StripHolds(Join(" ", Texts(part)), ss[k].text);
    assert Rendered(part) != "";
    c := ChunksHoldWindow(ss, ws, source, i);
  }

  // ---- the loops ---------------------------------------------------------------------------------------

  /** Python's `given or default`: zero counts as not given. */
  function Or(given: Option<int>, default: int): int {
    if given.Some? && given.value != 0 then given.value else default
  }

  /** A size or overlap that is given and not zero is used as given, negative ones included. */
  lemma OrMeans(given: Option<int>, default: int)
    ensures Or(given, default) == default <==> given == None || given == Some(0) || given == Some(default)
    ensures given.Some? && given.value != 0 ==> Or(given, default) == given.value
  {
  }

  /** The sentences carried over from `ss[w.lo..w.hi]` and their length. */
  method Carry(current: seq<Sentence>, overlap: int, ghost ss: seq<Sentence>, ghost w: Window)
    returns (carried: seq<Sentence>, length: int)
    requires w.lo <= w.hi <= |ss| && current == ss[w.lo..w.hi]
    ensures |carried| <= |current|
    ensures var k := w.hi - |carried|;
      Carries(ss, w, k, overlap) && carried == ss[k..w.hi] && length == Length(ss, k, w.hi)
  {
    carried, length := [], 0;
    var j := |current|;
    while j > 0
      invariant 0 <= j <= |current|
      invariant carried == current[j..] && length == Length(ss, w.lo + j, w.hi)
      invariant j < |current| ==> length <= overlap
    {
      var s := current[j - 1];
      if length + |s.text| > overlap {
        break;
      }
      carried, length := [s] + carried, length + |s.text|;
      j := j - 1;
    }
    ghost var k := w.lo + j;
    forall m | w.lo <= m < k
      ensures Length(ss, m, w.hi) > overlap
    {
      UptoGrows(ss, m, k - 1);
    }
  }

  /** Appends the window's chunk unless it is blank. */
  method Flush(chunks: seq<Chunk>, current: seq<Sentence>, source: string,
      ghost ss: seq<Sentence>, ghost ws: seq<Window>, ghost w: Window)
    returns (r: seq<Chunk>)
    requires Within(ss, ws) && chunks == Chunks(ss, ws, source)
    requires w.lo <= w.hi <= |ss| && current == ss[w.lo..w.hi]
    ensures Within(ss, ws + [w]) && r == Chunks(ss, ws + [w], source)
  {
    assert (ws + [w])[..|ws|] == ws;
    var text := Strip(Join(" ", Texts(current)));
    r := chunks;
    if text != "" {
      r := r + [Chunk(text, source, |r|)];
    }
  }

  /** The windows before the one being filled, which is `lo..i`. */
  ghost predicate SoFar(ss: seq<Sentence>, ws: seq<Window>, lo: nat, i: nat, size: int, overlap: int)
    requires i <= |ss|
  {
    && Within(ss, ws) && lo <= i
    && (forall j | 0 <= j < |ws| :: Starts(ss, ws, j, overlap) && Filled(ss, ws, j, size))
    && (i == 0 ==> ws == [] && lo == 0)
    && (i > 0 ==> Starts(ss, ws + [Window(lo, i)], |ws|, overlap))
    && (i > 0 ==> Length(ss, lo, i) <= size || i == Fresh(ws, |ws|) + 1)
  }

  /** Closing the open window when the next sentence breaks it, or the text ends. */
  lemma Close(ss: seq<Sentence>, ws: seq<Window>, lo: nat, i: nat, size: int, overlap: int)
    requires 0 < i <= |ss| && SoFar(ss, ws, lo, i, size, overlap)
    requires i < |ss| ==> Length(ss, lo, i + 1) > size
    ensures var vs := ws + [Window(lo, i)];
      Within(ss, vs) && forall j | 0 <= j < |vs| :: Starts(ss, vs, j, overlap) && Filled(ss, vs, j, size)
  {
    var vs := ws + [Window(lo, i)];
    forall j | 0 <= j < |vs|
      ensures Starts(ss, vs, j, overlap) && Filled(ss, vs, j, size)
    {
      assert j < |ws| ==> Starts(ss, ws, j, overlap) && Filled(ss, ws, j, size);
      assert Fresh(vs, j) == Fresh(ws, j);
    }
  }

  lemma Opened(ss: seq<Sentence>, vs: seq<Window>, k: nat, i: nat, size: int, overlap: int)
    requires 0 < i < |ss| && vs != [] && vs[|vs| - 1].hi == i && Within(ss, vs)
    requires forall j | 0 <= j < |vs| :: Starts(ss, vs, j, overlap) && Filled(ss, vs, j, size)
    requires Carries(ss, vs[|vs| - 1], k, overlap)
    ensures SoFar(ss, vs, k, i + 1, size, overlap)
  {
    var us := vs + [Window(k, i + 1)];
    assert Fresh(us, |vs|) == i;
  }

  lemma Extended(ss: seq<Sentence>, ws: seq<Window>, lo: nat, i: nat, size: int, overlap: int)
    requires i < |ss| && SoFar(ss, ws, lo, i, size, overlap)
    requires i == 0 || Length(ss, lo, i + 1) <= size
    ensures SoFar(ss, ws, lo, i + 1, size, overlap)
  {
    var vs, us := ws + [Window(lo, i)], ws + [Window(lo, i + 1)];
    assert Fresh(us, |ws|) == Fresh(vs, |ws|) == Fresh(ws, |ws|);
    assert |ws| > 0 ==> us[|ws| - 1] == vs[|ws| - 1] == ws[|ws| - 1];
  }

  lemma Finished(ss: seq<Sentence>, ws: seq<Window>, lo: nat, size: int, overlap: int)
    requires SoFar(ss, ws, lo, |ss|, size, overlap)
    ensures if ss == [] then lo == 0 && IsChunking(ss, ws, size, overlap)
            else lo < |ss| && IsChunking(ss, ws + [Window(lo, |ss|)], size, overlap)
  {
    if ss != [] {
      Close(ss, ws, lo, |ss|, size, overlap);
    }
  }

  /** Closes the open window `lo..i`, which has no room for sentence `i`, and opens the next with the carried end. */
  method TurnOver(chunks: seq<Chunk>, current: seq<Sentence>, source: string, overlap: int,
      ghost ss: seq<Sentence>, ghost ws: seq<Window>, ghost lo: nat, ghost i: nat, ghost size: int)
    returns (r: seq<Chunk>, carried: seq<Sentence>, length: int, ghost vs: seq<Window>, ghost k: nat)
    requires 0 < i < |ss| && SoFar(ss, ws, lo, i, size, overlap) && Length(ss, lo, i + 1) > size
    requires current == ss[lo..i] && chunks == Chunks(ss, ws, source)
    ensures SoFar(ss, vs, k, i + 1, size, overlap) && k <= i
    ensures carried == ss[k..i] && length == Length(ss, k, i) && r == Chunks(ss, vs, source)
  {
    ghost var w := Window(lo, i);
    Close(ss, ws, lo, i, size, overlap);
    r := Flush(chunks, current, source, ss, ws, w);
    vs := ws + [w];
    carried, length := Carry(current, overlap, ss, w);
    k := i - |carried|;
    Opened(ss, vs, k, i, size, overlap);
  }

  lemma OneMore(ss: seq<Sentence>, k: nat, i: nat)
    requires k <= i < |ss|
    ensures ss[k..i] + [ss[i]] == ss[k..i + 1]
    ensures Length(ss, k, i + 1) == Length(ss, k, i) + |ss[i].text|
  {
  }

  /** One sentence: it joins the open window, or closes it and joins the next. */
  method Take(chunks: seq<Chunk>, current: seq<Sentence>, length: int, ss: seq<Sentence>, i: nat, source: string,
      size: int, overlap: int, ghost ws: seq<Window>, ghost lo: nat)
    returns (r: seq<Chunk>, next: seq<Sentence>, nextLength: int, ghost vs: seq<Window>, ghost k: nat)
    requires i < |ss| && SoFar(ss, ws, lo, i, size, overlap)
    requires current == ss[lo..i] && length == Length(ss, lo, i) && chunks == Chunks(ss, ws, source)
    ensures SoFar(ss, vs, k, i + 1, size, overlap)
    ensures next == ss[k..i + 1] && nextLength == Length(ss, k, i + 1) && r == Chunks(ss, vs, source)
  {
    var n := |ss[i].text|;
    r, next, nextLength, vs, k := chunks, current, length, ws, lo;
    OneMore(ss, lo, i);
    if length + n > size && current != [] {
      r, next, nextLength, vs, k := TurnOver(chunks, current, source, overlap, ss, ws, lo, i, size);
    } else {
      Extended(ss, ws, lo, i, size, overlap);
    }
    OneMore(ss, k, i);
    next := next + [ss[i]];
    nextLength := nextLength + n;
  }

  /** Emits the window still open at the end of the text, if there is one. */
  method Last(chunks: seq<Chunk>, current: seq<Sentence>, source: string,
      ghost ss: seq<Sentence>, ghost ws: seq<Window>, ghost lo: nat, ghost size: int, ghost overlap: int)
    returns (r: seq<Chunk>, ghost vs: seq<Window>)
    requires SoFar(ss, ws, lo, |ss|, size, overlap)
    requires current == ss[lo..|ss|] && chunks == Chunks(ss, ws, source)
    ensures IsChunking(ss, vs, size, overlap) && Within(ss, vs) && r == Chunks(ss, vs, source)
  {
    Finished(ss, ws, lo, size, overlap);
    r, vs := chunks, ws;
    if current != [] {
      r := Flush(chunks, current, source, ss, ws, Window(lo, |ss|));
      vs := ws + [Window(lo, |ss|)];
    }
  }

  /** Chunks the sentences; the windows behind the chunks are the one chunking of the text. */
  method ChunkText(ss: seq<Sentence>, source: string, chunkSize: Option<int>, chunkOverlap: Option<int>,
      defaultSize: int, defaultOverlap: int)
    returns (chunks: seq<Chunk>)
    ensures exists ws :: (
      && IsChunking(ss, ws, Or(chunkSize, defaultSize), Or(chunkOverlap, defaultOverlap))
      && Within(ss, ws) && chunks == Chunks(ss, ws, source))
  {
    var size, overlap := Or(chunkSize, defaultSize), Or(chunkOverlap, defaultOverlap);
    var current, length := [], 0;
    ghost var ws: seq<Window>, lo: nat := [], 0;
    chunks := [];
    for i := 0 to |ss|
      invariant SoFar(ss, ws, lo, i, size, overlap)
      invariant current == ss[lo..i] && length == Length(ss, lo, i)
      invariant chunks == Chunks(ss, ws, source)
    {
      chunks, current, length, ws, lo := Take(chunks, current, length, ss, i, source, size, overlap, ws, lo);
    }
    chunks, ws := Last(chunks, current, source, ss, ws, lo, size, overlap);
  }
}
