/**
Fitting the prompt into the context window, and numbering what it cites (adapta/services/chat.py,
adapta/services/rag.py).

The tokenizer is an arbitrary function of the prompt: nothing is assumed about how dropping a
chunk changes the count.
*/
module ContextFit {
  import opened Prelude
  import opened Text

  datatype Chunk = Chunk(source: string, header: Option<string>, text: string)

  // ---- marks ----------------------------------------------------------------------------------------

  function Digit(d: nat): char
    requires d < 10
  {
    '0' + d as char
  }

  function Decimal(n: nat): string {
    if n < 10 then [Digit(n)] else Decimal(n / 10) + [Digit(n % 10)]
  }

  /** The mark a block starts with and an answer cites. */
  function Mark(n: nat): string {
    "[" + Decimal(n) + "]"
  }

  // ---- the prompt --------------------------------------------------------------------------------------

  /** The source, the header if there is one, and the text. */
  function BlockBody(c: Chunk): string {
    var header := if c.header.Some? && c.header.value != "" then c.header.value + "\n" else "";
    " (source: " + c.source + ")\n" + header + c.text
  }

  function Block(n: nat, c: Chunk): string {
    Mark(n) + BlockBody(c)
  }

  function Blocks(chunks: seq<Chunk>): (r: seq<string>)
    ensures |r| == |chunks|
  {
    seq(|chunks|, i requires 0 <= i < |chunks| => Block(i + 1, chunks[i]))
  }

  function ContextBlock(chunks: seq<Chunk>): string {
    Join("\n\n---\n\n", Blocks(chunks))
  }

  /** The fixed paragraphs of the system prompt. */
  datatype Wording = Wording(intro: string, noContext: string, abstention: string)

  /** What a request brings besides its chunks. Empty strings count as absent. */
  datatype Setup = Setup(base: string, client: string, rag: bool, abstain: bool, wording: Wording)

  function Optional(s: string): seq<string> {
    if s == "" then [] else [s]
  }

  /** Project prompt, then the context (or the line saying there is none), the abstention line, the client's text. */
  function Paragraphs(u: Setup, chunks: seq<Chunk>): seq<string> {
    Optional(u.base)
    + (if chunks != [] && u.rag then [u.wording.intro + ContextBlock(chunks)]
       else if u.abstain then [u.wording.noContext] else [])
    + (if u.abstain then [u.wording.abstention] else [])
    + Optional(u.client)
  }

  function BuildSystem(u: Setup, chunks: seq<Chunk>): Option<string> {
    var text := Strip(Join("\n\n", Paragraphs(u, chunks)));
    if text == "" then None else Some(text)
  }

  // ---- fitting -----------------------------------------------------------------------------------------

  const MIN_GEN_RESERVE := 16

  function Min(a: int, b: int): int {
    if a < b then a else b
  }

  /** The prompt with these chunks leaves room for a minimal answer. */
  predicate Fits(u: Setup, chunks: seq<Chunk>, count: Option<string> -> int, nCtx: int, maxTokens: int) {
    count(BuildSystem(u, chunks)) + Min(MIN_GEN_RESERVE, maxTokens) <= nCtx
  }

  datatype Fitted = Fitted(prompt: Option<string>, kept: seq<Chunk>, cap: int)

  datatype Error = PromptTooLong

  /**
  Keeps exactly the longest prefix of the chunks whose prompt leaves the reserve; fails only when
  no prefix does, the empty one included. The answer cap is at least the reserve, and prompt plus
  cap stay within the window; asked for no tokens at all the code still allows one, which may be
  one too many.
  */
  method FitContext(u: Setup, chunks: seq<Chunk>, count: Option<string> -> int, nCtx: int, maxTokens: int)
    returns (r: Result<Fitted, Error>)
    ensures r.Err? <==> forall j :: 0 <= j <= |chunks| ==> !Fits(u, chunks[..j], count, nCtx, maxTokens)
    ensures r.Ok? ==>
      var f := r.value; var n := count(f.prompt);
      && |f.kept| <= |chunks| && f.kept == chunks[..|f.kept|] && f.prompt == BuildSystem(u, f.kept)
      && Fits(u, f.kept, count, nCtx, maxTokens)
      && (forall j :: |f.kept| < j <= |chunks| ==> !Fits(u, chunks[..j], count, nCtx, maxTokens))
      && (if maxTokens < 16 then maxTokens else 16) <= f.cap
      && (n + f.cap <= nCtx <==> maxTokens >= 1 || n < nCtx)
      && (maxTokens >= 1 ==> f.cap <= maxTokens && (f.cap == maxTokens || n + f.cap == nCtx))
      && (maxTokens < 1 ==> f.cap == 1)
  {
    var kept := chunks;
    assert chunks == chunks[..|chunks|];
    while true
      invariant |kept| <= |chunks| && kept == chunks[..|kept|]
      invariant forall j :: |kept| < j <= |chunks| ==> !Fits(u, chunks[..j], count, nCtx, maxTokens)
      decreases |kept|
    {
      var prompt := BuildSystem(u, kept);
      var n := count(prompt);
      if n + Min(MIN_GEN_RESERVE, maxTokens) <= nCtx {
        assert Fits(u, chunks[..|kept|], count, nCtx, maxTokens);
        var room := Min(maxTokens, nCtx - n);
        return Ok(Fitted(prompt, kept, if room > 1 then room else 1));
      }
      if kept == [] {
        return Err(PromptTooLong);
      }
      kept := kept[..|kept| - 1];
    }
  }

  // ---- citations ---------------------------------------------------------------------------------------

  datatype Citation = Citation(index: nat, source: string, text: string)

  function Citations(chunks: seq<Chunk>): (r: seq<Citation>)
    ensures |r| == |chunks|
  {
    seq(|chunks|, i requires 0 <= i < |chunks| => Citation(i + 1, chunks[i].source, chunks[i].text))
  }

  lemma {:induction false} DecimalHasNoBracket(n: nat)
    ensures ']' !in Decimal(n)
    ensures Decimal(n) != []
  {
    if n >= 10 {
      DecimalHasNoBracket(n / 10);
    }
  }

  lemma {:induction false} DecimalInjective(m: nat, n: nat)
    requires Decimal(m) == Decimal(n)
    ensures m == n
    decreases m
  {
    DecimalHasNoBracket(m / 10);
    DecimalHasNoBracket(n / 10);
    var s, t := Decimal(m), Decimal(n);
    assert |s| == 1 <==> m < 10;
    assert |t| == 1 <==> n < 10;
    if m < 10 {
      assert s[0] == t[0];
    } else {
      assert s[..|s| - 1] == Decimal(m / 10);
      assert t[..|t| - 1] == Decimal(n / 10);
      DecimalInjective(m / 10, n / 10);
      assert s[|s| - 1] == t[|t| - 1];
    }
  }

  /** What a string of digits says. */
  function Reads(s: string): int {
    if s == [] then 0 else 10 * Reads(s[..|s| - 1]) + (s[|s| - 1] as int - '0' as int)
  }

  /** The digits of a number say that number, without a leading zero. */
  lemma {:induction false} DecimalReads(n: nat)
    ensures Reads(Decimal(n)) == n && (n > 0 ==> Decimal(n)[0] != '0')
  {
    DecimalHasNoBracket(n);
    if n >= 10 {
      DecimalReads(n / 10);
      assert Decimal(n)[..|Decimal(n)| - 1] == Decimal(n / 10);
    }
  }

  lemma MarkPrefix(m: nat, n: nat, rest: string)
    requires Mark(m) <= Mark(n) + rest
    ensures m == n
  {
    var s := Mark(n) + rest;
    DecimalHasNoBracket(m);
    DecimalHasNoBracket(n);
    var a, b := |Decimal(m)|, |Decimal(n)|;
    assert Mark(m)[a + 1] == ']' && s[b + 1] == ']';
    forall i | 0 <= i < a
      ensures Mark(m)[i + 1] == Decimal(m)[i] && s[i + 1] == Decimal(m)[i]
    {
    }
    forall i | 0 <= i < b
      ensures s[i + 1] == Decimal(n)[i]
    {
    }
    assert a == b;
    assert Decimal(m) == s[1..a + 1] == Decimal(n);
    DecimalInjective(m, n);
  }

  /**
  Citation `i` and block `i` of the prompt come from the same chunk, and a mark `[n]` opens that
  block exactly when the citation's number is `n`: an answer's `[n]` names one citation.
  */
  lemma CitationNamesItsBlock(chunks: seq<Chunk>, i: nat, n: nat)
    requires i < |chunks|
    ensures var c := Citations(chunks)[i];
      && c.index == i + 1 && c.source == chunks[i].source && c.text == chunks[i].text
      && Blocks(chunks)[i] == Block(c.index, chunks[i])
      && (Mark(n) <= Blocks(chunks)[i] <==> c.index == n)
  {
    var c := Citations(chunks)[i];
    var b := Blocks(chunks)[i];
    var rest := BlockBody(chunks[i]);
    assert b == Mark(i + 1) + rest;
    if Mark(n) <= b {
      MarkPrefix(n, i + 1, rest);
    }
  }

  lemma StripRightKeepsFront(s: string)
    requires s != [] && !IsSpace(s[0])
    ensures StripRight(s) != []
  {
    assert s == s[..1] + s[1..];
    StripRightKeeps(s[..1], s[1..]);
  }

  /** Every kept chunk's block, up to white space after it, stands in the prompt the model receives. */
  lemma PromptHoldsEveryBlock(u: Setup, chunks: seq<Chunk>, i: nat)
    requires i < |chunks| && u.rag
    ensures BuildSystem(u, chunks).Some?
    ensures Strip(Block(i + 1, chunks[i])) != []
    ensures Holds(BuildSystem(u, chunks).value, Strip(Block(i + 1, chunks[i])))
  {
    var b := Block(i + 1, chunks[i]);
    assert b[0] == '[';
    StripRightKeepsFront(b);
    JoinHolds("\n\n---\n\n", Blocks(chunks), i);
    var ps := Paragraphs(u, chunks);
    var k := |Optional(u.base)|;
    assert ps[k] == u.wording.intro + ContextBlock(chunks);
    assert Surrounds(ps[k], u.wording.intro, ContextBlock(chunks), []);
    HoldsIsTransitive(ps[k], ContextBlock(chunks), b);
    JoinHolds("\n\n", ps, k);
    HoldsIsTransitive(Join("\n\n", ps), ps[k], b);
    StripHolds(Join("\n\n", ps), b);
  }

  // ---- what the prompt says ----------------------------------------------------------------------------

  /** A block reads: its mark, its source in brackets, its header if it has one, its text. */
  lemma BlockReads(n: nat, c: Chunk)
    ensures Block(n, c) == "[" + Decimal(n) + "] (source: " + c.source + ")\n"
      + (if c.header == None || c.header == Some("") then "" else c.header.value + "\n") + c.text
  {
  }

  lemma BlockHolds(n: nat, c: Chunk)
    ensures Holds(Block(n, c), c.text) && Holds(Block(n, c), c.source)
    ensures c.header.Some? ==> Holds(Block(n, c), c.header.value)
  {
    var b, front := Block(n, c), Mark(n) + " (source: ";
    var header := if c.header.Some? && c.header.value != "" then c.header.value + "\n" else "";
    assert b == (front + c.source + ")\n" + header) + c.text + [];
    assert Surrounds(b, front + c.source + ")\n" + header, c.text, []);
    assert b == front + c.source + (")\n" + header + c.text);
    assert Surrounds(b, front, c.source, ")\n" + header + c.text);
    if c.header.Some? {
      HeaderHolds(n, c);
    }
  }

  lemma HeaderHolds(n: nat, c: Chunk)
    requires c.header.Some?
    ensures Holds(Block(n, c), c.header.value)
  {
    var b, front := Block(n, c), Mark(n) + " (source: " + c.source + ")\n";
    if c.header.value == "" {
      assert Surrounds(b, [], [], b);
    } else {
      assert b == front + c.header.value + ("\n" + c.text);
      assert Surrounds(b, front, c.header.value, "\n" + c.text);
    }
  }

  /** What stands in a paragraph stands in the prompt, up to white space at its ends. */
  lemma PromptHolds(u: Setup, chunks: seq<Chunk>, k: nat, part: string)
    requires k < |Paragraphs(u, chunks)| && Holds(Paragraphs(u, chunks)[k], part) && Strip(part) != ""
    ensures BuildSystem(u, chunks).Some? && Holds(BuildSystem(u, chunks).value, Strip(part))
  {
    var ps := Paragraphs(u, chunks);
    JoinHolds("\n\n", ps, k);
    HoldsIsTransitive(Join("\n\n", ps), ps[k], part);
    StripHolds(Join("\n\n", ps), part);
    var found := Strip(part);
    assert Strip(Join("\n\n", ps)) != "" by {
      var pre, post :| Surrounds(Strip(Join("\n\n", ps)), pre, found, post);
      assert |Strip(Join("\n\n", ps))| == |pre| + |found| + |post|;
    }
  }

  /** `part`, unless it is blank, stands in the prompt. */
  ghost predicate Says(u: Setup, chunks: seq<Chunk>, part: string) {
    Strip(part) != "" ==> BuildSystem(u, chunks).Some? && Holds(BuildSystem(u, chunks).value, Strip(part))
  }

  /** Every kept chunk's text, source and header stand in the prompt the model receives. */
  lemma PromptSaysEveryChunk(u: Setup, chunks: seq<Chunk>, i: nat)
    requires i < |chunks| && u.rag
    ensures Says(u, chunks, chunks[i].text) && Says(u, chunks, chunks[i].source)
    ensures chunks[i].header.Some? ==> Says(u, chunks, chunks[i].header.value)
  {
    BlockHolds(i + 1, chunks[i]);
    ChunkPartIsSaid(u, chunks, i, chunks[i].text);
    ChunkPartIsSaid(u, chunks, i, chunks[i].source);
    if chunks[i].header.Some? {
      ChunkPartIsSaid(u, chunks, i, chunks[i].header.value);
    }
  }

  lemma ChunkPartIsSaid(u: Setup, chunks: seq<Chunk>, i: nat, part: string)
    requires i < |chunks| && u.rag && Holds(Block(i + 1, chunks[i]), part)
    ensures Says(u, chunks, part)
  {
    if Strip(part) != "" {
      var k := ContextParagraph(u, chunks, i);
      HoldsIsTransitive(Paragraphs(u, chunks)[k], Block(i + 1, chunks[i]), part);
      PromptHolds(u, chunks, k, part);
    }
  }

  /** The paragraph of the context holds every block. */
  lemma ContextParagraph(u: Setup, chunks: seq<Chunk>, i: nat) returns (k: nat)
    requires i < |chunks| && u.rag
    ensures k < |Paragraphs(u, chunks)| && Holds(Paragraphs(u, chunks)[k], Block(i + 1, chunks[i]))
  {
    k := |Optional(u.base)|;
    var p := Paragraphs(u, chunks)[k];
    assert p == u.wording.intro + ContextBlock(chunks);
    assert Surrounds(p, u.wording.intro, ContextBlock(chunks), []);
    JoinHolds("\n\n---\n\n", Blocks(chunks), i);
    HoldsIsTransitive(p, ContextBlock(chunks), Block(i + 1, chunks[i]));
  }

  /** Blocks stand in the context in the order of their chunks. */
  lemma BlocksStandInOrder(chunks: seq<Chunk>, i: nat, j: nat)
    requires i < j < |chunks|
    ensures HoldsInOrder(ContextBlock(chunks), Block(i + 1, chunks[i]), Block(j + 1, chunks[j]))
  {
    JoinHoldsInOrder("\n\n---\n\n", Blocks(chunks), i, j);
  }

  lemma ParagraphIsSaid(u: Setup, chunks: seq<Chunk>, k: nat)
    requires k < |Paragraphs(u, chunks)|
    ensures Says(u, chunks, Paragraphs(u, chunks)[k])
  {
    var p := Paragraphs(u, chunks)[k];
    assert Surrounds(p, [], p, []);
    if Strip(p) != "" {
      PromptHolds(u, chunks, k, p);
    }
  }

  /** The project's prompt and the client's text always stand in it; the abstention line when it is asked for. */
  lemma PromptSaysTheRest(u: Setup, chunks: seq<Chunk>)
    ensures BuildSystem(u, chunks) != Some("")
    ensures Says(u, chunks, u.base) && Says(u, chunks, u.client)
    ensures u.abstain ==> Says(u, chunks, u.wording.abstention)
    ensures u.abstain && (chunks == [] || !u.rag) ==> Says(u, chunks, u.wording.noContext)
  {
    var ps := Paragraphs(u, chunks);
    if u.base != "" {
      assert ps[0] == u.base;
      ParagraphIsSaid(u, chunks, 0);
    }
    if u.client != "" {
      assert ps[|ps| - 1] == u.client;
      ParagraphIsSaid(u, chunks, |ps| - 1);
    }
    if u.abstain {
      var k := |ps| - 1 - |Optional(u.client)|;
      assert ps[k] == u.wording.abstention;
      ParagraphIsSaid(u, chunks, k);
      if chunks == [] || !u.rag {
        assert ps[k - 1] == u.wording.noContext;
        ParagraphIsSaid(u, chunks, k - 1);
      }
    }
  }

  /** With everything set: project prompt, context or the line saying there is none, abstention line, client's text. */
  lemma PromptLayout(u: Setup, chunks: seq<Chunk>)
    requires u.base != "" && u.client != "" && u.abstain
    ensures var shown := chunks != [] && u.rag;
      var context := if shown then u.wording.intro + ContextBlock(chunks) else u.wording.noContext;
      var text := Strip(u.base + "\n\n" + context + "\n\n" + u.wording.abstention + "\n\n" + u.client);
      BuildSystem(u, chunks) == if text == "" then None else Some(text)
  {
    var context := if chunks != [] && u.rag then u.wording.intro + ContextBlock(chunks) else u.wording.noContext;
    var a, b, c, d := u.base, context, u.wording.abstention, u.client;
    assert Paragraphs(u, chunks) == [a] + ([b] + ([c] + [d]));
    JoinSplits("\n\n", [a], [b] + ([c] + [d]));
    JoinSplits("\n\n", [b], [c] + [d]);
    JoinSplits("\n\n", [c], [d]);
    JoinSplits("\n\n", [d], []);
    assert Join("\n\n", Paragraphs(u, chunks)) == a + "\n\n" + (b + "\n\n" + (c + "\n\n" + d));
    assert a + "\n\n" + (b + "\n\n" + (c + "\n\n" + d)) == a + "\n\n" + b + "\n\n" + c + "\n\n" + d;
  }
}
