/**
Re-reading pages of an indexed file with the vision model (adapta/services/extraction.py,
adapta/services/rag.py).

A chunk row and its vector share an id made of the file and the chunk index, so within one file
both stores are keyed by the index.
*/
module PageReread {
  import opened Prelude

  type Text = nat
  type Fields = nat

  datatype Row = Row(page: Option<nat>, review: bool, text: Text, fields: Option<Fields>)

  datatype Stores = Stores(rows: map<nat, Row>, vectors: set<nat>)

  /** Pages to process: the flagged ones, or every page that has a number. */
  function SelectPages(rows: map<nat, Row>, all: bool): set<nat> {
    set i | i in rows && rows[i].page.Some? && (all || rows[i].review) :: rows[i].page.value
  }

  /** Asked for all, every numbered page that has rows; otherwise exactly those with a flagged row. */
  lemma SelectPagesMeans(rows: map<nat, Row>, p: nat)
    ensures p in SelectPages(rows, true) <==> exists i :: i in rows && rows[i].page == Some(p)
    ensures p in SelectPages(rows, false) <==> exists i :: i in rows && rows[i].page == Some(p) && rows[i].review
  {
  }

  function OnPage(rows: map<nat, Row>, p: nat): set<nat> {
    set i | i in rows && rows[i].page == Some(p)
  }

  ghost predicate Ascending(s: seq<nat>) {
    forall i, j :: 0 <= i < j < |s| ==> s[i] < s[j]
  }

  /** The page's chunk indexes in order: the result of the first query. */
  ghost predicate Lists(rows: map<nat, Row>, p: nat, was: seq<nat>) {
    Ascending(was) && (forall i :: i in was <==> i in OnPage(rows, p))
  }

  /** The result of the second query; 0 for a file without rows. */
  ghost predicate IsMax(rows: map<nat, Row>, m: nat) {
    (forall i :: i in rows ==> i <= m) && (m in rows || (rows.Keys == {} && m == 0))
  }

  /** The new pieces reuse the page's indexes in order; surplus pieces go after the file's last index. */
  function NewIndex(was: seq<nat>, m: nat, k: nat): nat {
    if k < |was| then was[k] else m + 1 + (k - |was|)
  }

  function NewIndexes(was: seq<nat>, m: nat, n: nat): set<nat> {
    set k | 0 <= k < n :: NewIndex(was, m, k)
  }

  /** OCR text without a confidence is never flagged. */
  function NewRow(p: nat, text: Text, fields: Option<Fields>): Row {
    Row(Some(p), false, text, fields)
  }

  function NewRows(p: nat, was: seq<nat>, m: nat, pieces: seq<Text>, fields: Option<Fields>): map<nat, Row>
    requires forall j, k :: 0 <= j < k < |pieces| ==> NewIndex(was, m, j) != NewIndex(was, m, k)
  {
    map k | 0 <= k < |pieces| :: NewIndex(was, m, k) := NewRow(p, pieces[k], fields)
  }

  lemma IndexesAreFresh(rows: map<nat, Row>, p: nat, was: seq<nat>, m: nat)
    requires Lists(rows, p, was) && IsMax(rows, m)
    ensures forall j: nat, k: nat :: j < k ==> NewIndex(was, m, j) != NewIndex(was, m, k)
    ensures forall k: nat :: NewIndex(was, m, k) in rows ==> NewIndex(was, m, k) in OnPage(rows, p)
  {
    forall k: nat
      ensures k < |was| ==> NewIndex(was, m, k) <= m
      ensures NewIndex(was, m, k) in rows ==> NewIndex(was, m, k) in OnPage(rows, p)
    {
      if k < |was| {
        assert was[k] in was;
      }
    }
  }

  /** One re-read page: the rows and the vectors it replaces, as the transaction leaves them. */
  ghost function Reread(s: Stores, p: nat, was: seq<nat>, m: nat, pieces: seq<Text>, fields: Option<Fields>): Stores
    requires Lists(s.rows, p, was) && IsMax(s.rows, m)
  {
    IndexesAreFresh(s.rows, p, was, m);
    Stores((s.rows - OnPage(s.rows, p)) + NewRows(p, was, m, pieces, fields),
           RereadVectors(s, p, was, m, |pieces|))
  }

  /** Upsert the new ids, then delete the ids that were not reused. */
  function RereadVectors(s: Stores, p: nat, was: seq<nat>, m: nat, n: nat): set<nat> {
    (s.vectors + NewIndexes(was, m, n)) - (OnPage(s.rows, p) - NewIndexes(was, m, n))
  }

  ghost predicate Synced(s: Stores) {
    s.rows.Keys == s.vectors
  }

  /**
  A re-read keeps row ids equal to vector ids, never inserts an index another row has, leaves
  every other row as it was, puts exactly the pieces on the page in order, and takes the page (and
  no other) out of the next default selection.
  */
  lemma RereadKeeps(s: Stores, p: nat, was: seq<nat>, m: nat, pieces: seq<Text>, fields: Option<Fields>)
    requires Lists(s.rows, p, was) && IsMax(s.rows, m) && Synced(s)
    ensures var t := Reread(s, p, was, m, pieces, fields);
      && Synced(t)
      && NewIndexes(was, m, |pieces|) !! (s.rows.Keys - OnPage(s.rows, p))
      && (forall i :: i in s.rows && s.rows[i].page != Some(p) ==> i in t.rows && t.rows[i] == s.rows[i])
      && (forall i :: i in t.rows && t.rows[i].page != Some(p) ==> i in s.rows && t.rows[i] == s.rows[i])
      && OnPage(t.rows, p) == NewIndexes(was, m, |pieces|)
      && (forall i: nat, j: nat :: i < j < |pieces| ==> NewIndex(was, m, i) < NewIndex(was, m, j))
      && (forall k :: 0 <= k < |pieces| ==> NewIndex(was, m, k) in t.rows)
      && (forall k :: 0 <= k < |pieces| ==> t.rows[NewIndex(was, m, k)] == NewRow(p, pieces[k], fields))
  {
    IndexesAreFresh(s.rows, p, was, m);
    var t := Reread(s, p, was, m, pieces, fields);
    var added := NewRows(p, was, m, pieces, fields);
    assert added.Keys == NewIndexes(was, m, |pieces|);
    forall i | i in t.rows && t.rows[i].page != Some(p)
      ensures i in s.rows && t.rows[i] == s.rows[i]
    {
      assert i !in added;
    }
    forall i | i in s.rows && s.rows[i].page != Some(p)
      ensures i in t.rows && t.rows[i] == s.rows[i]
    {
      assert i !in OnPage(s.rows, p) && i !in added;
    }
    assert OnPage(t.rows, p) == NewIndexes(was, m, |pieces|);
    forall i: nat, j: nat | i < j < |pieces|
      ensures NewIndex(was, m, i) < NewIndex(was, m, j)
    {
      NewIndexesAscend(s.rows, p, was, m, i, j);
    }
  }

  lemma RereadUnselects(s: Stores, p: nat, was: seq<nat>, m: nat, pieces: seq<Text>, fields: Option<Fields>)
    requires Lists(s.rows, p, was) && IsMax(s.rows, m) && Synced(s)
    ensures var t := Reread(s, p, was, m, pieces, fields);
      SelectPages(t.rows, false) == SelectPages(s.rows, false) - {p}
  {
    RereadKeeps(s, p, was, m, pieces, fields);
    var t := Reread(s, p, was, m, pieces, fields);
    forall q | q in SelectPages(t.rows, false)
      ensures q in SelectPages(s.rows, false) && q != p
    {
      var i :| i in t.rows && t.rows[i].page == Some(q) && t.rows[i].review;
      assert q != p;
      assert s.rows[i] == t.rows[i];
    }
    forall q | q in SelectPages(s.rows, false) && q != p
      ensures q in SelectPages(t.rows, false)
    {
      var i :| i in s.rows && s.rows[i].page == Some(q) && s.rows[i].review;
      assert t.rows[i] == s.rows[i];
    }
  }

  lemma ReusedIndexes(rows: map<nat, Row>, p: nat, was: seq<nat>, m: nat, n: nat)
    requires Lists(rows, p, was) && IsMax(rows, m)
    ensures OnPage(rows, p) <= NewIndexes(was, m, n) <==> |was| <= n
    ensures NewIndexes(was, m, n) <= rows.Keys <==> n <= |was|
  {
    IndexesAreFresh(rows, p, was, m);
    if |was| <= n {
      forall i | i in OnPage(rows, p)
        ensures i in NewIndexes(was, m, n)
      {
        var k :| 0 <= k < |was| && was[k] == i;
        assert NewIndex(was, m, k) == i;
      }
    } else {
      var i := was[n];
      assert i in was && i in OnPage(rows, p);
      assert NewIndex(was, m, n) == i;
      assert i !in NewIndexes(was, m, n);
    }
    if n <= |was| {
      forall i | i in NewIndexes(was, m, n)
        ensures i in rows
      {
        var k :| 0 <= k < n && NewIndex(was, m, k) == i;
        assert was[k] in was;
      }
    } else {
      assert NewIndex(was, m, |was|) == m + 1;
      assert m + 1 in NewIndexes(was, m, n);
    }
  }

  /**
  When the transaction fails after the vectors were changed, the rows roll back alone. Every row
  then still has a vector exactly when the page did not shrink, and the ids still agree exactly
  when the page kept its number of chunks.
  */
  lemma FailedCommitAfterReread(s: Stores, p: nat, was: seq<nat>, m: nat, n: nat)
    requires Lists(s.rows, p, was) && IsMax(s.rows, m) && Synced(s)
    ensures s.rows.Keys <= RereadVectors(s, p, was, m, n) <==> |was| <= n
    ensures s.rows.Keys == RereadVectors(s, p, was, m, n) <==> |was| == n
  {
    ReusedIndexes(s.rows, p, was, m, n);
    var after := RereadVectors(s, p, was, m, n);
    var added := NewIndexes(was, m, n);
    assert OnPage(s.rows, p) <= s.rows.Keys;
    if |was| > n {
      var i :| i in OnPage(s.rows, p) && i !in added;
      assert i !in after;
    } else if |was| < n {
      var i :| i in added && i !in s.rows.Keys;
      assert i in after;
    }
  }

  /**
  When it fails between the two vector writes, after the upsert and before the delete, every row
  still has a vector, and the ids agree exactly when the page did not grow.
  */
  lemma FailedBetweenVectorWrites(s: Stores, p: nat, was: seq<nat>, m: nat, n: nat)
    requires Lists(s.rows, p, was) && IsMax(s.rows, m) && Synced(s)
    ensures s.rows.Keys <= s.vectors + NewIndexes(was, m, n)
    ensures s.rows.Keys == s.vectors + NewIndexes(was, m, n) <==> n <= |was|
  {
    ReusedIndexes(s.rows, p, was, m, n);
  }

  // ---- the job --------------------------------------------------------------------------------

  /** What the vision model gave for one page; a failed call skips the page. */
  datatype Reading =
    | Unreadable
    | Blank
    | FieldsOnly(fields: Fields)
    | Transcribed(parsed: Option<Fields>, pieces: seq<Text>)

  /** Page `p` has the same rows in both. */
  ghost predicate SamePage(was: map<nat, Row>, now: map<nat, Row>, p: Option<nat>) {
    forall i :: (i in was && was[i].page == p <==> i in now && now[i].page == p)
      && (i in was && was[i].page == p ==> i in now && now[i] == was[i])
  }

  /** Every page but `p`, the unnumbered rows included, has the same rows in both. */
  ghost predicate OtherPagesSame(was: map<nat, Row>, now: map<nat, Row>, p: nat) {
    forall q :: q != Some(p) ==> SamePage(was, now, q)
  }

  /** Read by ascending index, the rows of the page are exactly the pieces in order, unflagged, with the fields. */
  ghost predicate ReadsAs(now: map<nat, Row>, p: nat, at: seq<nat>, pieces: seq<Text>, fields: Option<Fields>) {
    && Lists(now, p, at) && |at| == |pieces|
    && (forall k :: 0 <= k < |pieces| ==> at[k] in now && now[at[k]] == Row(Some(p), false, pieces[k], fields))
  }

  /** The indexes the page had come first, as far as both go. */
  ghost predicate Reuses(was: seq<nat>, now: seq<nat>) {
    forall k :: 0 <= k < |was| && k < |now| ==> now[k] == was[k]
  }

  /** `pieces` stand on the page, under the indexes it had and then new ones. */
  ghost predicate Replaced(was: map<nat, Row>, now: map<nat, Row>, p: nat, at: seq<nat>, at': seq<nat>,
      pieces: seq<Text>, fields: Option<Fields>)
  {
    Lists(was, p, at) && ReadsAs(now, p, at', pieces, fields) && Reuses(at, at')
  }

  /** What one reading makes of its page: nothing, the fields of its rows, or its pieces for its rows. */
  ghost predicate PageResult(was: map<nat, Row>, now: map<nat, Row>, p: nat, reading: Reading) {
    match reading
    case Unreadable => SamePage(was, now, Some(p))
    case Blank => SamePage(was, now, Some(p))
    case FieldsOnly(fields) =>
      && OnPage(now, p) == OnPage(was, p)
      && (forall i :: i in OnPage(was, p) ==> now[i] == was[i].(fields := Some(fields)))
    case Transcribed(fields, pieces) =>
      if OnPage(was, p) == {} then OnPage(now, p) == {}
      else exists at, at' :: Replaced(was, now, p, at, at', pieces, fields)
  }

  /** A page's result is about its own rows: it survives work on another page. */
  lemma ResultSurvives(was: map<nat, Row>, now: map<nat, Row>, later: map<nat, Row>, p: nat, q: nat, reading: Reading)
    requires PageResult(was, now, p, reading) && OtherPagesSame(now, later, q) && q != p
    ensures PageResult(was, later, p, reading)
  {
    assert SamePage(now, later, Some(p));
    assert OnPage(later, p) == OnPage(now, p);
    if reading.Transcribed? && OnPage(was, p) != {} {
      var at, at' :| Replaced(was, now, p, at, at', reading.pieces, reading.parsed);
      assert Replaced(was, later, p, at, at', reading.pieces, reading.parsed);
    }
  }

  /** And it may be read off the file as it was before other pages were worked on. */
  lemma ResultFromStart(start: map<nat, Row>, was: map<nat, Row>, now: map<nat, Row>, p: nat, reading: Reading)
    requires SamePage(start, was, Some(p)) && PageResult(was, now, p, reading)
    ensures PageResult(start, now, p, reading)
  {
    assert OnPage(start, p) == OnPage(was, p);
    if reading.Transcribed? && OnPage(was, p) != {} {
      var at, at' :| Replaced(was, now, p, at, at', reading.pieces, reading.parsed);
      assert Replaced(start, now, p, at, at', reading.pieces, reading.parsed);
    }
  }

  lemma UntouchedElsewhere(was: map<nat, Row>, now: map<nat, Row>, p: nat)
    requires forall i :: i in was && was[i].page != Some(p) ==> i in now && now[i] == was[i]
    requires forall i :: i in now && now[i].page != Some(p) ==> i in was && now[i] == was[i]
    ensures OtherPagesSame(was, now, p)
  {
  }

  /** The indexes handed out ascend: those of the page in order, then ones after every index of the file. */
  lemma NewIndexesAscend(rows: map<nat, Row>, p: nat, was: seq<nat>, m: nat, i: nat, j: nat)
    requires Lists(rows, p, was) && IsMax(rows, m) && i < j
    ensures NewIndex(was, m, i) < NewIndex(was, m, j)
    ensures j >= |was| ==> forall x :: x in rows ==> x < NewIndex(was, m, j)
  {
    if i < |was| {
      assert was[i] in was;
    }
  }

  ghost function NewPlaces(was: seq<nat>, m: nat, n: nat): (r: seq<nat>)
    ensures |r| == n && forall k :: 0 <= k < n ==> r[k] == NewIndex(was, m, k)
  {
    seq(n, k requires 0 <= k < n => NewIndex(was, m, k))
  }

  lemma NewPlacesAreListed(rows: map<nat, Row>, now: map<nat, Row>, p: nat, was: seq<nat>, m: nat, n: nat)
    requires Lists(rows, p, was) && IsMax(rows, m) && OnPage(now, p) == NewIndexes(was, m, n)
    ensures Lists(now, p, NewPlaces(was, m, n))
  {
    var at := NewPlaces(was, m, n);
    forall i, j | 0 <= i < j < |at|
      ensures at[i] < at[j]
    {
      NewIndexesAscend(rows, p, was, m, i, j);
    }
    forall x | x in NewIndexes(was, m, n)
      ensures x in at
    {
      var k :| 0 <= k < n && NewIndex(was, m, k) == x;
      assert at[k] == x;
    }
    assert forall x :: x in at ==> x in NewIndexes(was, m, n);
  }

  lemma RereadResult(s: Stores, p: nat, at: seq<nat>, m: nat, pieces: seq<Text>, fields: Option<Fields>)
    requires Lists(s.rows, p, at) && IsMax(s.rows, m) && Synced(s) && OnPage(s.rows, p) != {}
    ensures var t := Reread(s, p, at, m, pieces, fields);
      PageResult(s.rows, t.rows, p, Transcribed(fields, pieces)) && OtherPagesSame(s.rows, t.rows, p)
  {
    RereadKeeps(s, p, at, m, pieces, fields);
    var now := Reread(s, p, at, m, pieces, fields).rows;
    UntouchedElsewhere(s.rows, now, p);
    PiecesReadInOrder(s.rows, now, p, at, m, pieces, fields);
  }

  lemma PiecesReadInOrder(was: map<nat, Row>, now: map<nat, Row>, p: nat, at: seq<nat>, m: nat, pieces: seq<Text>,
      fields: Option<Fields>)
    requires Lists(was, p, at) && IsMax(was, m) && OnPage(was, p) != {}
    requires OnPage(now, p) == NewIndexes(at, m, |pieces|)
    requires forall k :: 0 <= k < |pieces| ==>
      NewIndex(at, m, k) in now && now[NewIndex(at, m, k)] == NewRow(p, pieces[k], fields)
    ensures PageResult(was, now, p, Transcribed(fields, pieces))
  {
    NewPlacesAreListed(was, now, p, at, m, |pieces|);
    assert Replaced(was, now, p, at, NewPlaces(at, m, |pieces|), pieces, fields);
  }

  /** Pages outside the list, and the unnumbered rows, are the same in both. */
  ghost predicate OutsideSame(was: map<nat, Row>, now: map<nat, Row>, pages: seq<nat>) {
    forall q: Option<nat> :: q.None? || q.value !in pages ==> SamePage(was, now, q)
  }

  /** The page is read and has rows; with `transcribed`, they are replaced. */
  ghost predicate Reaches(rows: map<nat, Row>, p: nat, reading: Reading, transcribed: bool) {
    !reading.Unreadable? && (transcribed ==> reading.Transcribed?) && OnPage(rows, p) != {}
  }

  /** How many of the first `n` places of the job do so. */
  ghost function Reached(rows: map<nat, Row>, pages: seq<nat>, readings: seq<Reading>, n: nat, transcribed: bool): nat
    requires n <= |pages| && n <= |readings|
  {
    if n == 0 then 0 else
      Reached(rows, pages, readings, n - 1, transcribed)
      + (if Reaches(rows, pages[n - 1], readings[n - 1], transcribed) then 1 else 0)
  }

  /** No other place of the job has the page of place `k`; `select_pages` never repeats one. */
  ghost predicate Once(pages: seq<nat>, k: nat)
    requires k < |pages|
  {
    forall j :: 0 <= j < |pages| && j != k ==> pages[j] != pages[k]
  }

  ghost predicate NoRepeats(pages: seq<nat>) {
    forall k :: 0 <= k < |pages| ==> Once(pages, k)
  }

  class File {
    var rows: map<nat, Row>
    var vectors: set<nat>

    ghost function View(): Stores
      reads this
    {
      Stores(rows, vectors)
    }

    method MaxIndex() returns (m: nat)
      ensures IsMax(rows, m)
    {
      m := 0;
      var todo := rows.Keys;
      if todo == {} {
        return;
      }
      m :| m in todo;
      while todo != {}
        invariant todo <= rows.Keys && m in rows
        invariant forall i :: i in rows && i !in todo ==> i <= m
        decreases todo
      {
        var i :| i in todo;
        if i > m {
          m := i;
        }
        todo := todo - {i};
      }
    }

    method ListPage(p: nat, m: nat) returns (was: seq<nat>)
      requires IsMax(rows, m)
      ensures Lists(rows, p, was)
    {
      was := [];
      for i := 0 to m + 1
        invariant Ascending(was) && forall k :: 0 <= k < |was| ==> was[k] < i
        invariant forall j :: j in was <==> j in OnPage(rows, p) && j < i
      {
        if i in rows && rows[i].page == Some(p) {
          was := was + [i];
        }
      }
    }

    /** The transaction of one re-read page, when everything in it succeeds. */
    method ReplacePage(p: nat, was: seq<nat>, m: nat, pieces: seq<Text>, fields: Option<Fields>)
      requires Lists(rows, p, was) && IsMax(rows, m)
      modifies this
      ensures View() == Reread(old(View()), p, was, m, pieces, fields)
    {
      ghost var s := View();
      IndexesAreFresh(rows, p, was, m);
      var gone := set i | i in was;
      assert gone == OnPage(rows, p);
      var added: map<nat, Row> := map[];
      for k := 0 to |pieces|
        invariant View() == s
        invariant added == NewRows(p, was, m, pieces[..k], fields)
      {
        var i := if k < |was| then was[k] else m + 1 + (k - |was|);
        assert i == NewIndex(was, m, k);
        AddedOneMore(p, was, m, pieces, fields, k);
        added := added[i := NewRow(p, pieces[k], fields)];
      }
      assert pieces[..|pieces|] == pieces;
      assert added.Keys == NewIndexes(was, m, |pieces|);
      rows := (rows - gone) + added;
      vectors := vectors + added.Keys;
      vectors := vectors - (gone - added.Keys);
    }

    /** Only the page's rows get the fields; page, flag and text stay, so either selection is as before. */
    method SetFields(p: nat, fields: Fields)
      modifies this`rows
      ensures rows.Keys == old(rows).Keys
      ensures forall i :: i in rows ==> rows[i] == old(rows)[i].(fields := rows[i].fields)
      ensures forall i :: i in rows ==>
        rows[i].fields == if rows[i].page == Some(p) then Some(fields) else old(rows)[i].fields
      ensures forall all :: SelectPages(rows, all) == SelectPages(old(rows), all)
    {
      ghost var was := rows;
      rows := map i | i in rows :: if rows[i].page == Some(p) then rows[i].(fields := Some(fields)) else rows[i];
      SameSelection(was, rows);
    }

    /** One page of the job; `did` when it counts as done, `again` when its rows were replaced. */
    method ReadPage(p: nat, reading: Reading) returns (did: bool, again: bool)
      requires Synced(View())
      modifies this
      ensures Synced(View()) && PageResult(old(rows), rows, p, reading) && OtherPagesSame(old(rows), rows, p)
      ensures SelectPages(rows, false) <= SelectPages(old(rows), false)
      ensures reading.Transcribed? ==> p !in SelectPages(rows, false)
      ensures did <==> !reading.Unreadable? && OnPage(old(rows), p) != {}
      ensures again <==> did && reading.Transcribed?
    {
      if reading.Unreadable? {
        return false, false;
      }
      var m := MaxIndex();
      var at := ListPage(p, m);
      ListsEmpty(rows, p, at);
      if at == [] {
        NotOnPage(rows, p);
        return false, false;
      }
      match reading {
        case Transcribed(fields, pieces) =>
          RereadKeeps(View(), p, at, m, pieces, fields);
          RereadUnselects(View(), p, at, m, pieces, fields);
          RereadResult(View(), p, at, m, pieces, fields);
          ReplacePage(p, at, m, pieces, fields);
        case FieldsOnly(fields) =>
          SetFields(p, fields);
        case Blank =>
      }
      did, again := true, reading.Transcribed?;
    }

    /**
    The page loop of the job. Whatever the model returned for each page, ids stay in step, pages
    outside the job and unnumbered rows are untouched, every page of the job holds what its reading
    makes of it, no page becomes flagged, and transcribed pages are out of the next default job.
    The job fails exactly when it had pages and got none done.
    */
    method ExtractFile(pages: seq<nat>, readings: seq<Reading>) returns (done: nat, reread: nat, failed: bool)
      requires |readings| == |pages| && Synced(View())
      modifies this
      ensures Synced(View())
      ensures OutsideSame(old(rows), rows, pages)
      ensures forall k :: 0 <= k < |pages| && Once(pages, k) ==> PageResult(old(rows), rows, pages[k], readings[k])
      ensures SelectPages(rows, false) <= SelectPages(old(rows), false)
      ensures forall k :: 0 <= k < |pages| && readings[k].Transcribed? ==> pages[k] !in SelectPages(rows, false)
      ensures NoRepeats(pages) ==>
        && done == Reached(old(rows), pages, readings, |pages|, false)
        && reread == Reached(old(rows), pages, readings, |pages|, true)
      ensures failed <==> pages != [] && done == 0
    {
      done, reread := 0, 0;
      for k := 0 to |pages|
        invariant Synced(View()) && JobAt(old(rows), rows, pages, readings, k, done, reread)
      {
        ghost var before := rows;
        var did, again := ReadPage(pages[k], readings[k]);
        PageDone(old(rows), before, rows, pages, readings, k, done, reread, did, again);
        done, reread := done + (if did then 1 else 0), reread + (if again then 1 else 0);
      }
      assert pages[..|pages|] == pages;
      failed := |pages| > 0 && done == 0;
    }
  }

  /** The job after `k` pages, from `start`. */
  ghost predicate JobAt(start: map<nat, Row>, now: map<nat, Row>, pages: seq<nat>, readings: seq<Reading>, k: nat,
      done: nat, reread: nat)
    requires k <= |pages| == |readings|
  {
    && OutsideSame(start, now, pages[..k])
    && (forall j :: 0 <= j < k && Once(pages, j) ==> PageResult(start, now, pages[j], readings[j]))
    && SelectPages(now, false) <= SelectPages(start, false)
    && (forall j :: 0 <= j < k && readings[j].Transcribed? ==> pages[j] !in SelectPages(now, false))
    && (NoRepeats(pages) ==>
          && done == Reached(start, pages, readings, k, false)
          && reread == Reached(start, pages, readings, k, true))
  }

  lemma OutsideOneMore(start: map<nat, Row>, was: map<nat, Row>, now: map<nat, Row>, pages: seq<nat>, k: nat)
    requires k < |pages| && OutsideSame(start, was, pages[..k]) && OtherPagesSame(was, now, pages[k])
    ensures OutsideSame(start, now, pages[..k + 1])
    ensures Once(pages, k) ==> SamePage(start, was, Some(pages[k])) && OnPage(was, pages[k]) == OnPage(start, pages[k])
  {
    assert pages[..k + 1] == pages[..k] + [pages[k]];
    forall q: Option<nat> | q.None? || q.value !in pages[..k + 1]
      ensures SamePage(start, now, q)
    {
      assert q != Some(pages[k]) && (q.None? || q.value !in pages[..k]);
      assert SamePage(start, was, q) && SamePage(was, now, q);
    }
    if Once(pages, k) {
      assert pages[k] !in pages[..k];
      assert SamePage(start, was, Some(pages[k]));
      assert OnPage(was, pages[k]) == OnPage(start, pages[k]);
    }
  }

  lemma ResultsOneMore(start: map<nat, Row>, was: map<nat, Row>, now: map<nat, Row>, pages: seq<nat>,
      readings: seq<Reading>, k: nat)
    requires k < |pages| == |readings| && (Once(pages, k) ==> SamePage(start, was, Some(pages[k])))
    requires forall j :: 0 <= j < k && Once(pages, j) ==> PageResult(start, was, pages[j], readings[j])
    requires PageResult(was, now, pages[k], readings[k]) && OtherPagesSame(was, now, pages[k])
    ensures forall j :: 0 <= j <= k && Once(pages, j) ==> PageResult(start, now, pages[j], readings[j])
  {
    if Once(pages, k) {
      ResultFromStart(start, was, now, pages[k], readings[k]);
    }
    forall j | 0 <= j < k && Once(pages, j)
      ensures PageResult(start, now, pages[j], readings[j])
    {
      ResultSurvives(start, was, now, pages[j], pages[k], readings[j]);
    }
  }

  /** The loop's bookkeeping over one page. */
  lemma PageDone(start: map<nat, Row>, was: map<nat, Row>, now: map<nat, Row>, pages: seq<nat>,
      readings: seq<Reading>, k: nat, done: nat, reread: nat, did: bool, again: bool)
    requires k < |pages| == |readings| && JobAt(start, was, pages, readings, k, done, reread)
    requires PageResult(was, now, pages[k], readings[k]) && OtherPagesSame(was, now, pages[k])
    requires SelectPages(now, false) <= SelectPages(was, false)
    requires readings[k].Transcribed? ==> pages[k] !in SelectPages(now, false)
    requires did <==> Reaches(was, pages[k], readings[k], false)
    requires again <==> Reaches(was, pages[k], readings[k], true)
    ensures JobAt(start, now, pages, readings, k + 1, done + (if did then 1 else 0), reread + (if again then 1 else 0))
  {
    OutsideOneMore(start, was, now, pages, k);
    ResultsOneMore(start, was, now, pages, readings, k);
  }

  lemma ListsEmpty(rows: map<nat, Row>, p: nat, at: seq<nat>)
    requires Lists(rows, p, at)
    ensures at == [] <==> OnPage(rows, p) == {}
  {
    if at != [] {
      assert at[0] in at;
    }
    assert forall i :: i in OnPage(rows, p) ==> i in at;
  }

  lemma AddedOneMore(p: nat, was: seq<nat>, m: nat, pieces: seq<Text>, fields: Option<Fields>, k: nat)
    requires k < |pieces|
    requires forall i: nat, j: nat :: i < j ==> NewIndex(was, m, i) != NewIndex(was, m, j)
    ensures NewRows(p, was, m, pieces[..k + 1], fields)
         == NewRows(p, was, m, pieces[..k], fields)[NewIndex(was, m, k) := NewRow(p, pieces[k], fields)]
  {
  }

  lemma NotOnPage(rows: map<nat, Row>, p: nat)
    requires OnPage(rows, p) == {}
    ensures p !in SelectPages(rows, false)
  {
    assert forall i :: i in rows ==> i !in OnPage(rows, p);
  }

  lemma SameSelection(rows: map<nat, Row>, rows': map<nat, Row>)
    requires rows'.Keys == rows.Keys
    requires forall i :: i in rows ==> rows'[i].page == rows[i].page && rows'[i].review == rows[i].review
    ensures forall all :: SelectPages(rows', all) == SelectPages(rows, all)
  {
  }
}
