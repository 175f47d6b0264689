/**
Indexing one file into two stores (adapta/api/v1/files.py, adapta/worker/main.py).

Postgres holds the file's status and its committed chunk rows; Chroma holds its vectors. Both name
a chunk by its index, so a row and its vector share an id. An event is what happens between two
awaits of the worker, a thread of an abandoned attempt landing, or the startup sweep. Any event
may follow any other: an event that cannot happen changes nothing.
*/
module Indexing {
  datatype FileStatus = Pending | Processing | Indexed | Failed

  type Chunks = set<nat>

  /** Where one run of `_index_file` stands. `Handling` is its `except` block. */
  datatype Stage =
    | Found
    | Marked
    | Parsed(ids: Chunks)
    | Flushed(ids: Chunks)
    | Upserted(ids: Chunks)
    | Handling(cleanup: bool, retry: bool)

  datatype Attempt = Nobody | Running(final: bool, stage: Stage)

  /** What becomes of a blocking Chroma call whose awaiter went away or failed. */
  datatype Landing = Applied | Lost | Late

  datatype File = File(
    status: FileStatus,
    rows: Chunks,
    vectors: Chunks,
    attempt: Attempt,
    lateUpserts: seq<Chunks>,
    lateDeletes: nat,
    swept: bool)

  datatype Event =
    | Start(final: bool)
    | Mark
    | Parse(ids: Chunks)
    | Flush
    | Upsert
    | Commit
    | Raise(transient: bool, applied: bool)
    | Cleanup(applied: bool)
    | Record
    | RecordFails
    | Cancel(landing: Landing)
    | FailFile(landing: Landing)
    | UpsertLands(which: nat)
    | DeleteLands
    | SweepReads
    | SweepCommits
    | CommitThenRaise(transient: bool)

  const UPLOADED := File(Pending, {}, {}, Nobody, [], 0, false)

  predicate Open(s: FileStatus) {
    s.Pending? || s.Processing?
  }

  function At(f: File, stage: Stage): File
    requires f.attempt.Running?
  {
    f.(attempt := f.attempt.(stage := stage))
  }

  /** An exception inside the `try` of `_index_file`; only a finished upsert asks for cleanup. */
  function RaiseStep(f: File, transient: bool, applied: bool): File
    requires f.attempt.Running?
  {
    var st := f.attempt.stage;
    if st.Handling? then f else
    var g := if st.Flushed? && applied then f.(vectors := f.vectors + st.ids) else f;
    At(g, Handling(st.Upserted?, transient && !f.attempt.final))
  }

  /** The deadline or a shutdown cancels the attempt: the session rolls back, a thread may live on. */
  function CancelStep(f: File, landing: Landing): File
    requires f.attempt.Running?
  {
    var g := f.(attempt := Nobody);
    match f.attempt.stage
    case Flushed(ids) =>
      (match landing
       case Applied => g.(vectors := g.vectors + ids)
       case Lost => g
       case Late => g.(lateUpserts := g.lateUpserts + [ids]))
    case Upserted(ids) =>
      if landing.Applied? then g.(status := Indexed, rows := g.rows + ids) else g
    case Handling(cleanup, _) =>
      if !cleanup then g else
      (match landing
       case Applied => g.(vectors := {})
       case Lost => g
       case Late => g.(lateDeletes := g.lateDeletes + 1))
    case _ => g
  }

  /** `_fail_file` after the final deadline: only a file that is still open, then drop its vectors. */
  function FailFileStep(f: File, landing: Landing): File {
    if !(f.attempt.Nobody? && Open(f.status)) then f else
    var g := f.(status := Failed);
    match landing
    case Applied => g.(vectors := {})
    case Lost => g
    case Late => g.(lateDeletes := g.lateDeletes + 1)
  }

  function AttemptStep(f: File, e: Event): File
    requires f.attempt.Running?
  {
    var st := f.attempt.stage;
    match e
    case Mark => if st.Found? then At(f.(status := Processing), Marked) else f
    case Parse(ids) => if st.Marked? then At(f, Parsed(ids)) else f
    case Flush => if st.Parsed? then At(f, Flushed(st.ids)) else f
    case Upsert => if st.Flushed? then At(f.(vectors := f.vectors + st.ids), Upserted(st.ids)) else f
    case Commit =>
      if st.Upserted? then f.(status := Indexed, rows := f.rows + st.ids, attempt := Nobody) else f
    case CommitThenRaise(transient) =>
      if st.Upserted?
      then At(f.(status := Indexed, rows := f.rows + st.ids), Handling(true, transient && !f.attempt.final))
      else f
    case Raise(transient, applied) => RaiseStep(f, transient, applied)
    case Cleanup(applied) =>
      if st.Handling? && st.cleanup
      then At(if applied then f.(vectors := {}) else f, Handling(false, st.retry))
      else f
    case Record =>
      if st.Handling? && !st.cleanup
      then f.(status := if st.retry then Pending else Failed, attempt := Nobody)
      else f
    case RecordFails => if st.Handling? && !st.cleanup then f.(attempt := Nobody) else f
    case Cancel(landing) => CancelStep(f, landing)
    case _ => f
  }

  /** `index_file_by_id`: a row that is already terminal is skipped. */
  function StartStep(f: File, final: bool): File {
    if f.attempt.Nobody? && Open(f.status) then f.(attempt := Running(final, Found)) else f
  }

  function Step(f: File, e: Event): File {
    match e
    case Start(final) => StartStep(f, final)
    case FailFile(landing) => FailFileStep(f, landing)
    case UpsertLands(i) =>
      if i < |f.lateUpserts|
      then f.(vectors := f.vectors + f.lateUpserts[i], lateUpserts := f.lateUpserts[..i] + f.lateUpserts[i + 1..])
      else f
    case DeleteLands => if f.lateDeletes > 0 then f.(vectors := {}, lateDeletes := f.lateDeletes - 1) else f
    case SweepReads => f.(swept := Open(f.status))
    case SweepCommits => if f.swept then f.(status := Failed, swept := false) else f
    case _ => if f.attempt.Running? then AttemptStep(f, e) else f
  }

  function Run(f: File, es: seq<Event>): File
    decreases es
  {
    if es == [] then f else Run(Step(f, es[0]), es[1..])
  }

  // ---- what readers of the two stores rely on -----------------------------------------------

  /** Rows are visible only under `indexed`, and every visible row has its vector. */
  ghost predicate Coherent(f: File) {
    (f.rows != {} ==> f.status == Indexed) && f.rows <= f.vectors
  }

  /** An attempt that has not failed has no rows of its file beside it. */
  ghost predicate Alone(f: File) {
    f.attempt.Running? && !f.attempt.stage.Handling? ==> f.rows == {}
  }

  predicate InStage(f: File, cleanup: bool) {
    f.attempt.Running? && f.attempt.stage.Handling? && f.attempt.stage.cleanup == cleanup
  }

  /** The event deletes the file's vectors. */
  predicate WipesVectors(f: File, e: Event) {
    || (e == Cleanup(true) && InStage(f, true))
    || (e == Cancel(Applied) && InStage(f, true))
    || (e.DeleteLands? && f.lateDeletes > 0)
  }

  /** The event writes a status other than `indexed` without looking at the rows. */
  predicate WritesStatus(f: File, e: Event) {
    (e.Record? && InStage(f, false)) || (e.SweepCommits? && f.swept)
  }

  /** The event makes the attempt's rows visible. */
  predicate Publishes(f: File, e: Event) {
    (e.Commit? || e.CommitThenRaise? || e == Cancel(Applied)) && f.attempt.Running? && f.attempt.stage.Upserted?
  }

  /** The failing branches: a wipe or a status written while rows are visible, or rows without their vectors. */
  predicate Breaks(f: File, e: Event) {
    || ((WipesVectors(f, e) || WritesStatus(f, e)) && f.rows != {})
    || (Publishes(f, e) && !(f.attempt.stage.ids <= f.vectors))
  }

  lemma CancelCoherent(f: File, landing: Landing)
    requires Coherent(f) && Alone(f) && f.attempt.Running?
    ensures Coherent(CancelStep(f, landing)) <==> !Breaks(f, Cancel(landing))
    ensures Alone(CancelStep(f, landing))
  {
  }

  lemma AttemptCoherent(f: File, e: Event)
    requires Coherent(f) && Alone(f) && f.attempt.Running? && !e.Cancel? && !e.SweepCommits? && !e.DeleteLands?
    ensures Coherent(AttemptStep(f, e)) <==> !Breaks(f, e)
    ensures !Breaks(f, e) ==> Alone(AttemptStep(f, e))
  {
  }

  /** An event keeps the two stores coherent exactly unless it takes a failing branch. */
  lemma StepCoherent(f: File, e: Event)
    requires Coherent(f) && Alone(f)
    ensures Coherent(Step(f, e)) <==> !Breaks(f, e)
    ensures !Breaks(f, e) ==> Alone(Step(f, e))
  {
    match e
    case Start(_) =>
    case FailFile(_) =>
    case UpsertLands(_) =>
    case DeleteLands =>
    case SweepReads =>
    case SweepCommits =>
    case Cancel(landing) =>
      if f.attempt.Running? {
        CancelCoherent(f, landing);
      }
    case _ =>
      if f.attempt.Running? {
        AttemptCoherent(f, e);
      }
  }

  ghost predicate AlwaysCoherent(f: File, es: seq<Event>)
    decreases es
  {
    Coherent(f) && (es == [] || AlwaysCoherent(Step(f, es[0]), es[1..]))
  }

  ghost predicate NeverBreaks(f: File, es: seq<Event>)
    decreases es
  {
    es == [] || (!Breaks(f, es[0]) && NeverBreaks(Step(f, es[0]), es[1..]))
  }

  /**
  Over every run of attempts, failures, deadline cancels, late threads, retries and sweeps, rows
  are visible only under `indexed` and every visible row has its vector, in every state, exactly
  when no event takes a failing branch.
  */
  lemma {:induction false} CoherentExactly(f: File, es: seq<Event>)
    requires Coherent(f) && Alone(f)
    ensures AlwaysCoherent(f, es) <==> NeverBreaks(f, es)
    decreases es
  {
    if es != [] {
      StepCoherent(f, es[0]);
      if !Breaks(f, es[0]) {
        CoherentExactly(Step(f, es[0]), es[1..]);
      }
    }
  }

  // ---- where the failing branches come from -------------------------------------------------

  /** What holds as long as nothing has gone wrong: every upserted chunk is there, no delete is at large. */
  ghost predicate Safe(f: File) {
    && Coherent(f)
    && (f.attempt.Running? ==> f.rows == {})
    && (f.attempt.Running? && f.attempt.stage.Upserted? ==> f.attempt.stage.ids <= f.vectors)
    && (f.lateDeletes > 0 ==> f.attempt.Nobody? && !Open(f.status) && f.rows == {})
  }

  lemma UploadedIsSafe()
    ensures Safe(UPLOADED) && Alone(UPLOADED)
  {
  }

  /**
  The root causes: a cancel, on a file that will be tried again, while the cleanup delete is still
  running and lands later; an exception after the commit of at least one row; and a sweep that
  writes `failed` over a row it read as open and that became `indexed` with chunks in the meantime.
  */
  ghost predicate TakesApart(f: File, e: Event) {
    || (e == Cancel(Late) && InStage(f, true) && Open(f.status))
    || (e.CommitThenRaise? && f.attempt.Running? && f.attempt.stage.Upserted? && f.attempt.stage.ids != {})
    || (e.SweepCommits? && f.swept && f.rows != {})
  }

  lemma AttemptStepSafe(f: File, e: Event)
    requires Safe(f) && f.attempt.Running? && !e.Cancel? && !e.SweepCommits? && !TakesApart(f, e)
    ensures Safe(AttemptStep(f, e))
  {
  }

  lemma CancelStepSafe(f: File, landing: Landing)
    requires Safe(f) && f.attempt.Running? && !TakesApart(f, Cancel(landing))
    ensures Safe(CancelStep(f, landing))
  {
  }

  lemma StepSafe(f: File, e: Event)
    requires Safe(f) && !TakesApart(f, e)
    ensures Safe(Step(f, e)) && !Breaks(f, e)
  {
    match e
    case Cancel(landing) =>
      if f.attempt.Running? {
        CancelStepSafe(f, landing);
      }
    case UpsertLands(i) =>
    case SweepCommits =>
    case _ =>
      if f.attempt.Running? {
        AttemptStepSafe(f, e);
      }
  }

  /** No event of the run is a root cause in the state it happens in. */
  ghost predicate Ordinary(f: File, es: seq<Event>)
    decreases es
  {
    es == [] || (!TakesApart(f, es[0]) && Ordinary(Step(f, es[0]), es[1..]))
  }

  /** Without a root cause the stores are coherent all along. */
  lemma {:induction false} OrdinaryRunIsCoherent(f: File, es: seq<Event>)
    requires Safe(f) && Ordinary(f, es)
    ensures AlwaysCoherent(f, es) && NeverBreaks(f, es) && Safe(Run(f, es))
    decreases es
  {
    if es != [] {
      StepSafe(f, es[0]);
      OrdinaryRunIsCoherent(Step(f, es[0]), es[1..]);
    }
  }

  /** Rows become visible in one step, from none to all of an attempt's chunks, with `indexed`. */
  lemma RowsAppearWithIndexed(f: File, e: Event)
    requires Safe(f) && Step(f, e).rows != f.rows
    ensures f.rows == {} && f.attempt.Running? && f.attempt.stage.Upserted?
    ensures Step(f, e).status == Indexed && Step(f, e).rows == f.attempt.stage.ids <= Step(f, e).vectors
  {
  }

  /**
  Re-running the job of a terminal file, and whatever else happens, changes neither its status nor
  its rows; only threads of abandoned attempts still reach its vectors, and with none of those
  left nothing changes at all.
  */
  lemma {:induction false} TerminalFileIsLeftAlone(f: File, es: seq<Event>)
    requires f.attempt.Nobody? && !Open(f.status) && !f.swept
    ensures var g := Run(f, es);
      && g == f.(vectors := g.vectors, lateUpserts := g.lateUpserts, lateDeletes := g.lateDeletes)
      && (f.lateUpserts == [] && f.lateDeletes == 0 ==> g == f)
    decreases es
  {
    if es != [] {
      TerminalFileIsLeftAlone(Step(f, es[0]), es[1..]);
    }
  }

  /** Late threads of abandoned attempts never lose a row of an indexed file its vector. */
  lemma {:induction false} IndexedStaysServable(f: File, es: seq<Event>)
    requires Safe(f) && f.attempt.Nobody? && f.status == Indexed && f.rows != {} && !f.swept
    ensures Run(f, es).status == Indexed && Run(f, es).rows == f.rows <= Run(f, es).vectors
    decreases es
  {
    if es != [] {
      var g := Step(f, es[0]);
      assert !TakesApart(f, es[0]);
      StepSafe(f, es[0]);
      IndexedStaysServable(g, es[1..]);
    }
  }

  /** The awaits of one attempt that nothing disturbs, in order. */
  function Undisturbed(final: bool, ids: Chunks): seq<Event> {
    [Start(final), Mark, Parse(ids)] + [Flush, Upsert, Commit]
  }

  /** Whatever earlier attempts left behind, an undisturbed attempt ends `indexed` with its chunks. */
  lemma UndisturbedAttemptIndexes(f: File, final: bool, ids: Chunks)
    requires f.attempt.Nobody? && Open(f.status)
    ensures Run(f, Undisturbed(final, ids))
         == f.(status := Indexed, rows := f.rows + ids, vectors := f.vectors + ids)
  {
    var es := Undisturbed(final, ids);
    RunSplit(f, es, 3);
    assert es[..3] == [Start(final), Mark, Parse(ids)] && es[3..] == [Flush, Upsert, Commit];
    RunThree(f, Start(final), Mark, Parse(ids));
    RunThree(Run(f, es[..3]), Flush, Upsert, Commit);
  }

  // ---- how a file ends --------------------------------------------------------------------------

  /** An attempt that fails: what it flushed may be there or not, and after an upsert its vectors are cleaned up. */
  function Failing(f: File, transient: bool, applied: bool): seq<Event>
    requires f.attempt.Running?
  {
    if f.attempt.stage.Upserted? then [Raise(transient, applied), Cleanup(true), Record]
    else [Raise(transient, applied), Record]
  }

  /**
  A failed attempt leaves the file pending exactly when the failure is transient and another
  attempt is to come, and otherwise failed; its rows stay as they were, and vectors it had
  finished writing are gone.
  */
  lemma FailedAttemptStatus(f: File, transient: bool, applied: bool)
    requires f.attempt.Running? && !f.attempt.stage.Handling?
    ensures var g := Run(f, Failing(f, transient, applied));
      && g.status == (if transient && !f.attempt.final then Pending else Failed)
      && g.attempt.Nobody? && g.rows == f.rows
      && (f.attempt.stage.Upserted? ==> g.vectors == {})
      && (f.attempt.stage.Flushed? && applied ==> g.vectors == f.vectors + f.attempt.stage.ids)
      && (!f.attempt.stage.Upserted? && !(f.attempt.stage.Flushed? && applied) ==> g.vectors == f.vectors)
  {
    var a := Step(f, Raise(transient, applied));
    if f.attempt.stage.Upserted? {
      RunThree(f, Raise(transient, applied), Cleanup(true), Record);
    } else {
      assert Failing(f, transient, applied)[1..] == [Record];
      RunOne(a, Record);
    }
  }

  /** So a final attempt that is not cancelled never leaves the file open. */
  lemma FinalAttemptIsTerminal(f: File, transient: bool, applied: bool)
    requires f.attempt.Running? && f.attempt.final && !f.attempt.stage.Handling?
    ensures Run(f, Failing(f, transient, applied)).status == Failed
  {
    FailedAttemptStatus(f, transient, applied);
  }

  /** A job begins an attempt on an open file nobody works on, and on no other. */
  lemma StartBegins(f: File, final: bool)
    ensures Step(f, Start(final)) ==
      if f.attempt.Nobody? && (f.status == Pending || f.status == Processing)
      then f.(attempt := Running(final, Found))
      else f
  {
  }

  /**
  The deadline's cancel leaves status and rows alone, unless the commit had gone through. An upsert
  under way may be there, be lost, or land later; so may a cleanup.
  */
  lemma CancelLeaves(f: File, landing: Landing)
    requires f.attempt.Running?
    ensures var g, st := Step(f, Cancel(landing)), f.attempt.stage;
      && g.attempt.Nobody? && g.swept == f.swept
      && (st.Upserted? && landing.Applied? ==> g.status == Indexed && g.rows == f.rows + st.ids)
      && (!(st.Upserted? && landing.Applied?) ==> g.status == f.status && g.rows == f.rows)
      && g.vectors == (if landing.Applied? && st.Flushed? then f.vectors + st.ids
                       else if landing.Applied? && InStage(f, true) then {} else f.vectors)
      && g.lateUpserts == (if landing.Late? && st.Flushed? then f.lateUpserts + [st.ids] else f.lateUpserts)
      && g.lateDeletes == (if landing.Late? && InStage(f, true) then f.lateDeletes + 1 else f.lateDeletes)
  {
  }

  /** After the final deadline an open file is failed, and one that became terminal meanwhile is not touched. */
  lemma DeadlineFailsOpenFile(f: File, landing: Landing)
    requires f.attempt.Nobody?
    ensures var g := Step(f, FailFile(landing));
      if Open(f.status) then
        && g.status == Failed && g.rows == f.rows
        && g.vectors == (if landing.Applied? then {} else f.vectors)
        && g.lateDeletes == f.lateDeletes + (if landing.Late? then 1 else 0)
      else g == f
  {
  }

  /** A late upsert adds its ids and is spent; an attempt that cannot record its failure ends with the row as it was. */
  lemma LateEffects(f: File, i: nat)
    ensures i < |f.lateUpserts| ==>
      Step(f, UpsertLands(i)) == f.(vectors := f.vectors + f.lateUpserts[i],
                                    lateUpserts := f.lateUpserts[..i] + f.lateUpserts[i + 1..])
    ensures InStage(f, false) ==> Step(f, RecordFails) == f.(attempt := Nobody)
    ensures InStage(f, true) ==>
      var g := Step(f, Cleanup(false)); InStage(g, false) && g.vectors == f.vectors && g.status == f.status
  {
  }

  /** A sweep that nothing interrupts fails an open file and leaves a terminal one alone. */
  lemma UninterruptedSweep(f: File)
    ensures var g := Step(Step(f, SweepReads), SweepCommits);
      g.status == (if Open(f.status) then Failed else f.status) && g.rows == f.rows && g.vectors == f.vectors
  {
  }

  lemma {:induction false} RunSplit(f: File, es: seq<Event>, n: nat)
    requires n <= |es|
    ensures Run(f, es) == Run(Run(f, es[..n]), es[n..])
    decreases n
  {
    if n > 0 {
      RunSplit(Step(f, es[0]), es[1..], n - 1);
      assert es[..n][1..] == es[1..][..n - 1];
      assert es[n..] == es[1..][n - 1..];
    } else {
      assert es[0..] == es;
    }
  }

  lemma RunThree(f: File, a: Event, b: Event, c: Event)
    ensures Run(f, [a, b, c]) == Step(Step(Step(f, a), b), c)
  {
    assert [a, b, c][1..] == [b, c] && [b, c][1..] == [c] && [c][1..] == [];
    assert Run(f, [a, b, c]) == Run(Step(Step(f, a), b), [c]);
  }

  // ---- the exceptions are real ----------------------------------------------------------------

  /** A file whose first attempt has written `ids` and is about to commit. */
  function AboutToCommit(ids: Chunks): File {
    UPLOADED.(status := Processing, vectors := ids, attempt := Running(false, Upserted(ids)))
  }

  /** The first two root causes can strike there. */
  lemma RootCausesCanStrike(ids: Chunks)
    requires ids != {}
    ensures TakesApart(AboutToCommit(ids), CommitThenRaise(false))
    ensures TakesApart(Step(AboutToCommit(ids), Raise(true, true)), Cancel(Late))
  {
    var f := AboutToCommit(ids);
    assert Step(f, Raise(true, true)) == At(f, Handling(true, true));
  }

  /** And it occurs in a run from upload. */
  lemma AboutToCommitIsReachable(ids: Chunks)
    ensures Run(UPLOADED, [Start(false), Mark, Parse(ids), Flush, Upsert]) == AboutToCommit(ids)
  {
    var es := [Start(false), Mark, Parse(ids), Flush, Upsert];
    RunSplit(UPLOADED, es, 3);
    assert es[..3] == [Start(false), Mark, Parse(ids)] && es[3..] == [Flush, Upsert];
    RunThree(UPLOADED, Start(false), Mark, Parse(ids));
    var g := Run(UPLOADED, es[..3]);
    assert [Flush, Upsert][1..] == [Upsert] && [Upsert][1..] == [];
    assert Run(g, [Flush, Upsert]) == Step(Step(g, Flush), Upsert);
  }

  /** From any such cancel: the retry indexes, the delete lands, and the rows have no vectors. */
  lemma LateDeleteLosesVectors(f: File, ids: Chunks)
    requires Safe(f) && TakesApart(f, Cancel(Late)) && ids != {}
    ensures !Coherent(Run(Step(f, Cancel(Late)), Undisturbed(true, ids) + [DeleteLands]))
  {
    var g := Step(f, Cancel(Late));
    var es := Undisturbed(true, ids);
    RunSplit(g, es + [DeleteLands], 6);
    assert (es + [DeleteLands])[..6] == es && (es + [DeleteLands])[6..] == [DeleteLands];
    UndisturbedAttemptIndexes(g, true, ids);
    RunOne(Run(g, es), DeleteLands);
  }

  /** From any exception after a commit of rows: the handler deletes their vectors. */
  lemma RaiseAfterCommitLosesVectors(f: File, transient: bool)
    requires TakesApart(f, CommitThenRaise(transient))
    ensures !Coherent(Run(Step(f, CommitThenRaise(transient)), [Cleanup(true)]))
  {
    RunOne(Step(f, CommitThenRaise(transient)), Cleanup(true));
  }

  /**
  Each root cause can break the stores from every safe state it occurs in, by a continuation that
  holds no further root cause. With `OrdinaryRunIsCoherent`: these three are all there are.
  */
  lemma TakesApartCanBreak(f: File, e: Event, ids: Chunks) returns (es: seq<Event>)
    requires Safe(f) && TakesApart(f, e) && ids != {}
    ensures !Coherent(Run(Step(f, e), es)) && Ordinary(Step(f, e), es)
  {
    if e.Cancel? {
      es := Undisturbed(true, ids) + [DeleteLands];
      LateDeleteLosesVectors(f, ids);
    } else if e.CommitThenRaise? {
      es := [Cleanup(true)];
      RaiseAfterCommitLosesVectors(f, e.transient);
    } else {
      es := [];
    }
    NothingElse(Step(f, e), es);
  }

  lemma {:induction false} NothingElse(f: File, es: seq<Event>)
    requires forall e :: e in es ==> !e.Cancel? && !e.CommitThenRaise? && !e.SweepCommits?
    ensures Ordinary(f, es)
    decreases es
  {
    if es != [] {
      assert es[0] in es;
      NothingElse(Step(f, es[0]), es[1..]);
    }
  }

  /** The startup sweep reads `processing`, the worker indexes the file, the sweep writes `failed`. */
  lemma SweepOverwritesIndexed(ids: Chunks)
    requires ids != {}
    ensures TakesApart(Run(AboutToCommit(ids), [SweepReads, Commit]), SweepCommits)
    ensures !Coherent(Run(AboutToCommit(ids), [SweepReads, Commit, SweepCommits]))
  {
    var f := AboutToCommit(ids);
    RunThree(f, SweepReads, Commit, SweepCommits);
    assert [SweepReads, Commit][1..] == [Commit];
    RunOne(Step(f, SweepReads), Commit);
  }

  lemma RunOne(f: File, e: Event)
    ensures Run(f, [e]) == Step(f, e)
  {
    assert [e][1..] == [];
  }
}
