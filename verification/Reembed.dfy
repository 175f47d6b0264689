/**
Rebuilding a project's vectors under a new embedding model (scripts/reembed.py).

Each remote call of the script takes the next entry of a fault script: it may raise or kill the
process, before or after taking effect. Quantifying over fault scripts is quantifying over every
way a run can be interrupted.
*/
module Reembed {
  import opened Prelude

  type Id = nat
  type Project = nat
  type Model = nat

  datatype Collection = Collection(model: Model, ids: set<Id>)

  /** One project: its Chroma collections, its `Collection` row and its chunk rows. */
  datatype State = State(
    live: Option<Collection>,
    tmp: Option<Collection>,
    rowModel: Model,
    rowDim: Option<nat>,
    rows: seq<Id>)

  datatype Target = Target(model: Model, dim: nat)

  /** Only a row under the target model and dimension with one vector for every chunk may be skipped. */
  predicate NeedsReembed(rowModel: Model, rowDim: Option<nat>, t: Target, chunks: nat, vectors: Option<nat>) {
    !(rowModel == t.model && rowDim == Some(t.dim) && vectors.Some? && vectors.value == chunks)
  }

  function VectorCount(c: Option<Collection>): Option<nat> {
    if c.Some? then Some(|c.value.ids|) else None
  }

  predicate SkipsProject(s: State, t: Target) {
    !NeedsReembed(s.rowModel, s.rowDim, t, |s.rows|, VectorCount(s.live))
  }

  function Complete(s: State, t: Target): Collection {
    Collection(t.model, Elements(s.rows))
  }

  /** The skip check can be believed: what it calls up to date holds exactly the chunk ids under the target. */
  ghost predicate SkipIsSound(s: State, t: Target) {
    && Distinct(s.rows)
    && (SkipsProject(s, t) ==> s.live == Some(Complete(s, t)))
  }

  /** The row names the target's model and dimension, and the live collection holds exactly the chunk ids under it. */
  ghost predicate UpToDate(s: State, t: Target) {
    && s.rowModel == t.model && s.rowDim == Some(t.dim)
    && s.live == Some(Collection(t.model, Elements(s.rows)))
  }

  /** That is what the skip check means while it can be believed. */
  lemma SkipMeansUpToDate(s: State, t: Target)
    requires SkipIsSound(s, t)
    ensures SkipsProject(s, t) <==> UpToDate(s, t)
  {
    DistinctCardinality(s.rows);
  }

  /** How far a rebuild may have got: the old vectors, none, or all the new ones. */
  ghost predicate Rebuilding(was: State, now: State, t: Target) {
    && now.rowModel == was.rowModel && now.rowDim == was.rowDim && now.rows == was.rows
    && (now.live == was.live || now.live.None? || now.live == Some(Complete(was, t)))
  }

  /** Stopping a rebuild anywhere leaves a skip check that can be believed. */
  lemma InterruptedRebuildIsSound(was: State, now: State, t: Target)
    requires SkipIsSound(was, t) && Rebuilding(was, now, t)
    ensures SkipIsSound(now, t)
  {
  }

  /** A finished rebuild, row included, is up to date: the next run skips it. */
  lemma CompletedRebuildIsSkipped(s: State, t: Target)
    requires Distinct(s.rows)
    requires s.live == Some(Complete(s, t)) && s.rowModel == t.model && s.rowDim == Some(t.dim)
    ensures SkipIsSound(s, t) && SkipsProject(s, t)
  {
    DistinctCardinality(s.rows);
  }

  datatype Fault = Fine | RaiseBefore | RaiseAfter | CrashBefore | CrashAfter

  datatype Outcome = Done | Raised | Crashed

  predicate TakesEffect(f: Fault) {
    f.Fine? || f.RaiseAfter? || f.CrashAfter?
  }

  function OutcomeOf(f: Fault): Outcome {
    match f
    case Fine => Done
    case RaiseBefore => Raised
    case RaiseAfter => Raised
    case CrashBefore => Crashed
    case CrashAfter => Crashed
  }

  class Script {
    const target: Target
    var projects: map<Project, State>
    var faults: seq<Fault>

    constructor (target: Target, projects: map<Project, State>)
      ensures this.target == target && this.projects == projects && faults == []
    {
      this.target, this.projects, this.faults := target, projects, [];
    }

    ghost predicate Sound()
      reads this
    {
      forall p :: p in projects ==> SkipIsSound(projects[p], target)
    }

    /** The fate of the next remote call; none is left to fear once the script is used up. */
    method NextFault() returns (f: Fault)
      modifies this`faults
      ensures old(faults) == [] ==> f.Fine? && faults == []
    {
      if faults == [] {
        return Fine;
      }
      f, faults := faults[0], faults[1..];
    }

    /** One remote write to project `p`: it happens or not, and is reported or not. */
    method Write(p: Project, s: State) returns (o: Outcome)
      requires p in projects
      modifies this
      ensures projects == old(projects) || projects == old(projects)[p := s]
      ensures o.Done? ==> projects == old(projects)[p := s]
      ensures old(faults) == [] ==> o.Done? && faults == []
    {
      var f := NextFault();
      if TakesEffect(f) {
        projects := projects[p := s];
      }
      o := OutcomeOf(f);
    }

    /** Embeds the rows batch by batch into the temporary collection. */
    method Fill(p: Project, batch: int) returns (o: Outcome)
      requires p in projects && Distinct(projects[p].rows)
      requires projects[p].tmp == Some(Collection(target.model, {}))
      modifies this
      ensures p in projects && projects == old(projects)[p := projects[p]]
      ensures projects[p] == old(projects[p]).(tmp := projects[p].tmp)
      ensures o.Done? && projects[p].tmp.Some? && |projects[p].tmp.value.ids| == |projects[p].rows| ==>
        projects[p].tmp == Some(Complete(projects[p], target))
      ensures o.Done? && batch > 0 ==> projects[p].tmp == Some(Complete(projects[p], target))
      ensures old(faults) == [] && batch > 0 ==> o.Done? && faults == []
    {
      ghost var was := projects[p];
      if batch == 0 {
        return Raised;
      }
      var i := 0;
      assert was.rows[..0] == [];
      while batch > 0 && i < |projects[p].rows|
        invariant p in projects && projects == old(projects)[p := projects[p]]
        invariant 0 <= i && (batch < 0 ==> i == 0) && projects[p] == was.(tmp := projects[p].tmp)
        invariant projects[p].tmp == Some(Collection(target.model, Elements(was.rows[..Least(i, |was.rows|)])))
        invariant old(faults) == [] ==> faults == []
        decreases |was.rows| - i
      {
        var s := projects[p];
        var hi := Least(i + batch, |s.rows|);
        ElementsConcat(was.rows[..i], was.rows[i..hi]);
        assert was.rows[..hi] == was.rows[..i] + was.rows[i..hi];
        var ids := s.tmp.value.ids + Elements(s.rows[i..hi]);
        o := Write(p, s.(tmp := Some(Collection(target.model, ids))));
        if !o.Done? {
          return;
        }
        i := i + batch;
      }
      o := Done;
      assert was.rows[..|was.rows|] == was.rows;
      if batch < 0 && |was.rows| == 0 {
        assert was.rows == [];
      }
    }

    /** Deletes the live collection and renames the complete temporary one over it. */
    method Swap(p: Project) returns (o: Outcome)
      requires p in projects && projects[p].tmp == Some(Complete(projects[p], target))
      modifies this
      ensures p in projects && projects == old(projects)[p := projects[p]]
      ensures Rebuilding(old(projects[p]), projects[p], target)
      ensures o.Done? ==> projects[p].live == Some(Complete(projects[p], target)) && projects[p].tmp.None?
      ensures old(faults) == [] ==> o.Done? && faults == []
    {
      o := Write(p, projects[p].(live := None));
      if o.Crashed? {
        return;
      }
      if projects[p].live.Some? {
        return Raised;
      }
      o := Write(p, projects[p].(live := projects[p].tmp, tmp := None));
    }

    /** Builds the temporary collection from scratch and swaps it over the live one. */
    method Rebuild(p: Project, batch: int) returns (o: Outcome)
      requires p in projects && Distinct(projects[p].rows)
      modifies this
      ensures p in projects && projects == old(projects)[p := projects[p]]
      ensures Rebuilding(old(projects[p]), projects[p], target)
      ensures o.Done? ==> projects[p].live == Some(Complete(projects[p], target)) && projects[p].tmp.None?
      ensures old(faults) == [] && batch > 0 ==> o.Done? && faults == []
    {
      ghost var was := projects[p];
      o := Write(p, projects[p].(tmp := None));
      if o.Crashed? {
        return;
      }
      if projects[p].tmp.Some? {
        return Raised;
      }
      o := Write(p, projects[p].(tmp := Some(Collection(target.model, {}))));
      if !o.Done? {
        return;
      }
      o := Fill(p, batch);
      if !o.Done? {
        return;
      }
      DistinctCardinality(projects[p].rows);
      if projects[p].tmp.None? || |projects[p].tmp.value.ids| != |projects[p].rows| {
        return Raised;
      }
      o := Swap(p);
    }

    /** The body of the per-project loop. */
    method Process(p: Project, dryRun: bool, force: bool, batch: int) returns (o: Outcome)
      requires p in projects && Sound()
      modifies this
      ensures p in projects && projects == old(projects)[p := projects[p]]
      ensures Sound()
      ensures dryRun ==> projects == old(projects)
      ensures o.Done? && !dryRun ==> UpToDate(projects[p], target)
      ensures old(faults) == [] && (batch > 0 || dryRun) ==> o.Done? && faults == []
      ensures old(faults) == [] && !force && UpToDate(old(projects[p]), target) ==> projects == old(projects)
      ensures old(faults) == [] && batch > 0 && !dryRun && (force || !UpToDate(old(projects[p]), target)) ==>
        projects[p].tmp.None?
    {
      ghost var was := projects[p];
      SkipMeansUpToDate(was, target);
      var f := NextFault();
      if !f.Fine? {
        return OutcomeOf(f);
      }
      f := NextFault();
      if OutcomeOf(f).Crashed? {
        return Crashed;
      }
      var s := projects[p];
      var count := if f.Fine? then VectorCount(s.live) else None;
      var todo := force || NeedsReembed(s.rowModel, s.rowDim, target, |s.rows|, count);
      if !todo || dryRun {
        return Done;
      }
      o := Rebuild(p, batch);
      InterruptedRebuildIsSound(was, projects[p], target);
      if !o.Done? {
        return;
      }
      var updated := projects[p].(rowModel := target.model, rowDim := Some(target.dim));
      CompletedRebuildIsSkipped(updated, target);
      o := Write(p, updated);
    }

    /** One run of the script. A failed project does not stop the others; a crash stops the run. */
    method RunOnce(cols: seq<Project>, dryRun: bool, force: bool, batch: int) returns (code: Option<nat>)
      requires Sound() && forall p :: p in cols ==> p in projects
      modifies this
      ensures Sound() && projects.Keys == old(projects).Keys
      ensures code == Some(0) && !dryRun ==> forall p :: p in cols ==> UpToDate(projects[p], target)
      ensures forall p :: p in projects && p !in cols ==> projects[p] == old(projects)[p]
      ensures old(faults) == [] && (batch > 0 || dryRun) ==> code == Some(0)
    {
      var failed := 0;
      for i := 0 to |cols|
        invariant Sound() && projects.Keys == old(projects).Keys
        invariant failed == 0 && !dryRun ==> forall p :: p in cols[..i] ==> UpToDate(projects[p], target)
        invariant forall p :: p in projects && p !in cols ==> projects[p] == old(projects)[p]
        invariant old(faults) == [] && (batch > 0 || dryRun) ==> faults == [] && failed == 0
      {
        assert cols[..i + 1] == cols[..i] + [cols[i]];
        var o := Process(cols[i], dryRun, force, batch);
        if o.Crashed? {
          return None;
        }
        if o.Raised? {
          failed := failed + 1;
        }
      }
      assert cols[..|cols|] == cols;
      code := Some(if failed > 0 then 1 else 0);
    }

    /** Any number of runs, each with its own faults and options. */
    method RunMany(runs: seq<(seq<Fault>, bool, bool, int)>, cols: seq<Project>) returns (codes: seq<Option<nat>>)
      requires Sound() && forall p :: p in cols ==> p in projects
      modifies this
      ensures Sound() && projects.Keys == old(projects).Keys
      ensures |codes| == |runs|
      ensures |runs| > 0 && codes[|runs| - 1] == Some(0) && !runs[|runs| - 1].1 ==>
        forall p :: p in cols ==> UpToDate(projects[p], target)
      ensures forall i :: 0 <= i < |runs| && runs[i].0 == [] && runs[i].3 > 0 ==> codes[i] == Some(0)
    {
      codes := [];
      for i := 0 to |runs|
        invariant Sound() && projects.Keys == old(projects).Keys
        invariant |codes| == i
        invariant i > 0 && codes[i - 1] == Some(0) && !runs[i - 1].1 ==>
          forall p :: p in cols ==> UpToDate(projects[p], target)
        invariant forall j :: 0 <= j < i && runs[j].0 == [] && runs[j].3 > 0 ==> codes[j] == Some(0)
      {
        faults := runs[i].0;
        var code := RunOnce(cols, runs[i].1, runs[i].2, runs[i].3);
        codes := codes + [code];
      }
    }
  }

  function Least(a: int, b: int): int {
    if a < b then a else b
  }

  lemma {:induction false} ElementsConcat(a: seq<Id>, b: seq<Id>)
    ensures Elements(a + b) == Elements(a) + Elements(b)
  {
    if a == [] {
      assert a + b == b;
    } else {
      ElementsConcat(a[1..], b);
      assert (a + b)[1..] == a[1..] + b;
    }
  }
}
