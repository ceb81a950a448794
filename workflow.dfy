/**
 * `CurationWorkflow` (an ordered list of steps, run over a list of molecules)
 * and `CuratedMoleculeSet` (the curated molecules with per-step counts).
 *
 * The ordering diagnostic, the run and the survivor recurrence are each a
 * specification function with a loop method proved against it; the lookups
 * and row builders of the result set are functions over the records.
 */
module ChemcurryWorkflow {
  import opened Wrappers
  import opened Structure
  import Text
  import opened ChemcurryMolecule
  import opened ChemcurryStep

  // ---------------------------------------------------------------------------
  // Ordering diagnostic of the constructor
  // ---------------------------------------------------------------------------

  /** The text of the warning for an Update step that runs after a Filter step. */
  function WarningText(name: string): string {
    "update step '" + name + "' comes after a filter step; updating molecules after "
    + "filtering could cause end result to violate thefilter;"
  }

  /** Some step before position `i` is a Filter. */
  predicate FilterBefore(steps: seq<Step>, i: int)
    requires 0 <= i <= |steps|
  {
    exists j :: 0 <= j < i && steps[j].FilterStep?
  }

  /** The positions of the Update steps that have some Filter step earlier, in step order. */
  function LateUpdates(steps: seq<Step>): (r: seq<nat>)
    ensures forall k :: 0 <= k < |r| ==> r[k] < |steps|
    decreases |steps|
  {
    if |steps| == 0 then []
    else
      var n := |steps| - 1;
      LateUpdates(steps[..n]) + (if steps[n].UpdateStep? && FilterBefore(steps, n) then [n] else [])
  }

  /** Every position `LateUpdates` lists is an Update step with some Filter step earlier. */
  lemma {:induction false} LateUpdatesSound(steps: seq<Step>)
    ensures forall k :: 0 <= k < |LateUpdates(steps)| ==>
      steps[LateUpdates(steps)[k]].UpdateStep? && FilterBefore(steps, LateUpdates(steps)[k])
    decreases |steps|
  {
    if |steps| > 0 {
      var n := |steps| - 1;
      LateUpdatesSound(steps[..n]);
      PrefixFilterBefore(steps, n);
      var r0, r := LateUpdates(steps[..n]), LateUpdates(steps);
      assert r == r0 + (if steps[n].UpdateStep? && FilterBefore(steps, n) then [n] else []);
      forall k | 0 <= k < |r0|
        ensures steps[r0[k]].UpdateStep? && FilterBefore(steps, r0[k])
      {
        assert steps[..n][r0[k]] == steps[r0[k]];
        assert FilterBefore(steps[..n], r0[k]);
      }
    }
  }

  /** Every Update step with some Filter step earlier is listed by `LateUpdates`. */
  lemma {:induction false} LateUpdatesComplete(steps: seq<Step>)
    ensures forall i :: 0 <= i < |steps| && steps[i].UpdateStep? && FilterBefore(steps, i) ==> i in LateUpdates(steps)
    decreases |steps|
  {
    if |steps| > 0 {
      var n := |steps| - 1;
      LateUpdatesComplete(steps[..n]);
      PrefixFilterBefore(steps, n);
      var r0 := LateUpdates(steps[..n]);
      assert LateUpdates(steps) == r0 + (if steps[n].UpdateStep? && FilterBefore(steps, n) then [n] else []);
      forall i | 0 <= i < n && steps[i].UpdateStep? && FilterBefore(steps, i)
        ensures i in r0
      {
        assert steps[..n][i] == steps[i];
      }
    }
  }

  /** `LateUpdates` lists its positions in increasing order. */
  lemma {:induction false} LateUpdatesOrdered(steps: seq<Step>)
    ensures forall k, l :: 0 <= k < l < |LateUpdates(steps)| ==> LateUpdates(steps)[k] < LateUpdates(steps)[l]
    decreases |steps|
  {
    if |steps| > 0 {
      var n := |steps| - 1;
      LateUpdatesOrdered(steps[..n]);
      var r0, r := LateUpdates(steps[..n]), LateUpdates(steps);
      assert r == r0 + (if steps[n].UpdateStep? && FilterBefore(steps, n) then [n] else []);
      forall k, l | 0 <= k < l < |r|
        ensures r[k] < r[l]
      {
        if l >= |r0| {
          assert r[k] == r0[k] < n && r[l] == n;
        }
      }
    }
  }

  lemma PrefixFilterBefore(steps: seq<Step>, n: nat)
    requires n <= |steps|
    ensures forall i :: 0 <= i <= n ==> (FilterBefore(steps[..n], i) <==> FilterBefore(steps, i))
  {
    forall i | 0 <= i <= n
      ensures FilterBefore(steps[..n], i) <==> FilterBefore(steps, i)
    {
      if FilterBefore(steps, i) {
        var j :| 0 <= j < i && steps[j].FilterStep?;
        assert steps[..n][j] == steps[j];
      }
    }
  }

  /** The warnings the constructor emits for the steps in order: one for each late Update step. */
  function OrderingWarnings(steps: seq<Step>, suppress: bool): seq<string>
    decreases |steps|
  {
    if suppress || |steps| == 0 then []
    else
      var n := |steps| - 1;
      OrderingWarnings(steps[..n], false)
      + (if steps[n].UpdateStep? && FilterBefore(steps, n) then [WarningText(steps[n].name)] else [])
  }

  /** The warnings name the late Update steps, one each, in step order. */
  lemma {:induction false} WarningsNameLateUpdates(steps: seq<Step>)
    ensures |OrderingWarnings(steps, false)| == |LateUpdates(steps)|
    ensures forall k :: 0 <= k < |OrderingWarnings(steps, false)| ==>
      OrderingWarnings(steps, false)[k] == WarningText(steps[LateUpdates(steps)[k]].name)
    decreases |steps|
  {
    if |steps| > 0 {
      var n := |steps| - 1;
      WarningsNameLateUpdates(steps[..n]);
      var w0, l0 := OrderingWarnings(steps[..n], false), LateUpdates(steps[..n]);
      var w, late := OrderingWarnings(steps, false), LateUpdates(steps);
      var c := steps[n].UpdateStep? && FilterBefore(steps, n);
      assert w == w0 + (if c then [WarningText(steps[n].name)] else []);
      assert late == l0 + (if c then [n] else []);
      forall k | 0 <= k < |w|
        ensures w[k] == WarningText(steps[late[k]].name)
      {
        if k < |w0| {
          assert w[k] == w0[k] && late[k] == l0[k];
          assert steps[..n][l0[k]] == steps[l0[k]];
        }
      }
    }
  }

  /** Every Update step comes before every Filter step. */
  predicate UpdatesFirst(steps: seq<Step>) {
    forall i, j :: 0 <= i < j < |steps| && steps[i].FilterStep? ==> !steps[j].UpdateStep?
  }

  /** No warning is emitted exactly when warnings are suppressed or every Update precedes every Filter. */
  lemma NoWarningsIff(steps: seq<Step>, suppress: bool)
    ensures OrderingWarnings(steps, suppress) == [] <==> suppress || UpdatesFirst(steps)
  {
    if !suppress {
      var late := LateUpdates(steps);
      WarningsNameLateUpdates(steps);
      LateUpdatesSound(steps);
      LateUpdatesComplete(steps);
      if |late| > 0 {
        var j := late[0];
        assert steps[j].UpdateStep? && FilterBefore(steps, j);
        var i :| 0 <= i < j && steps[i].FilterStep?;
        assert !UpdatesFirst(steps);
      }
      if !UpdatesFirst(steps) {
        var i, j :| 0 <= i < j < |steps| && steps[i].FilterStep? && steps[j].UpdateStep?;
        assert FilterBefore(steps, j);
        assert j in late;
      }
    }
  }

  /** A Filter then an Update gives one warning naming the Update; the other order gives none. */
  lemma FilterThenUpdateWarns(f: Step, u: Step)
    requires f.FilterStep? && u.UpdateStep?
    ensures OrderingWarnings([f, u], false) == [WarningText(u.name)]
    ensures OrderingWarnings([u, f], false) == []
  {
    assert [f, u][..1] == [f] && [f][..0] == [];
    assert [f, u][0].FilterStep?;
    assert FilterBefore([f, u], 1);
    assert OrderingWarnings([f], false) == [];
    assert OrderingWarnings([f, u], false) == OrderingWarnings([f], false) + [WarningText(u.name)];
    assert [u, f][..1] == [u] && [u][..0] == [];
    assert !FilterBefore([u], 0);
    assert OrderingWarnings([u], false) == [];
  }

  /** The warnings of one more step: those of the prefix, then the new step's own. */
  lemma WarningsExtend(steps: seq<Step>, i: nat, suppress: bool)
    requires i < |steps|
    ensures OrderingWarnings(steps[..i + 1], suppress)
         == OrderingWarnings(steps[..i], suppress)
            + (if !suppress && steps[i].UpdateStep? && FilterBefore(steps, i) then [WarningText(steps[i].name)] else [])
  {
    assert steps[..i + 1][..i] == steps[..i];
    PrefixFilterBefore(steps, i + 1);
  }

  /** The constructor's loop over the steps, with its "seen a filter step" flag. */
  method DiagnoseOrdering(steps: seq<Step>, suppress: bool) returns (warnings: seq<string>)
    ensures warnings == OrderingWarnings(steps, suppress)
  {
    warnings := [];
    var seenFilter := false;
    var i := 0;
    while i < |steps|
      invariant 0 <= i <= |steps|
      invariant seenFilter <==> FilterBefore(steps, i)
      invariant warnings == OrderingWarnings(steps[..i], suppress)
    {
      WarningsExtend(steps, i, suppress);
      if steps[i].FilterStep? {
        seenFilter := true;
      }
      if seenFilter && steps[i].UpdateStep? {
        if !suppress {
          warnings := warnings + [WarningText(steps[i].name)];
        }
      }
      assert seenFilter <==> FilterBefore(steps, i + 1);
      i := i + 1;
    }
    assert steps[..i] == steps;
  }

  // ---------------------------------------------------------------------------
  // The run: every step over the whole list, in order
  // ---------------------------------------------------------------------------

  /** The records after a run, each step's issue and note counts, and the error that stopped it if any. */
  datatype WorkflowRun = WorkflowRun(states: seq<MoleculeState>, issueCounts: seq<nat>, noteCounts: seq<nat>,
                                     raised: Option<string>)

  function RunSteps(steps: seq<Step>, ss: seq<MoleculeState>): (r: WorkflowRun)
    ensures |r.states| == |ss|
    ensures r.raised.None? ==> |r.issueCounts| == |steps| && |r.noteCounts| == |steps|
    decreases |steps|
  {
    if |steps| == 0 then WorkflowRun(ss, [], [], None)
    else
      var prev := RunSteps(steps[..|steps| - 1], ss);
      if prev.raised.Some? then prev
      else
        var run := Apply(steps[|steps| - 1], prev.states);
        WorkflowRun(run.states, prev.issueCounts + [run.numIssues], prev.noteCounts + [run.numNotes], run.raised)
  }

  function Sum(xs: seq<int>): int
    decreases |xs|
  {
    if |xs| == 0 then 0 else Sum(xs[..|xs| - 1]) + xs[|xs| - 1]
  }

  lemma {:induction false} SumCons(x: int, xs: seq<int>)
    ensures Sum([x] + xs) == x + Sum(xs)
    decreases |xs|
  {
    if |xs| > 0 {
      var n := |xs| - 1;
      assert ([x] + xs)[..n + 1] == [x] + xs[..n];
      SumCons(x, xs[..n]);
    } else {
      assert [x] + xs == [x];
      assert [x][..0] == [];
    }
  }

  /** A run keeps the invariant of every record. */
  lemma {:induction false} RunPreserves(steps: seq<Step>, ss: seq<MoleculeState>)
    requires AllInv(ss)
    ensures AllInv(RunSteps(steps, ss).states)
    decreases |steps|
  {
    if |steps| > 0 {
      var n := |steps| - 1;
      var prev := RunSteps(steps[..n], ss);
      RunPreserves(steps[..n], ss);
      if prev.raised.None? {
        ApplyPreserves(steps[n], prev.states);
      }
    }
  }

  /** A run keeps every record's id and never touches a record that had already failed. */
  lemma {:induction false} RunKeepsFailed(steps: seq<Step>, ss: seq<MoleculeState>)
    ensures Untouched(ss, RunSteps(steps, ss).states)
    decreases |steps|
  {
    if |steps| == 0 {
      assert Untouched(ss, ss);
    } else {
      var n := |steps| - 1;
      var prev := RunSteps(steps[..n], ss);
      RunKeepsFailed(steps[..n], ss);
      if prev.raised.None? {
        ApplyKeepsFailed(steps[n], prev.states);
        UntouchedTrans(ss, prev.states, Apply(steps[n], prev.states).states);
      }
    }
  }

  /**
   * When no step raised, a run removes from the passing records exactly the
   * sum of the reported issue counts.
   */
  lemma {:induction false} RunPassing(steps: seq<Step>, ss: seq<MoleculeState>)
    requires AllInv(ss)
    ensures var r := RunSteps(steps, ss);
      r.raised.None? ==> CountPassing(r.states) == CountPassing(ss) - Sum(r.issueCounts)
    decreases |steps|
  {
    if |steps| > 0 {
      var n := |steps| - 1;
      var prev := RunSteps(steps[..n], ss);
      if prev.raised.None? {
        RunPassing(steps[..n], ss);
        RunPreserves(steps[..n], ss);
        ApplyPassing(steps[n], prev.states);
        var run := Apply(steps[n], prev.states);
        assert (prev.issueCounts + [run.numIssues])[..n] == prev.issueCounts;
      }
    }
  }

  /** Entry `k` of each count list is what step `k` returned on the records the steps before it left. */
  lemma {:induction false} RunEntryReturned(steps: seq<Step>, ss: seq<MoleculeState>, k: nat)
    requires k < |steps| && RunSteps(steps, ss).raised.None?
    ensures var before := RunSteps(steps[..k], ss);
      && before.raised.None?
      && RunSteps(steps, ss).issueCounts[k] == Apply(steps[k], before.states).numIssues
      && RunSteps(steps, ss).noteCounts[k] == Apply(steps[k], before.states).numNotes
    decreases |steps|
  {
    var n := |steps| - 1;
    var prev := RunSteps(steps[..n], ss);
    var run := Apply(steps[n], prev.states);
    assert RunSteps(steps, ss).issueCounts == prev.issueCounts + [run.numIssues];
    assert RunSteps(steps, ss).noteCounts == prev.noteCounts + [run.numNotes];
    if k < n {
      assert steps[..n][..k] == steps[..k];
      RunEntryReturned(steps[..n], ss, k);
    } else {
      assert steps[..k] == steps[..n];
    }
  }

  /**
   * Entry `k` of each count list means, for the records the steps before it
   * left, the number of records step `k` moved from passing to failed and the
   * number of notes it added; a Filter step's note count is 0.
   */
  lemma RunEntry(steps: seq<Step>, ss: seq<MoleculeState>, k: nat)
    requires AllInv(ss)
    requires k < |steps| && RunSteps(steps, ss).raised.None?
    ensures var before := RunSteps(steps[..k], ss);
      var after := Apply(steps[k], before.states).states;
      && RunSteps(steps, ss).issueCounts[k] == NewlyFailed(before.states, after)
      && RunSteps(steps, ss).noteCounts[k] == NotesAdded(before.states, after)
      && (steps[k].FilterStep? ==> RunSteps(steps, ss).noteCounts[k] == 0)
  {
    RunEntryReturned(steps, ss, k);
    var before := RunSteps(steps[..k], ss);
    RunPreserves(steps[..k], ss);
    ApplyCountsIssues(steps[k], before.states);
    ApplyCountsNotes(steps[k], before.states);
    if steps[k].FilterStep? {
      FilterIsQuiet(steps[k], before.states);
    }
  }

  /** Running one more step after a prefix that did not raise. */
  lemma RunExtend(steps: seq<Step>, ss: seq<MoleculeState>, k: nat)
    requires k < |steps| && RunSteps(steps[..k], ss).raised.None?
    ensures var prev := RunSteps(steps[..k], ss);
      var run := Apply(steps[k], prev.states);
      RunSteps(steps[..k + 1], ss)
        == WorkflowRun(run.states, prev.issueCounts + [run.numIssues], prev.noteCounts + [run.numNotes], run.raised)
  {
    assert steps[..k + 1][..k] == steps[..k];
  }

  /** Once a prefix of the steps raised, the rest are not run. */
  lemma {:induction false} RunAfterRaise(steps: seq<Step>, ss: seq<MoleculeState>, k: nat)
    requires k <= |steps| && RunSteps(steps[..k], ss).raised.Some?
    ensures RunSteps(steps, ss) == RunSteps(steps[..k], ss)
    decreases |steps| - k
  {
    if k < |steps| {
      var n := |steps| - 1;
      assert steps[..n][..k] == steps[..k];
      RunAfterRaise(steps[..n], ss, k);
    } else {
      assert steps[..k] == steps;
    }
  }

  /**
   * The loop of `_run_workflow`: each step called on the whole list, its two
   * counts collected; a step that raises ends the loop with its error.
   */
  method RunAll(steps: seq<Step>, mols: seq<Molecule>) returns (raised: Option<string>, issues: seq<nat>, notes: seq<nat>)
    requires Distinct(mols)
    modifies mols
    ensures var run := RunSteps(steps, old(States(mols)));
      && States(mols) == run.states && raised == run.raised
      && (raised.None? ==> issues == run.issueCounts && notes == run.noteCounts)
  {
    ghost var s0 := States(mols);
    issues, notes, raised := [], [], None;
    var k := 0;
    assert steps[..0] == [];
    ghost var run := RunSteps(steps[..0], s0);
    while k < |steps|
      invariant 0 <= k <= |steps|
      invariant run == RunSteps(steps[..k], s0) && run.raised.None?
      invariant States(mols) == run.states
      invariant issues == run.issueCounts && notes == run.noteCounts && raised == None
    {
      RunExtend(steps, s0, k);
      ghost var applied := Apply(steps[k], run.states);
      var res := ApplyStep(steps[k], mols);
      assert States(mols) == applied.states && res == ResultOf(applied);
      run := WorkflowRun(applied.states, run.issueCounts + [applied.numIssues], run.noteCounts + [applied.numNotes],
                         applied.raised);
      if res.Raised? {
        RunAfterRaise(steps, s0, k + 1);
        return Some(res.error), issues, notes;
      }
      issues := issues + [res.numIssues];
      notes := notes + [res.numNotes];
      k := k + 1;
    }
    assert steps[..k] == steps;
  }

  /** The measured durations of the first `n` steps. */
  function Durations(clock: int -> real, n: nat): (r: seq<real>)
    ensures |r| == n && forall k :: 0 <= k < n ==> r[k] == clock(k)
  {
    if n == 0 then [] else Durations(clock, n - 1) + [clock(n - 1)]
  }

  // ---------------------------------------------------------------------------
  // The survivor recurrence
  // ---------------------------------------------------------------------------

  /** `remaining`: the molecule count, then after each issue count, what is left. */
  function Remaining(n: int, issues: seq<int>): (r: seq<int>)
    ensures |r| == |issues| + 1 && r[0] == n
    ensures forall i :: 0 <= i < |issues| ==> r[i + 1] == r[i] - issues[i]
    decreases |issues|
  {
    if |issues| == 0 then [n]
    else
      var prev := Remaining(n, issues[..|issues| - 1]);
      prev + [prev[|issues| - 1] - issues[|issues| - 1]]
  }

  /** The last survivor count is the molecule count less every issue count. */
  lemma {:induction false} RemainingLast(n: int, issues: seq<int>)
    ensures Remaining(n, issues)[|issues|] == n - Sum(issues)
    decreases |issues|
  {
    if |issues| > 0 {
      RemainingLast(n, issues[..|issues| - 1]);
    }
  }

  lemma {:induction false} NonIncreasingBetween(r: seq<int>, i: int, j: int)
    requires forall k :: 0 <= k < |r| - 1 ==> r[k + 1] <= r[k]
    requires 0 <= i <= j < |r|
    ensures r[j] <= r[i]
    decreases j - i
  {
    if i < j {
      NonIncreasingBetween(r, i + 1, j);
    }
  }

  /** With non-negative issue counts the survivor counts never increase. */
  lemma RemainingNonIncreasing(n: int, issues: seq<int>)
    requires forall k :: 0 <= k < |issues| ==> issues[k] >= 0
    ensures var r := Remaining(n, issues);
      forall i, j :: 0 <= i <= j < |r| ==> r[j] <= r[i]
  {
    var r := Remaining(n, issues);
    forall i, j | 0 <= i <= j < |r|
      ensures r[j] <= r[i]
    {
      NonIncreasingBetween(r, i, j);
    }
  }

  /** The constructor's append loop. */
  method ComputeRemaining(n: int, issues: seq<int>) returns (remaining: seq<int>)
    ensures remaining == Remaining(n, issues)
  {
    remaining := [n];
    var i := 0;
    while i < |issues|
      invariant 0 <= i <= |issues|
      invariant remaining == Remaining(n, issues[..i])
    {
      assert issues[..i + 1][..i] == issues[..i];
      remaining := remaining + [remaining[|remaining| - 1] - issues[i]];
      i := i + 1;
    }
    assert issues[..i] == issues;
  }

  /**
   * After a run in which no step raised, the number of passing records is the
   * last survivor count of the result set built from that run.
   */
  lemma PassingIsLastRemaining(steps: seq<Step>, ss: seq<MoleculeState>)
    requires AllInv(ss) && RunSteps(steps, ss).raised.None?
    ensures var run := RunSteps(steps, ss);
      CountPassing(run.states) == Remaining(|ss|, [CountFailed(ss)] + run.issueCounts)[|steps| + 1]
  {
    var run := RunSteps(steps, ss);
    RunPassing(steps, ss);
    RemainingLast(|ss|, [CountFailed(ss)] + run.issueCounts);
    SumCons(CountFailed(ss), run.issueCounts);
  }

  // ---------------------------------------------------------------------------
  // Lookups
  // ---------------------------------------------------------------------------

  /** `xs[idx]` with Python's negative indices; `None` stands for the `IndexError`. */
  function PyIndex<T>(xs: seq<T>, idx: int): Option<T> {
    if 0 <= idx < |xs| then Some(xs[idx])
    else if -|xs| <= idx < 0 then Some(xs[|xs| + idx])
    else None
  }

  function StepNames(steps: seq<Step>): (r: seq<string>)
    ensures |r| == |steps| && forall i :: 0 <= i < |steps| ==> r[i] == steps[i].name
  {
    seq(|steps|, i requires 0 <= i < |steps| => steps[i].name)
  }

  /** The positions, in increasing order, at which `name` occurs. */
  function Occurrences(names: seq<string>, name: string): (r: seq<nat>)
    ensures forall k :: 0 <= k < |r| ==> r[k] < |names| && names[r[k]] == name
    ensures forall i :: 0 <= i < |names| && names[i] == name ==> i in r
    ensures forall k, l :: 0 <= k < l < |r| ==> r[k] < r[l]
    decreases |names|
  {
    if |names| == 0 then []
    else
      var n := |names| - 1;
      Occurrences(names[..n], name) + (if names[n] == name then [n] else [])
  }

  /** There are as many positions as occurrences of the name. */
  lemma {:induction false} OccurrencesCount(names: seq<string>, name: string)
    ensures |Occurrences(names, name)| == multiset(names)[name]
    decreases |names|
  {
    if |names| > 0 {
      var n := |names| - 1;
      OccurrencesCount(names[..n], name);
      assert names == names[..n] + [names[n]];
    }
  }

  /** `[counts[i + offset] for i in idxs]`; `None` stands for the `IndexError` of an index out of range. */
  function SelectAt(counts: seq<int>, idxs: seq<nat>, offset: nat): (r: Option<seq<int>>)
    ensures r.Some? <==> forall k :: 0 <= k < |idxs| ==> idxs[k] + offset < |counts|
    ensures r.Some? ==> |r.value| == |idxs| && forall k :: 0 <= k < |idxs| ==> r.value[k] == counts[idxs[k] + offset]
  {
    if forall k :: 0 <= k < |idxs| ==> idxs[k] + offset < |counts| then
      Some(seq(|idxs|, k requires 0 <= k < |idxs| => counts[idxs[k] + offset]))
    else None
  }

  // ---------------------------------------------------------------------------
  // Row selection and row builders
  // ---------------------------------------------------------------------------

  /** The records `to_smiles`/`to_mols` keep as written: only failed ones, and only without `include_failed`. */
  function KeptAsWritten(ss: seq<MoleculeState>, includeFailed: bool): (r: seq<MoleculeState>)
    decreases |ss|
  {
    if |ss| == 0 then []
    else
      var n := |ss| - 1;
      KeptAsWritten(ss[..n], includeFailed) + (if !includeFailed && ss[n].failed then [ss[n]] else [])
  }

  /** The records kept with the documented meaning: all of them with `include_failed`, otherwise the passing ones. */
  function Kept(ss: seq<MoleculeState>, includeFailed: bool): (r: seq<MoleculeState>)
    decreases |ss|
  {
    if |ss| == 0 then []
    else
      var n := |ss| - 1;
      Kept(ss[..n], includeFailed) + (if includeFailed || !ss[n].failed then [ss[n]] else [])
  }

  /** As written, the selection keeps only failed records, all of them or none. */
  lemma {:induction false} KeptAsWrittenSelectsFailed(ss: seq<MoleculeState>, includeFailed: bool)
    ensures var r := KeptAsWritten(ss, includeFailed);
      && (forall k :: 0 <= k < |r| ==> r[k].failed && r[k] in ss)
      && |r| == (if includeFailed then 0 else CountFailed(ss))
    decreases |ss|
  {
    if |ss| > 0 {
      var n := |ss| - 1;
      KeptAsWrittenSelectsFailed(ss[..n], includeFailed);
      assert ss == ss[..n] + [ss[n]];
      var p := KeptAsWritten(ss[..n], includeFailed);
      assert forall k :: 0 <= k < |p| ==> p[k] in ss[..n] ==> p[k] in ss;
    }
  }

  /** The documented selection: every record with `include_failed`, otherwise as many as pass, none failed, all from `ss`. */
  lemma {:induction false} KeptCountsPassing(ss: seq<MoleculeState>, includeFailed: bool)
    ensures var r := Kept(ss, includeFailed);
      && (includeFailed ==> r == ss)
      && (!includeFailed ==> |r| == CountPassing(ss) && forall k :: 0 <= k < |r| ==> !r[k].failed)
      && (forall k :: 0 <= k < |r| ==> r[k] in ss)
    decreases |ss|
  {
    if |ss| > 0 {
      var n := |ss| - 1;
      KeptCountsPassing(ss[..n], includeFailed);
      assert ss == ss[..n] + [ss[n]];
      var p := Kept(ss[..n], includeFailed);
      assert forall k :: 0 <= k < |p| ==> p[k] in ss[..n] ==> p[k] in ss;
    }
  }

  /** With the documented meaning: every record with `include_failed`, exactly the passing ones, in order, without. */
  lemma KeptSelectsDocumented(ss: seq<MoleculeState>, includeFailed: bool)
    ensures var r := Kept(ss, includeFailed);
      && (includeFailed ==> r == ss)
      && (!includeFailed ==> |r| == CountPassing(ss) && forall k :: 0 <= k < |r| ==> !r[k].failed)
      && (!includeFailed ==> var p := PassingAt(ss);
            |r| == |p| && forall k :: 0 <= k < |r| ==> r[k] == ss[p[k]])
      && (forall k :: 0 <= k < |r| ==> r[k] in ss)
  {
    KeptCountsPassing(ss, includeFailed);
    if !includeFailed {
      KeptIsPassingInOrder(ss);
    }
  }

  /** The positions, in increasing order, of the records that have not failed. */
  function PassingAt(ss: seq<MoleculeState>): (r: seq<nat>)
    ensures forall k :: 0 <= k < |r| ==> r[k] < |ss| && !ss[r[k]].failed
    ensures forall i :: 0 <= i < |ss| && !ss[i].failed ==> i in r
    ensures forall k, l :: 0 <= k < l < |r| ==> r[k] < r[l]
    decreases |ss|
  {
    if |ss| == 0 then []
    else
      var n := |ss| - 1;
      PassingAt(ss[..n]) + (if ss[n].failed then [] else [n])
  }

  /** Without `include_failed`, the documented selection is the passing records in record order. */
  lemma {:induction false} KeptIsPassingInOrder(ss: seq<MoleculeState>)
    ensures var p := PassingAt(ss);
      Kept(ss, false) == seq(|p|, k requires 0 <= k < |p| => ss[p[k]])
    decreases |ss|
  {
    if |ss| > 0 {
      var n := |ss| - 1;
      KeptIsPassingInOrder(ss[..n]);
      var p0 := PassingAt(ss[..n]);
      var p := PassingAt(ss);
      var r0 := Kept(ss[..n], false);
      var r := Kept(ss, false);
      assert r == r0 + (if ss[n].failed then [] else [ss[n]]);
      assert p == p0 + (if ss[n].failed then [] else [n]);
      assert |r| == |p|;
      forall k | 0 <= k < |p|
        ensures r[k] == ss[p[k]]
      {
        if k < |p0| {
          assert r[k] == r0[k] == ss[..n][p0[k]];
        }
      }
    }
  }

  /** `Kept` on one more record. */
  lemma KeptExtend(ss: seq<MoleculeState>, i: nat, includeFailed: bool)
    requires i < |ss|
    ensures Kept(ss[..i + 1], includeFailed)
         == Kept(ss[..i], includeFailed) + (if includeFailed || !ss[i].failed then [ss[i]] else [])
  {
    assert ss[..i + 1][..i] == ss[..i];
  }

  /** Each column of one more kept record is the column before it with one more cell. */
  lemma ColumnsExtend(kept: seq<MoleculeState>, s: MoleculeState)
    ensures IdsOf(kept + [s]) == IdsOf(kept) + [s.id]
    ensures SmilesOf(kept + [s]) == SmilesOf(kept) + [s.mol.smiles]
    ensures MolsOf(kept + [s]) == MolsOf(kept) + [s.mol]
    ensures IssuesOf(kept + [s]) == IssuesOf(kept) + [IssueCell(s)]
    ensures NotesOf(kept + [s]) == NotesOf(kept) + [s.notes]
  {
  }

  /** A single passing record is dropped by the selection as written and kept by the documented one. */
  lemma PassingRecordDropped(s: MoleculeState)
    requires !s.failed
    ensures KeptAsWritten([s], false) == []
    ensures Kept([s], false) == [s]
  {
    assert [s][..0] == [];
  }

  /** `m` is the structure of some failed record of `ss`. */
  predicate FailedStructure(ss: seq<MoleculeState>, m: Mol) {
    exists s :: s in ss && s.failed && s.mol == m
  }

  /** `m` is the structure of some record of `ss` that the documented selection keeps. */
  predicate KeptStructure(ss: seq<MoleculeState>, includeFailed: bool, m: Mol) {
    exists s :: s in ss && (includeFailed || !s.failed) && s.mol == m
  }

  /** The SMILES and structures of the records kept as written: one per failed record, each a failed record's. */
  lemma KeptColumnsAsWritten(ss: seq<MoleculeState>, includeFailed: bool)
    ensures var smiles := SmilesOf(KeptAsWritten(ss, includeFailed));
      && (includeFailed ==> smiles == [])
      && (!includeFailed ==> |smiles| == CountFailed(ss))
    ensures var mols := MolsOf(KeptAsWritten(ss, includeFailed));
      && (includeFailed ==> mols == [])
      && (!includeFailed ==> |mols| == CountFailed(ss))
      && forall k :: 0 <= k < |mols| ==> FailedStructure(ss, mols[k])
  {
    var kept := KeptAsWritten(ss, includeFailed);
    KeptAsWrittenSelectsFailed(ss, includeFailed);
    var mols := MolsOf(kept);
    forall k | 0 <= k < |mols|
      ensures FailedStructure(ss, mols[k])
    {
      var s := kept[k];
      assert s in ss && s.failed && s.mol == mols[k];
    }
  }

  /** The SMILES and structures of the records kept as documented: all of them in order, or one per passing record. */
  lemma KeptColumnsDocumented(ss: seq<MoleculeState>, includeFailed: bool)
    ensures var smiles := SmilesOf(Kept(ss, includeFailed));
      && (includeFailed ==> |smiles| == |ss| && forall k :: 0 <= k < |ss| ==> smiles[k] == ss[k].mol.smiles)
      && (!includeFailed ==> |smiles| == CountPassing(ss))
      && (!includeFailed ==> var p := PassingAt(ss);
            |smiles| == |p| && forall k :: 0 <= k < |p| ==> smiles[k] == ss[p[k]].mol.smiles)
    ensures var mols := MolsOf(Kept(ss, includeFailed));
      && (includeFailed ==> |mols| == |ss| && forall k :: 0 <= k < |ss| ==> mols[k] == ss[k].mol)
      && (!includeFailed ==> |mols| == CountPassing(ss))
      && (!includeFailed ==> var p := PassingAt(ss);
            |mols| == |p| && forall k :: 0 <= k < |p| ==> mols[k] == ss[p[k]].mol)
      && forall k :: 0 <= k < |mols| ==> KeptStructure(ss, includeFailed, mols[k])
  {
    var kept := Kept(ss, includeFailed);
    KeptSelectsDocumented(ss, includeFailed);
    var mols := MolsOf(kept);
    forall k | 0 <= k < |mols|
      ensures KeptStructure(ss, includeFailed, mols[k])
    {
      var s := kept[k];
      assert s in ss && (includeFailed || !s.failed) && mols[k] == s.mol;
    }
  }

  function SmilesOf(ss: seq<MoleculeState>): (r: seq<string>)
    ensures |r| == |ss| && forall i :: 0 <= i < |ss| ==> r[i] == ss[i].mol.smiles
  {
    seq(|ss|, i requires 0 <= i < |ss| => ss[i].mol.smiles)
  }

  function MolsOf(ss: seq<MoleculeState>): (r: seq<Mol>)
    ensures |r| == |ss| && forall i :: 0 <= i < |ss| ==> r[i] == ss[i].mol
  {
    seq(|ss|, i requires 0 <= i < |ss| => ss[i].mol)
  }

  function IdsOf(ss: seq<MoleculeState>): (r: seq<Id>)
    ensures |r| == |ss| && forall i :: 0 <= i < |ss| ==> r[i] == ss[i].id
  {
    seq(|ss|, i requires 0 <= i < |ss| => ss[i].id)
  }

  /** The issue cell of a record: its issue text when it failed, "PASSED" otherwise. */
  function IssueCell(s: MoleculeState): string {
    if s.failed then s.issue else "PASSED"
  }

  function IssuesOf(ss: seq<MoleculeState>): (r: seq<string>)
    ensures |r| == |ss| && forall i :: 0 <= i < |ss| ==> r[i] == IssueCell(ss[i])
  {
    seq(|ss|, i requires 0 <= i < |ss| => IssueCell(ss[i]))
  }

  function NotesOf(ss: seq<MoleculeState>): (r: seq<seq<string>>)
    ensures |r| == |ss| && forall i :: 0 <= i < |ss| ==> r[i] == ss[i].notes
  {
    seq(|ss|, i requires 0 <= i < |ss| => ss[i].notes)
  }

  /** The columns of the `to_pandas` frame; `issue` and `notes` are optional columns. */
  datatype Frame = Frame(ids: seq<Id>, smiles: seq<string>, mols: seq<Mol>,
                         issue: Option<seq<string>>, notes: Option<seq<seq<string>>>)

  /** All present columns have the same length, as a data frame needs. */
  predicate Rectangular(f: Frame) {
    && |f.smiles| == |f.ids| && |f.mols| == |f.ids|
    && (f.issue.Some? ==> |f.issue.value| == |f.ids|)
    && (f.notes.Some? ==> |f.notes.value| == |f.ids|)
  }

  /** The frame `to_pandas` builds as written: the issue list is filled under `include_notes`, the notes under `include_issues`. */
  function FrameAsWritten(ss: seq<MoleculeState>, includeNotes: bool, includeIssues: bool, includeFailed: bool): Frame {
    var kept := Kept(ss, includeFailed);
    Frame(IdsOf(kept), SmilesOf(kept), MolsOf(kept),
          if includeIssues then Some(if includeNotes then IssuesOf(kept) else []) else None,
          if includeNotes then Some(if includeIssues then NotesOf(kept) else []) else None)
  }

  /** The frame with each flag filling its own column. */
  function FrameOf(ss: seq<MoleculeState>, includeNotes: bool, includeIssues: bool, includeFailed: bool): Frame {
    var kept := Kept(ss, includeFailed);
    Frame(IdsOf(kept), SmilesOf(kept), MolsOf(kept),
          if includeIssues then Some(IssuesOf(kept)) else None,
          if includeNotes then Some(NotesOf(kept)) else None)
  }

  /**
   * As written, asking for exactly one of the two optional columns over a
   * non-empty selection yields an empty column beside full ones; with both
   * flags equal the frame is the intended one.
   */
  lemma FrameAsWrittenRagged(ss: seq<MoleculeState>, includeNotes: bool, includeIssues: bool, includeFailed: bool)
    ensures includeNotes == includeIssues ==>
      FrameAsWritten(ss, includeNotes, includeIssues, includeFailed) == FrameOf(ss, includeNotes, includeIssues, includeFailed)
    ensures includeNotes != includeIssues && |Kept(ss, includeFailed)| > 0 ==>
      !Rectangular(FrameAsWritten(ss, includeNotes, includeIssues, includeFailed))
    ensures Rectangular(FrameAsWritten(ss, includeNotes, includeIssues, includeFailed))
        <==> includeNotes == includeIssues || |Kept(ss, includeFailed)| == 0
    ensures |Kept(ss, includeFailed)| == 0 ==>
      FrameAsWritten(ss, includeNotes, includeIssues, includeFailed) == FrameOf(ss, includeNotes, includeIssues, includeFailed)
  {
  }

  /** The message of the `ValueError` pandas raises on columns of unequal length. */
  const RaggedFrameError := "All arrays must be of the same length"

  /**
   * The intended frame is rectangular, has one row per kept record in record
   * order, and has an issue and a notes column exactly when asked for.
   */
  lemma FrameOfShape(ss: seq<MoleculeState>, includeNotes: bool, includeIssues: bool, includeFailed: bool)
    ensures var f := FrameOf(ss, includeNotes, includeIssues, includeFailed);
      && Rectangular(f)
      && (f.issue.Some? <==> includeIssues)
      && (f.notes.Some? <==> includeNotes)
      && |f.ids| == (if includeFailed then |ss| else CountPassing(ss))
      && (includeFailed ==> f.ids == IdsOf(ss))
      && (f.issue.Some? ==> forall k :: 0 <= k < |f.ids| ==> (f.issue.value[k] == "PASSED" <== !Kept(ss, includeFailed)[k].failed))
    ensures var f := FrameOf(ss, includeNotes, includeIssues, includeFailed);
      var p := PassingAt(ss);
      !includeFailed ==>
        && |f.ids| == |p|
        && (forall k :: 0 <= k < |p| ==> f.ids[k] == ss[p[k]].id && f.smiles[k] == ss[p[k]].mol.smiles && f.mols[k] == ss[p[k]].mol)
        && (f.issue.Some? ==> forall k :: 0 <= k < |p| ==> f.issue.value[k] == "PASSED")
        && (f.notes.Some? ==> forall k :: 0 <= k < |p| ==> f.notes.value[k] == ss[p[k]].notes)
  {
    KeptSelectsDocumented(ss, includeFailed);
  }

  /** A `save_as_txt` line before its newline, with a given issue field. */
  function TxtLineWith(s: MoleculeState, issueField: string): string {
    IdText(s.id) + "\t" + s.mol.smiles + "\t" + issueField + "\t" + Text.Join("\t", s.notes)
  }

  /** The row `save_as_txt` writes as written: "PASSED" for a failed record, the issue text for a passing one. */
  function TxtRowAsWritten(s: MoleculeState): string {
    TxtLineWith(s, if s.failed then "PASSED" else s.issue) + "\n"
  }

  /** The row with the documented issue field. */
  function TxtRow(s: MoleculeState): string {
    TxtLineWith(s, IssueCell(s)) + "\n"
  }

  /** Text without tabs or newlines. */
  predicate Plain(t: string) {
    '\t' !in t && '\n' !in t
  }

  /** A record none of whose written texts contains a tab or a newline. */
  predicate PlainRecord(s: MoleculeState) {
    && Plain(IdText(s.id)) && Plain(s.mol.smiles) && Plain(s.issue)
    && forall k :: 0 <= k < |s.notes| ==> Plain(s.notes[k])
  }

  /** The tab-separated fields of a row with the given issue field, as a reader splitting the line gets them. */
  function RowFields(s: MoleculeState, issueField: string): seq<string> {
    [IdText(s.id), s.mol.smiles, issueField] + (if s.notes == [] then [""] else s.notes)
  }

  /**
   * A row is one line whose tab-separated fields are the id, the SMILES, the
   * issue field and then the notes (one empty field when there are none).
   */
  lemma TxtLineFields(s: MoleculeState, issueField: string)
    requires Plain(IdText(s.id)) && Plain(s.mol.smiles) && Plain(issueField)
    requires forall k :: 0 <= k < |s.notes| ==> Plain(s.notes[k])
    ensures Text.Split(TxtLineWith(s, issueField), '\t')
         == [IdText(s.id), s.mol.smiles, issueField] + (if s.notes == [] then [""] else s.notes)
  {
    var head := [IdText(s.id), s.mol.smiles, issueField];
    var tail := if s.notes == [] then [""] else s.notes;
    var j := Text.Join("\t", s.notes);
    assert Text.Join("\t", [j]) == j;
    assert Text.Join("\t", [issueField, j]) == issueField + "\t" + j;
    assert [issueField, j][1..] == [j];
    assert (head + [j])[1..] == [s.mol.smiles, issueField, j];
    assert [s.mol.smiles, issueField, j][1..] == [issueField, j];
    assert Text.Join("\t", head + [j]) == TxtLineWith(s, issueField);
    if s.notes == [] {
      assert j == "" && head + [j] == head + tail;
    } else {
      Text.JoinAppend("\t", head, s.notes);
    }
    Text.SplitJoin(head + tail, '\t');
  }

  /** As written, a failed record's row reports "PASSED" instead of its issue. */
  lemma TxtRowAsWrittenHidesIssue(s: MoleculeState)
    requires s.failed
    ensures TxtRowAsWritten(s) == TxtLineWith(s, "PASSED") + "\n"
    ensures s.issue != "PASSED" ==> TxtRowAsWritten(s) != TxtRow(s)
  {
    if s.issue != "PASSED" {
      var a := TxtLineWith(s, "PASSED");
      var b := TxtLineWith(s, s.issue);
      var p := IdText(s.id) + "\t" + s.mol.smiles + "\t";
      var q := "\t" + Text.Join("\t", s.notes) + "\n";
      assert TxtRowAsWritten(s) == p + "PASSED" + q;
      assert TxtRow(s) == p + s.issue + q;
      SpliceDiffers(p, "PASSED", s.issue, q);
    }
  }

  lemma SpliceDiffers(p: string, x: string, y: string, q: string)
    requires x != y
    ensures p + x + q != p + y + q
  {
    if |x| != |y| {
      assert |p + x + q| != |p + y + q|;
    } else {
      assert (p + x + q)[|p|..|p| + |x|] == x;
      assert (p + y + q)[|p|..|p| + |y|] == y;
    }
  }

  /** One element of the `save_as_json` list. */
  datatype JsonRecord = JsonRecord(id: Id, smiles: string, issue: string, notes: seq<string>)

  function JsonOf(s: MoleculeState): JsonRecord {
    JsonRecord(s.id, s.mol.smiles, IssueCell(s), s.notes)
  }

  /** The JSON records agree field for field with the full frame and with the documented text rows. */
  lemma JsonAgreesWithFrame(ss: seq<MoleculeState>)
    ensures var f := FrameOf(ss, true, true, true);
      var js := JsonRecords(ss);
      && |js| == |f.ids|
      && forall i :: 0 <= i < |ss| ==>
           js[i].id == f.ids[i] && js[i].smiles == f.smiles[i]
           && js[i].issue == f.issue.value[i] && js[i].notes == f.notes.value[i]
           && TxtRow(ss[i]) == TxtLineWith(ss[i], js[i].issue) + "\n"
  {
    KeptSelectsDocumented(ss, true);
  }

  // ---------------------------------------------------------------------------
  // Building the molecules
  // ---------------------------------------------------------------------------

  function Min(a: int, b: int): int {
    if a <= b then a else b
  }

  /** The records `curate_mols` builds: positional ids, or the given ids zipped with the inputs. */
  function LoadAll(mols: seq<Option<Mol>>, ids: Option<seq<Id>>, track: bool): (r: seq<MoleculeState>)
    ensures |r| == (if ids.Some? then Min(|ids.value|, |mols|) else |mols|)
    ensures AllInv(r)
  {
    var n := if ids.Some? then Min(|ids.value|, |mols|) else |mols|;
    seq(n, i requires 0 <= i < n => Load(if ids.Some? then ids.value[i] else IntId(i), mols[i], track))
  }

  /** Each built record carries its position or its paired id, and fails exactly when its input is absent or empty. */
  lemma LoadAllRecords(mols: seq<Option<Mol>>, ids: Option<seq<Id>>, track: bool)
    ensures var r := LoadAll(mols, ids, track);
      forall i :: 0 <= i < |r| ==>
        && r[i].id == (if ids.Some? then ids.value[i] else IntId(i))
        && (r[i].failed <==> mols[i].None? || IsEmpty(mols[i].value))
        && r[i].notes == [] && r[i].trackHistory == track
  {
  }

  /** The list comprehension over the inputs: one fresh molecule per record. */
  method BuildMolecules(mols: seq<Option<Mol>>, ids: Option<seq<Id>>, track: bool) returns (ms: seq<Molecule>)
    ensures States(ms) == LoadAll(mols, ids, track)
    ensures Distinct(ms) && forall i :: 0 <= i < |ms| ==> fresh(ms[i])
  {
    var n := if ids.Some? then Min(|ids.value|, |mols|) else |mols|;
    ghost var target := LoadAll(mols, ids, track);
    ms := [];
    var i := 0;
    while i < n
      invariant 0 <= i <= n && |ms| == i
      invariant forall j :: 0 <= j < i ==> fresh(ms[j]) && ms[j].State() == target[j]
      invariant Distinct(ms)
    {
      var id := if ids.Some? then ids.value[i] else IntId(i);
      var m := new Molecule(id, mols[i], track);
      ms := ms + [m];
      i := i + 1;
    }
    forall j | 0 <= j < |ms|
      ensures States(ms)[j] == target[j]
    {
      StatesIndex(ms, j);
    }
  }

  // ---------------------------------------------------------------------------
  // The workflow and its result set
  // ---------------------------------------------------------------------------

  class CurationWorkflow {
    const steps: seq<Step>
    const trackHistory: bool
    /** The warnings the constructor emitted. */
    const warnings: seq<string>

    /** `CurationWorkflow(steps, track_history, suppress_warnings)` */
    constructor (steps: seq<Step>, trackHistory: bool, suppressWarnings: bool)
      ensures this.steps == steps && this.trackHistory == trackHistory
      ensures warnings == OrderingWarnings(steps, suppressWarnings)
    {
      this.steps := steps;
      this.trackHistory := trackHistory;
      var w := DiagnoseOrdering(steps, suppressWarnings);
      this.warnings := w;
    }

    /**
     * `_run_workflow(mols, from_)`: every step over the whole list in order;
     * `clock(k)` is the duration measured for step `k`. A step that raises
     * ends the run with its error.
     */
    method RunWorkflow(mols: seq<Molecule>, from: string, clock: int -> real) returns (r: Result<CuratedMoleculeSet, string>)
      requires Distinct(mols)
      modifies mols
      ensures var run := RunSteps(steps, old(States(mols)));
        && States(mols) == run.states
        && (r.Failure? <==> run.raised.Some?)
        && (r.Failure? ==> r.error == run.raised.value)
        && (r.Success? ==>
              && fresh(r.value) && r.value.Valid()
              && r.value.molecules == mols && r.value.workflow == this && r.value.from == from
              && r.value.numIssues == [CountFailed(old(States(mols)))] + run.issueCounts
              && r.value.numNotes == [0] + run.noteCounts
              && r.value.timings == [0.0] + Durations(clock, |steps|))
    {
      var loaded := CountFailed(States(mols));
      var raised, issues, notes := RunAll(steps, mols);
      if raised.Some? {
        return Failure(raised.value);
      }
      var result := new CuratedMoleculeSet(mols, this, [loaded] + issues, [0] + notes, [0.0] + Durations(clock, |steps|), from);
      r := Success(result);
    }

    /** `curate_mols(mols, ids)` */
    method CurateMols(mols: seq<Option<Mol>>, ids: Option<seq<Id>>, clock: int -> real)
      returns (r: Result<CuratedMoleculeSet, string>)
      ensures var loaded := LoadAll(mols, ids, trackHistory);
        var run := RunSteps(steps, loaded);
        && (r.Failure? <==> run.raised.Some?)
        && (r.Success? ==>
              && States(r.value.molecules) == run.states
              && r.value.numIssues == [CountFailed(loaded)] + run.issueCounts
              && r.value.numNotes == [0] + run.noteCounts
              && r.value.from == "List of SMILES")
    {
      var ms := BuildMolecules(mols, ids, trackHistory);
      r := RunWorkflow(ms, "List of SMILES", clock);
    }

    /** `curate_smiles(smis, ids)`: `parse` stands for the SMILES parser, which answers `None` on failure. */
    method CurateSmiles(smis: seq<string>, ids: Option<seq<Id>>, parse: string -> Option<Mol>, clock: int -> real)
      returns (r: Result<CuratedMoleculeSet, string>)
      ensures var loaded := LoadAll(seq(|smis|, i requires 0 <= i < |smis| => parse(smis[i])), ids, trackHistory);
        var run := RunSteps(steps, loaded);
        && (r.Failure? <==> run.raised.Some?)
        && (r.Success? ==>
              && States(r.value.molecules) == run.states
              && r.value.numIssues == [CountFailed(loaded)] + run.issueCounts
              && r.value.numNotes == [0] + run.noteCounts
              && r.value.from == "List of SMILES")
    {
      var mols := seq(|smis|, i requires 0 <= i < |smis| => parse(smis[i]));
      r := CurateMols(mols, ids, clock);
    }

    /**
     * `to_string()`: the loading pseudo-step followed by every step name in
     * order, joined by " -> "; with no steps, the pseudo-step and a dangling arrow.
     */
    function ToString(): (r: string)
      ensures |steps| > 0 ==> r == Text.Join(" -> ", ["RDKitLoading"] + StepNames(steps))
      ensures |steps| == 0 ==> r == "RDKitLoading -> "
    {
      assert |steps| > 0 ==> (["RDKitLoading"] + StepNames(steps))[1..] == StepNames(steps);
      "RDKitLoading -> " + Text.Join(" -> ", StepNames(steps))
    }
  }

  class CuratedMoleculeSet {
    const molecules: seq<Molecule>
    const workflow: CurationWorkflow
    const numIssues: seq<int>
    const numNotes: seq<int>
    const timings: seq<real>
    const from: string
    const remaining: seq<int>

    /** The length relations the constructor asserts, with `remaining` derived from the issue counts. */
    predicate Valid() {
      && |timings| == |workflow.steps| + 1
      && |numIssues| == |workflow.steps| + 1
      && |numNotes| == |workflow.steps| + 1
      && |remaining| == |workflow.steps| + 2
      && remaining == Remaining(|molecules|, numIssues)
    }

    /** `CuratedMoleculeSet(molecules, workflow, num_issues, num_notes, timings, from_)` */
    constructor (molecules: seq<Molecule>, workflow: CurationWorkflow, numIssues: seq<int>, numNotes: seq<int>,
                 timings: seq<real>, from: string)
      requires |timings| == |workflow.steps| + 1 && |numIssues| == |workflow.steps| + 1
      requires |numNotes| == |workflow.steps| + 1
      ensures this.molecules == molecules && this.workflow == workflow && this.from == from
      ensures this.numIssues == numIssues && this.numNotes == numNotes && this.timings == timings
      ensures remaining == Remaining(|molecules|, numIssues)
      ensures Valid()
    {
      this.molecules := molecules;
      this.workflow := workflow;
      this.numIssues := numIssues;
      this.numNotes := numNotes;
      this.timings := timings;
      this.from := from;
      var r := ComputeRemaining(|molecules|, numIssues);
      this.remaining := r;
    }

    function Records(): seq<MoleculeState>
      reads molecules
    {
      States(molecules)
    }

    /** `to_smiles(include_failed)` as written: the SMILES of what `to_mols` returns, so of failed molecules only. */
    function ToSmilesAsWritten(includeFailed: bool): (r: seq<string>)
      reads molecules
      ensures includeFailed ==> r == []
      ensures !includeFailed ==> |r| == CountFailed(Records())
      ensures |r| == |ToMolsAsWritten(includeFailed)| && forall k :: 0 <= k < |r| ==> r[k] == ToMolsAsWritten(includeFailed)[k].smiles
    {
      KeptColumnsAsWritten(Records(), includeFailed);
      SmilesOf(KeptAsWritten(Records(), includeFailed))
    }

    /** `to_smiles(include_failed)` with the documented selection: the SMILES of what `to_mols` returns. */
    function ToSmiles(includeFailed: bool): (r: seq<string>)
      reads molecules
      ensures includeFailed ==> |r| == |molecules| && forall k :: 0 <= k < |r| ==> r[k] == Records()[k].mol.smiles
      ensures !includeFailed ==> |r| == CountPassing(Records())
      ensures !includeFailed ==> var p := PassingAt(Records());
        |r| == |p| && forall k :: 0 <= k < |p| ==> r[k] == Records()[p[k]].mol.smiles
      ensures |r| == |ToMols(includeFailed)| && forall k :: 0 <= k < |r| ==> r[k] == ToMols(includeFailed)[k].smiles
    {
      KeptColumnsDocumented(Records(), includeFailed);
      SmilesOf(Kept(Records(), includeFailed))
    }

    /** `to_mols(include_failed)` as written: the structures of failed molecules only, and none at all with `include_failed`. */
    function ToMolsAsWritten(includeFailed: bool): (r: seq<Mol>)
      reads molecules
      ensures includeFailed ==> r == []
      ensures !includeFailed ==> |r| == CountFailed(Records())
      ensures forall k :: 0 <= k < |r| ==> FailedStructure(Records(), r[k])
    {
      KeptColumnsAsWritten(Records(), includeFailed);
      MolsOf(KeptAsWritten(Records(), includeFailed))
    }

    /** `to_mols(include_failed)` with the documented selection: every molecule in order, or the passing ones. */
    function ToMols(includeFailed: bool): (r: seq<Mol>)
      reads molecules
      ensures includeFailed ==> |r| == |molecules| && forall k :: 0 <= k < |r| ==> r[k] == Records()[k].mol
      ensures !includeFailed ==> |r| == CountPassing(Records())
      ensures !includeFailed ==> var p := PassingAt(Records());
        |r| == |p| && forall k :: 0 <= k < |p| ==> r[k] == Records()[p[k]].mol
      ensures forall k :: 0 <= k < |r| ==> KeptStructure(Records(), includeFailed, r[k])
    {
      KeptColumnsDocumented(Records(), includeFailed);
      MolsOf(Kept(Records(), includeFailed))
    }

    /** `get_passing_mask()`: one entry per molecule, in order, true exactly for the passing ones. */
    function GetPassingMask(): (r: seq<bool>)
      reads molecules
      ensures |r| == |molecules|
      ensures multiset(r)[true] == CountPassing(Records())
    {
      MaskCount(Records());
      MaskOf(Records())
    }

    /** `get_num_issues_at_step(idx)` for an integer index; `None` stands for the `IndexError`. */
    function NumIssuesAtIndex(idx: int): (r: Option<int>)
      requires Valid()
      ensures 0 <= idx <= |workflow.steps| ==> r == Some(numIssues[idx])
      ensures r.Some? <==> -|workflow.steps| - 1 <= idx <= |workflow.steps|
    {
      PyIndex(numIssues, idx)
    }

    /** `get_num_notes_at_step(idx)` for an integer index. */
    function NumNotesAtIndex(idx: int): (r: Option<int>)
      requires Valid()
      ensures 0 <= idx <= |workflow.steps| ==> r == Some(numNotes[idx])
      ensures r.Some? <==> -|workflow.steps| - 1 <= idx <= |workflow.steps|
    {
      PyIndex(numNotes, idx)
    }

    /** `get_remaining_molecules_after_step(idx)` for an integer index: `remaining[idx + 1]`. */
    function RemainingAfterIndex(idx: int): (r: Option<int>)
      requires Valid()
      ensures 0 <= idx + 1 <= |workflow.steps| + 1 ==> r == Some(remaining[idx + 1])
      ensures idx == -1 ==> r == Some(|molecules|)
      ensures r.Some? <==> -|workflow.steps| - 3 <= idx <= |workflow.steps|
    {
      PyIndex(remaining, idx + 1)
    }

    /** `get_num_issues_at_step(name)`: the count of every step with that name, in run order. */
    function NumIssuesByName(name: string): (r: seq<int>)
      requires Valid()
      ensures var occ := Occurrences(StepNames(workflow.steps), name);
        |r| == |occ| == multiset(StepNames(workflow.steps))[name]
        && forall k :: 0 <= k < |occ| ==> workflow.steps[occ[k]].name == name && r[k] == numIssues[occ[k] + 1]
    {
      OccurrencesCount(StepNames(workflow.steps), name);
      SelectAt(numIssues, Occurrences(StepNames(workflow.steps), name), 1).value
    }

    /** `get_num_notes_at_step(name)` */
    function NumNotesByName(name: string): (r: seq<int>)
      requires Valid()
      ensures var occ := Occurrences(StepNames(workflow.steps), name);
        |r| == |occ| == multiset(StepNames(workflow.steps))[name]
        && forall k :: 0 <= k < |occ| ==> workflow.steps[occ[k]].name == name && r[k] == numNotes[occ[k] + 1]
    {
      OccurrencesCount(StepNames(workflow.steps), name);
      SelectAt(numNotes, Occurrences(StepNames(workflow.steps), name), 1).value
    }

    /** `get_remaining_molecules_after_step(name)`: `remaining[i + 2]` for every step `i` of that name. */
    function RemainingAfterName(name: string): (r: seq<int>)
      requires Valid()
      ensures var occ := Occurrences(StepNames(workflow.steps), name);
        |r| == |occ| == multiset(StepNames(workflow.steps))[name]
        && forall k :: 0 <= k < |occ| ==> workflow.steps[occ[k]].name == name && r[k] == remaining[occ[k] + 2]
    {
      OccurrencesCount(StepNames(workflow.steps), name);
      SelectAt(remaining, Occurrences(StepNames(workflow.steps), name), 2).value
    }

    /**
     * `to_pandas(include_notes, include_issues, include_failed)` as written:
     * `pd.DataFrame` raises on the ragged columns, which happens exactly when
     * one optional column is asked for without the other and some record is kept.
     */
    method ToPandasAsWritten(includeNotes: bool, includeIssues: bool, includeFailed: bool) returns (r: Result<Frame, string>)
      ensures r.Success? <==> includeNotes == includeIssues || |Kept(Records(), includeFailed)| == 0
      ensures r.Success? ==> r.value == FrameAsWritten(Records(), includeNotes, includeIssues, includeFailed)
      ensures r.Success? ==> r.value == FrameOf(Records(), includeNotes, includeIssues, includeFailed)
      ensures r.Failure? ==> r.error == RaggedFrameError
    {
      var ids: seq<Id>, smiles: seq<string>, mols: seq<Mol> := [], [], [];
      var issues: seq<string>, notes: seq<seq<string>> := [], [];
      ghost var recs := Records();
      ghost var kept: seq<MoleculeState> := [];
      var i := 0;
      while i < |molecules|
        invariant 0 <= i <= |molecules|
        invariant kept == Kept(recs[..i], includeFailed)
        invariant ids == IdsOf(kept) && smiles == SmilesOf(kept) && mols == MolsOf(kept)
        invariant (includeNotes ==> issues == IssuesOf(kept)) && (!includeNotes ==> issues == [])
        invariant (includeIssues ==> notes == NotesOf(kept)) && (!includeIssues ==> notes == [])
      {
        KeptExtend(recs, i, includeFailed);
        var m := molecules[i];
        StatesIndex(molecules, i);
        ColumnsExtend(kept, recs[i]);
        if includeFailed || !m.failedCuration {
          ids := ids + [m.id];
          smiles := smiles + [m.GetSmiles()];
          mols := mols + [m.mol];
          if includeNotes {
            issues := issues + [if m.failedCuration then m.issue else "PASSED"];
          }
          if includeIssues {
            notes := notes + [m.notes];
          }
          kept := kept + [m.State()];
        }
        i := i + 1;
      }
      assert recs[..i] == recs;
      var f := Frame(ids, smiles, mols, if includeIssues then Some(issues) else None, if includeNotes then Some(notes) else None);
      FrameAsWrittenRagged(recs, includeNotes, includeIssues, includeFailed);
      if Rectangular(f) {
        r := Success(f);
      } else {
        r := Failure(RaggedFrameError);
      }
    }

    /** `to_pandas` with each flag filling its own column. */
    method ToPandas(includeNotes: bool, includeIssues: bool, includeFailed: bool) returns (f: Frame)
      ensures f == FrameOf(Records(), includeNotes, includeIssues, includeFailed)
    {
      var ids: seq<Id>, smiles: seq<string>, mols: seq<Mol> := [], [], [];
      var issues: seq<string>, notes: seq<seq<string>> := [], [];
      ghost var recs := Records();
      ghost var kept: seq<MoleculeState> := [];
      var i := 0;
      while i < |molecules|
        invariant 0 <= i <= |molecules|
        invariant kept == Kept(recs[..i], includeFailed)
        invariant ids == IdsOf(kept) && smiles == SmilesOf(kept) && mols == MolsOf(kept)
        invariant (includeIssues ==> issues == IssuesOf(kept)) && (!includeIssues ==> issues == [])
        invariant (includeNotes ==> notes == NotesOf(kept)) && (!includeNotes ==> notes == [])
      {
        KeptExtend(recs, i, includeFailed);
        var m := molecules[i];
        StatesIndex(molecules, i);
        ColumnsExtend(kept, recs[i]);
        if includeFailed || !m.failedCuration {
          ids := ids + [m.id];
          smiles := smiles + [m.GetSmiles()];
          mols := mols + [m.mol];
          if includeIssues {
            issues := issues + [if m.failedCuration then m.issue else "PASSED"];
          }
          if includeNotes {
            notes := notes + [m.notes];
          }
          kept := kept + [m.State()];
        }
        i := i + 1;
      }
      assert recs[..i] == recs;
      f := Frame(ids, smiles, mols, if includeIssues then Some(issues) else None, if includeNotes then Some(notes) else None);
    }

    /**
     * The lines `save_as_txt` writes as written, one per molecule in order:
     * a failed molecule's issue field reads "PASSED", a passing one's its empty issue.
     */
    function SaveAsTxtAsWritten(): (r: seq<string>)
      reads molecules
      ensures |r| == |molecules|
      ensures forall i :: 0 <= i < |r| ==> |r[i]| > 0 && r[i][|r[i]| - 1] == '\n'
      ensures forall i :: 0 <= i < |r| && PlainRecord(Records()[i]) ==>
        Text.Split(r[i][..|r[i]| - 1], '\t')
          == RowFields(Records()[i], if Records()[i].failed then "PASSED" else Records()[i].issue)
    {
      var ss := Records();
      var rows := TxtRowsAsWritten(ss);
      forall i | 0 <= i < |rows|
        ensures |rows[i]| > 0 && rows[i][|rows[i]| - 1] == '\n'
        ensures PlainRecord(ss[i]) ==>
          Text.Split(rows[i][..|rows[i]| - 1], '\t') == RowFields(ss[i], if ss[i].failed then "PASSED" else ss[i].issue)
      {
        var field := if ss[i].failed then "PASSED" else ss[i].issue;
        var line := TxtLineWith(ss[i], field);
        assert rows[i] == line + "\n";
        assert rows[i][..|rows[i]| - 1] == line;
        if PlainRecord(ss[i]) {
          assert Plain("PASSED");
          TxtLineFields(ss[i], field);
        }
      }
      rows
    }

    /**
     * The lines of `save_as_txt` with the documented issue field, one per
     * molecule in order: the issue text of a failed molecule, "PASSED" otherwise.
     */
    function SaveAsTxt(): (r: seq<string>)
      reads molecules
      ensures |r| == |molecules|
      ensures forall i :: 0 <= i < |r| ==> |r[i]| > 0 && r[i][|r[i]| - 1] == '\n'
      ensures forall i :: 0 <= i < |r| && PlainRecord(Records()[i]) ==>
        Text.Split(r[i][..|r[i]| - 1], '\t')
          == RowFields(Records()[i], if Records()[i].failed then Records()[i].issue else "PASSED")
    {
      var ss := Records();
      var rows := TxtRows(ss);
      forall i | 0 <= i < |rows|
        ensures |rows[i]| > 0 && rows[i][|rows[i]| - 1] == '\n'
        ensures PlainRecord(ss[i]) ==>
          Text.Split(rows[i][..|rows[i]| - 1], '\t') == RowFields(ss[i], if ss[i].failed then ss[i].issue else "PASSED")
      {
        var field := IssueCell(ss[i]);
        var line := TxtLineWith(ss[i], field);
        assert rows[i] == line + "\n";
        assert rows[i][..|rows[i]| - 1] == line;
        if PlainRecord(ss[i]) {
          assert Plain("PASSED");
          TxtLineFields(ss[i], field);
        }
      }
      rows
    }

    /**
     * The list `save_as_json` dumps: one record per molecule, failed ones
     * included, agreeing field for field with the full `to_pandas` frame and
     * carrying the issue field of the documented text line.
     */
    function SaveAsJson(): (r: seq<JsonRecord>)
      reads molecules
      ensures var f := FrameOf(Records(), true, true, true);
        && |r| == |molecules| == |f.ids|
        && forall i :: 0 <= i < |r| ==>
             r[i].id == f.ids[i] && r[i].smiles == f.smiles[i]
             && r[i].issue == f.issue.value[i] && r[i].notes == f.notes.value[i]
             && r[i].issue == (if Records()[i].failed then Records()[i].issue else "PASSED")
    {
      JsonAgreesWithFrame(Records());
      JsonRecords(Records())
    }
  }

  function TxtRowsAsWritten(ss: seq<MoleculeState>): (r: seq<string>)
    ensures |r| == |ss| && forall i :: 0 <= i < |ss| ==> r[i] == TxtRowAsWritten(ss[i])
  {
    seq(|ss|, i requires 0 <= i < |ss| => TxtRowAsWritten(ss[i]))
  }

  function TxtRows(ss: seq<MoleculeState>): (r: seq<string>)
    ensures |r| == |ss| && forall i :: 0 <= i < |ss| ==> r[i] == TxtRow(ss[i])
  {
    seq(|ss|, i requires 0 <= i < |ss| => TxtRow(ss[i]))
  }

  function JsonRecords(ss: seq<MoleculeState>): (r: seq<JsonRecord>)
    ensures |r| == |ss| && forall i :: 0 <= i < |ss| ==> r[i] == JsonOf(ss[i])
  {
    seq(|ss|, i requires 0 <= i < |ss| => JsonOf(ss[i]))
  }

  function MaskOf(ss: seq<MoleculeState>): (r: seq<bool>)
    ensures |r| == |ss| && forall i :: 0 <= i < |ss| ==> r[i] == !ss[i].failed
  {
    seq(|ss|, i requires 0 <= i < |ss| => !ss[i].failed)
  }

  /** The number of trues in the passing mask is the number of passing records. */
  lemma {:induction false} MaskCount(ss: seq<MoleculeState>)
    ensures multiset(MaskOf(ss))[true] == CountPassing(ss)
    decreases |ss|
  {
    if |ss| > 0 {
      var n := |ss| - 1;
      MaskCount(ss[..n]);
      assert MaskOf(ss) == MaskOf(ss[..n]) + [!ss[n].failed];
    } else {
      assert MaskOf(ss) == [];
    }
  }
}
